/**
 * `ProgrammeCoordinatorController`: a coordinator acts only on claims of
 * lecturers in their own department.
 */
module ProgrammeCoordinator {
  import opened Wrappers
  import opened Time
  import opened Text
  import opened ClaimStatuses
  import opened StatusHistory
  import opened Users
  import opened ClaimLifecycle
  import opened ReviewActions

  /** The claim lookup of every mutating action: by id, within the coordinator's department. */
  function ScopedLookup(claims: seq<Claim>, claimId: Guid, currentUser: Option<ApplicationUser>): (r: Option<Claim>)
    ensures currentUser.None? ==> r.None?
    ensures r.Some? ==> r.value in claims && r.value.id == claimId
                        && LecturerDepartment(r.value) == currentUser.value.department
  {
    if currentUser.None? then None else FindInDepartment(claims, claimId, currentUser.value.department)
  }

  /** A claim of another department is never found, so no action can touch it. */
  lemma ForeignClaimNeverFound(claims: seq<Claim>, claimId: Guid, currentUser: ApplicationUser, c: Claim)
    requires c in claims && LecturerDepartment(c) != currentUser.department
    ensures ScopedLookup(claims, claimId, Some(currentUser)) != Some(c)
  {
  }

  /** A missing signed-in user is an error before any guard runs. */
  function WithUser(currentUser: Option<ApplicationUser>, d: Decision): (r: Decision)
    ensures currentUser.None? ==> r == Refuse(Failed)
    ensures currentUser.Some? ==> r == d
  {
    if currentUser.None? then Refuse(Failed) else d
  }

  function ApproveDecision(currentUser: Option<ApplicationUser>, current: Option<Status>, notes: Option<string>): Decision {
    WithUser(currentUser, ApproveGuard(current, notes, Failed))
  }

  /** Blank notes are checked even before the signed-in user. */
  function RejectDecision(currentUser: Option<ApplicationUser>, current: Option<Status>, notes: Option<string>): (d: Decision)
    ensures IsNullOrWhiteSpace(notes) ==> d == Refuse(Failed)
  {
    if IsNullOrWhiteSpace(notes) then Refuse(Failed) else WithUser(currentUser, RejectGuard(notes, current, Failed))
  }

  function UpdateDecision(currentUser: Option<ApplicationUser>, current: Option<Status>, target: Status,
                          notes: Option<string>): Decision {
    WithUser(currentUser, UnguardedUpdate(current, target, notes, Failed))
  }

  /** Every way an approval can be refused, and when it goes through. */
  lemma ApproveDecisionOutcomes(currentUser: Option<ApplicationUser>, current: Option<Status>, notes: Option<string>)
    ensures var d := ApproveDecision(currentUser, current, notes);
      && (d == Refuse(Failed) <==> currentUser.None? || current.None?)
      && (d == Refuse(Warned) <==> currentUser.Some? && current == Some(Approved))
      && (d.Apply? <==> currentUser.Some? && current.Some? && current.value != Approved)
      && (d.Apply? ==> d == Apply(Approved, notes))
  {
  }

  /** Every way a rejection can be refused, and when it goes through. */
  lemma RejectDecisionOutcomes(currentUser: Option<ApplicationUser>, current: Option<Status>, notes: Option<string>)
    ensures var d := RejectDecision(currentUser, current, notes);
      && (d == Refuse(Failed) <==> IsNullOrWhiteSpace(notes) || currentUser.None? || current.None?)
      && (d == Refuse(Warned) <==> !IsNullOrWhiteSpace(notes) && currentUser.Some? && current == Some(Rejected))
      && (d.Apply? ==> d == Apply(Rejected, notes))
  {
  }

  /**
   * The quick actions go through `UpdateClaimStatus`: an approved claim is
   * approved again without a warning, and blank notes do not stop a rejection.
   */
  lemma QuickActionsSkipGuards(currentUser: ApplicationUser, current: Status, notes: Option<string>)
    ensures UpdateDecision(Some(currentUser), Some(current), Approved, notes) == Apply(Approved, notes)
    ensures UpdateDecision(Some(currentUser), Some(current), Rejected, notes) == Apply(Rejected, notes)
    ensures current == Approved ==> ApproveDecision(Some(currentUser), Some(current), notes) == Refuse(Warned)
    ensures IsNullOrWhiteSpace(notes) ==> RejectDecision(Some(currentUser), Some(current), notes) == Refuse(Failed)
  {
  }

  method ApproveClaim(claims: seq<Claim>, currentUser: Option<ApplicationUser>, claimId: Guid,
                      approvalNotes: Option<string>, actor: Option<string>, now: Ticks, hid: Guid)
    returns (outcome: Outcome)
    modifies set c | c in claims
    ensures Effect(claims, ScopedLookup(claims, claimId, currentUser),
                   ApproveDecision(currentUser, old(StatusOf(ScopedLookup(claims, claimId, currentUser))), approvalNotes),
                   actor, now, hid, outcome)
    ensures HistoryStillExplains(claims)
  {
    var found := ScopedLookup(claims, claimId, currentUser);
    outcome := Perform(claims, found, ApproveDecision(currentUser, StatusOf(found), approvalNotes), actor, now, hid);
  }

  method RejectClaim(claims: seq<Claim>, currentUser: Option<ApplicationUser>, claimId: Guid,
                     rejectionNotes: Option<string>, actor: Option<string>, now: Ticks, hid: Guid)
    returns (outcome: Outcome)
    modifies set c | c in claims
    ensures Effect(claims, ScopedLookup(claims, claimId, currentUser),
                   RejectDecision(currentUser, old(StatusOf(ScopedLookup(claims, claimId, currentUser))), rejectionNotes),
                   actor, now, hid, outcome)
    ensures HistoryStillExplains(claims)
  {
    var found := ScopedLookup(claims, claimId, currentUser);
    outcome := Perform(claims, found, RejectDecision(currentUser, StatusOf(found), rejectionNotes), actor, now, hid);
  }

  method SendForReview(claims: seq<Claim>, currentUser: Option<ApplicationUser>, claimId: Guid,
                       reviewNotes: Option<string>, actor: Option<string>, now: Ticks, hid: Guid)
    returns (outcome: Outcome)
    modifies set c | c in claims
    ensures Effect(claims, ScopedLookup(claims, claimId, currentUser),
                   UpdateDecision(currentUser, old(StatusOf(ScopedLookup(claims, claimId, currentUser))), UnderReview, reviewNotes),
                   actor, now, hid, outcome)
    ensures HistoryStillExplains(claims)
  {
    var found := ScopedLookup(claims, claimId, currentUser);
    outcome := Perform(claims, found, UpdateDecision(currentUser, StatusOf(found), UnderReview, reviewNotes), actor, now, hid);
  }

  method UpdateClaimStatus(claims: seq<Claim>, currentUser: Option<ApplicationUser>, claimId: Guid, status: Status,
                           notes: Option<string>, actor: Option<string>, now: Ticks, hid: Guid)
    returns (outcome: Outcome)
    modifies set c | c in claims
    ensures Effect(claims, ScopedLookup(claims, claimId, currentUser),
                   UpdateDecision(currentUser, old(StatusOf(ScopedLookup(claims, claimId, currentUser))), status, notes),
                   actor, now, hid, outcome)
    ensures HistoryStillExplains(claims)
  {
    var found := ScopedLookup(claims, claimId, currentUser);
    outcome := Perform(claims, found, UpdateDecision(currentUser, StatusOf(found), status, notes), actor, now, hid);
  }

  method QuickApprove(claims: seq<Claim>, currentUser: Option<ApplicationUser>, claimId: Guid,
                      approvalNotes: Option<string>, actor: Option<string>, now: Ticks, hid: Guid)
    returns (outcome: Outcome)
    modifies set c | c in claims
    ensures Effect(claims, ScopedLookup(claims, claimId, currentUser),
                   UpdateDecision(currentUser, old(StatusOf(ScopedLookup(claims, claimId, currentUser))), Approved, approvalNotes),
                   actor, now, hid, outcome)
    ensures HistoryStillExplains(claims)
  {
    outcome := UpdateClaimStatus(claims, currentUser, claimId, Approved, approvalNotes, actor, now, hid);
  }

  method QuickReject(claims: seq<Claim>, currentUser: Option<ApplicationUser>, claimId: Guid,
                     rejectionNotes: Option<string>, actor: Option<string>, now: Ticks, hid: Guid)
    returns (outcome: Outcome)
    modifies set c | c in claims
    ensures Effect(claims, ScopedLookup(claims, claimId, currentUser),
                   UpdateDecision(currentUser, old(StatusOf(ScopedLookup(claims, claimId, currentUser))), Rejected, rejectionNotes),
                   actor, now, hid, outcome)
    ensures HistoryStillExplains(claims)
  {
    outcome := UpdateClaimStatus(claims, currentUser, claimId, Rejected, rejectionNotes, actor, now, hid);
  }

  method QuickReview(claims: seq<Claim>, currentUser: Option<ApplicationUser>, claimId: Guid,
                     reviewNotes: Option<string>, actor: Option<string>, now: Ticks, hid: Guid)
    returns (outcome: Outcome)
    modifies set c | c in claims
    ensures Effect(claims, ScopedLookup(claims, claimId, currentUser),
                   UpdateDecision(currentUser, old(StatusOf(ScopedLookup(claims, claimId, currentUser))), UnderReview, reviewNotes),
                   actor, now, hid, outcome)
    ensures HistoryStillExplains(claims)
  {
    outcome := UpdateClaimStatus(claims, currentUser, claimId, UnderReview, reviewNotes, actor, now, hid);
  }
}
