/** `HRController`: claim decisions on any claim, and lecturer activation. */
module HumanResources {
  import opened Wrappers
  import opened Time
  import opened Text
  import opened ClaimStatuses
  import opened StatusHistory
  import opened Users
  import opened ClaimLifecycle
  import opened ReviewActions

  method ApproveClaim(claims: seq<Claim>, claimId: Guid, approvalNotes: Option<string>,
                      actor: Option<string>, now: Ticks, hid: Guid) returns (outcome: Outcome)
    modifies set c | c in claims
    ensures Effect(claims, FindClaim(claims, claimId),
                   ApproveGuard(old(StatusOf(FindClaim(claims, claimId))), approvalNotes, Failed),
                   actor, now, hid, outcome)
    ensures HistoryStillExplains(claims)
  {
    var found := FindClaim(claims, claimId);
    outcome := Perform(claims, found, ApproveGuard(StatusOf(found), approvalNotes, Failed), actor, now, hid);
  }

  method RejectClaim(claims: seq<Claim>, claimId: Guid, rejectionNotes: Option<string>,
                     actor: Option<string>, now: Ticks, hid: Guid) returns (outcome: Outcome)
    modifies set c | c in claims
    ensures Effect(claims, FindClaim(claims, claimId),
                   RejectGuard(rejectionNotes, old(StatusOf(FindClaim(claims, claimId))), Failed),
                   actor, now, hid, outcome)
    ensures HistoryStillExplains(claims)
  {
    var found := FindClaim(claims, claimId);
    outcome := Perform(claims, found, RejectGuard(rejectionNotes, StatusOf(found), Failed), actor, now, hid);
  }

  method UpdateClaimStatus(claims: seq<Claim>, claimId: Guid, status: Status, notes: Option<string>,
                           actor: Option<string>, now: Ticks, hid: Guid) returns (outcome: Outcome)
    modifies set c | c in claims
    ensures Effect(claims, FindClaim(claims, claimId),
                   UnguardedUpdate(old(StatusOf(FindClaim(claims, claimId))), status, notes, Failed),
                   actor, now, hid, outcome)
    ensures HistoryStillExplains(claims)
  {
    var found := FindClaim(claims, claimId);
    outcome := Perform(claims, found, UnguardedUpdate(StatusOf(found), status, notes, Failed), actor, now, hid);
  }

  /**
   * The order of `RejectClaim`'s checks: blank notes, then the lookup, then
   * the warning; only a found, not yet rejected claim with notes is rejected.
   */
  lemma RejectCheckOrder(claims: seq<Claim>, claimId: Guid, notes: Option<string>, current: Option<Status>)
    ensures var d := RejectGuard(notes, current, Failed);
      && (IsNullOrWhiteSpace(notes) ==> d == Refuse(Failed))
      && (!IsNullOrWhiteSpace(notes) && current.None? ==> d == Refuse(Failed))
      && (!IsNullOrWhiteSpace(notes) && current == Some(Rejected) ==> d == Refuse(Warned))
      && (d.Apply? <==> !IsNullOrWhiteSpace(notes) && current.Some? && current.value != Rejected)
  {
  }

  /** `Users.FindAsync(id)`: the account with that key. */
  function FindUser(users: seq<ApplicationUser>, id: string): (r: Option<ApplicationUser>)
    ensures r.Some? ==> r.value in users && r.value.id == id
    ensures r.None? <==> forall u :: u in users ==> u.id != id
  {
    if users == [] then None
    else if users[0].id == id then Some(users[0])
    else FindUser(users[1..], id)
  }

  /**
   * `UpdateLecturerStatus`: an empty or unknown id is a 404; otherwise that
   * account's `IsActive` is set and nothing else changes.
   */
  method UpdateLecturerStatus(users: seq<ApplicationUser>, id: Option<string>, isActive: bool) returns (outcome: Outcome)
    modifies set u | u in users
    ensures outcome == NotFound || outcome == Applied
    ensures outcome == NotFound <==> IsNullOrEmpty(id) || FindUser(users, id.value).None?
    ensures outcome == Applied ==> FindUser(users, id.value).value.isActive == isActive
    ensures forall u :: u in users && (outcome == NotFound || u != FindUser(users, id.value).value)
                        ==> u.isActive == old(u.isActive)
  {
    if IsNullOrEmpty(id) {
      return NotFound;
    }
    var lecturer := FindUser(users, id.value);
    if lecturer.None? {
      return NotFound;
    }
    lecturer.value.isActive := isActive;
    outcome := Applied;
  }
}
