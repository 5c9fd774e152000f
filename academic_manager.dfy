/**
 * `AcademicManagerController`: the manager sees every claim; its actions
 * look a claim up by id, run the shared guards and call `UpdateStatus`.
 */
module AcademicManager {
  import opened Wrappers
  import opened Time
  import opened Text
  import opened ClaimStatuses
  import opened StatusHistory
  import opened ClaimLifecycle
  import opened ReviewActions

  /** `ApproveClaim`: unknown id is an error, an approved claim a warning, else approve. */
  method ApproveClaim(claims: seq<Claim>, claimId: Guid, approvalNotes: Option<string>,
                      actor: Option<string>, now: Ticks, hid: Guid) returns (outcome: Outcome)
    modifies set c | c in claims
    ensures Effect(claims, FindClaim(claims, claimId),
                   ApproveGuard(old(StatusOf(FindClaim(claims, claimId))), approvalNotes, Failed),
                   actor, now, hid, outcome)
    ensures HistoryStillExplains(claims)
  {
    var found := FindClaim(claims, claimId);
    outcome := Perform(claims, found, ApproveGuard(StatusOf(found), approvalNotes, Failed), actor, now, hid);
  }

  /** `RejectClaim`: blank notes first, then unknown id, then already rejected, else reject. */
  method RejectClaim(claims: seq<Claim>, claimId: Guid, rejectionNotes: Option<string>,
                     actor: Option<string>, now: Ticks, hid: Guid) returns (outcome: Outcome)
    modifies set c | c in claims
    ensures Effect(claims, FindClaim(claims, claimId),
                   RejectGuard(rejectionNotes, old(StatusOf(FindClaim(claims, claimId))), Failed),
                   actor, now, hid, outcome)
    ensures HistoryStillExplains(claims)
  {
    var found := FindClaim(claims, claimId);
    outcome := Perform(claims, found, RejectGuard(rejectionNotes, StatusOf(found), Failed), actor, now, hid);
  }

  /** `SendForReview`: any found claim moves to UnderReview. */
  method SendForReview(claims: seq<Claim>, claimId: Guid, reviewNotes: Option<string>,
                       actor: Option<string>, now: Ticks, hid: Guid) returns (outcome: Outcome)
    modifies set c | c in claims
    ensures Effect(claims, FindClaim(claims, claimId),
                   UnguardedUpdate(old(StatusOf(FindClaim(claims, claimId))), UnderReview, reviewNotes, Failed),
                   actor, now, hid, outcome)
    ensures HistoryStillExplains(claims)
  {
    var found := FindClaim(claims, claimId);
    outcome := Perform(claims, found, UnguardedUpdate(StatusOf(found), UnderReview, reviewNotes, Failed), actor, now, hid);
  }

  /** `UpdateClaimStatus`: any found claim moves to the requested status. */
  method UpdateClaimStatus(claims: seq<Claim>, claimId: Guid, status: Status, notes: Option<string>,
                           actor: Option<string>, now: Ticks, hid: Guid) returns (outcome: Outcome)
    modifies set c | c in claims
    ensures Effect(claims, FindClaim(claims, claimId),
                   UnguardedUpdate(old(StatusOf(FindClaim(claims, claimId))), status, notes, Failed),
                   actor, now, hid, outcome)
    ensures HistoryStillExplains(claims)
  {
    var found := FindClaim(claims, claimId);
    outcome := Perform(claims, found, UnguardedUpdate(StatusOf(found), status, notes, Failed), actor, now, hid);
  }

  /** String interpolation of a nullable value: null prints as nothing. */
  function Interpolate(prefix: string, value: Option<string>): (r: string)
    ensures StartsWith(r, prefix)
    ensures r[|prefix|..] == value.GetOr("")
  {
    prefix + value.GetOr("")
  }

  const RequestInfoPrefix: string := "Additional information requested: "
  const InformationRequestPrefix: string := "Information requested by Academic Manager: "

  /**
   * The `switch (action)` of `ProcessClaimReview`: an unknown id is a 404;
   * "Approve", "Reject" and "RequestInfo" pick the target; any other action
   * changes nothing.
   */
  function ReviewDispatch(current: Option<Status>, action: Option<string>, reviewNotes: Option<string>): (d: Decision)
    ensures d.Apply? <==> current.Some? && action in {Some("Approve"), Some("Reject"), Some("RequestInfo")}
    ensures d.Refuse? ==> d.outcome == (if current.None? then NotFound else Ignored)
  {
    if current.None? then Refuse(NotFound)
    else if action == Some("Approve") then Apply(Approved, reviewNotes)
    else if action == Some("Reject") then Apply(Rejected, reviewNotes)
    else if action == Some("RequestInfo") then Apply(UnderReview, Some(Interpolate(RequestInfoPrefix, reviewNotes)))
    else Refuse(Ignored)
  }

  /**
   * Each action's target, and the notes it records: as given for Approve
   * and Reject, prefixed for RequestInfo.
   */
  lemma ReviewDispatchTargets(current: Status, action: string, notes: Option<string>)
    ensures var d := ReviewDispatch(Some(current), Some(action), notes);
      && (action == "Approve" ==> d == Apply(Approved, notes))
      && (action == "Reject" ==> d == Apply(Rejected, notes))
      && (action == "RequestInfo" ==>
            d.Apply? && d.target == UnderReview && StartsWith(d.notes.value, RequestInfoPrefix)
            && d.notes.value[|RequestInfoPrefix|..] == notes.GetOr(""))
  {
  }

  /**
   * Unlike `RejectClaim`, the review form's "Reject" needs no notes and
   * has no already-rejected warning.
   */
  lemma ReviewRejectSkipsGuards(current: Status, notes: Option<string>)
    requires IsNullOrWhiteSpace(notes) || current == Rejected
    ensures ReviewDispatch(Some(current), Some("Reject"), notes).Apply?
    ensures RejectGuard(notes, Some(current), Failed).Refuse?
  {
  }

  /** `ProcessClaimReview`. */
  method ProcessClaimReview(claims: seq<Claim>, claimId: Guid, action: Option<string>, reviewNotes: Option<string>,
                            actor: Option<string>, now: Ticks, hid: Guid) returns (outcome: Outcome)
    modifies set c | c in claims
    ensures Effect(claims, FindClaim(claims, claimId),
                   ReviewDispatch(old(StatusOf(FindClaim(claims, claimId))), action, reviewNotes),
                   actor, now, hid, outcome)
    ensures HistoryStillExplains(claims)
  {
    var found := FindClaim(claims, claimId);
    outcome := Perform(claims, found, ReviewDispatch(StatusOf(found), action, reviewNotes), actor, now, hid);
  }

  /** `RequestInformation`: an unknown id is a 404, else UnderReview with the prefixed message. */
  function InformationRequest(current: Option<Status>, message: Option<string>): (d: Decision)
    ensures d.Apply? <==> current.Some?
    ensures d.Refuse? ==> d.outcome == NotFound
    ensures d.Apply? ==> d.target == UnderReview && d.notes.Some?
                         && StartsWith(d.notes.value, InformationRequestPrefix)
                         && d.notes.value[|InformationRequestPrefix|..] == message.GetOr("")
  {
    if current.None? then Refuse(NotFound)
    else Apply(UnderReview, Some(Interpolate(InformationRequestPrefix, message)))
  }

  method RequestInformation(claims: seq<Claim>, id: Guid, message: Option<string>,
                            actor: Option<string>, now: Ticks, hid: Guid) returns (outcome: Outcome)
    modifies set c | c in claims
    ensures Effect(claims, FindClaim(claims, id),
                   InformationRequest(old(StatusOf(FindClaim(claims, id))), message),
                   actor, now, hid, outcome)
    ensures HistoryStillExplains(claims)
  {
    var found := FindClaim(claims, id);
    outcome := Perform(claims, found, InformationRequest(StatusOf(found), message), actor, now, hid);
  }
}
