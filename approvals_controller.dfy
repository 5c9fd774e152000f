/**
 * `ApprovalsController`: approves and rejects by writing the claim's
 * fields directly, without `UpdateStatus`, so no history record is added.
 */
module Approvals {
  import opened Wrappers
  import opened Time
  import opened Text
  import opened ClaimStatuses
  import opened StatusHistory
  import opened ClaimLifecycle
  import opened ReviewActions
  import opened ClaimQueries

  /** The four direct writes of `Approve` and `Reject`. */
  function DirectDecision(c: ClaimState, target: Status, notes: Option<string>, actor: Option<string>, now: Ticks)
    : (r: ClaimState)
    ensures r.status == target && r.approvalDate == Some(now)
    ensures r.approvedBy == Some(OrUnknown(actor)) && r.approvalNotes == notes
    ensures r.(status := c.status, approvalDate := c.approvalDate, approvedBy := c.approvedBy,
               approvalNotes := c.approvalNotes) == c
  {
    c.(status := target, approvalDate := Some(now), approvedBy := Some(OrUnknown(actor)), approvalNotes := notes)
  }

  /**
   * A direct write leaves the log explaining the status only when the
   * status does not actually change: any real change goes unrecorded.
   */
  lemma DirectDecisionBreaksHistory(c: ClaimState, target: Status, notes: Option<string>, actor: Option<string>, now: Ticks)
    requires HistoryExplainsStatus(c)
    ensures HistoryExplainsStatus(DirectDecision(c, target, notes, actor, now)) <==> target == c.status
  {
    var r := DirectDecision(c, target, notes, actor, now);
    if target != c.status {
      if c.statusHistory == [] {
        assert c.status == Pending;
      } else {
        assert c.statusHistory[|c.statusHistory| - 1].newStatus == c.status;
      }
    }
  }

  /**
   * What `UpdateStatus` would have done and the direct write does not: no
   * record, no last-update date, no review mirror, no stored processing days.
   */
  lemma DirectDecisionSkipsBookkeeping(c: ClaimState, notes: Option<string>, actor: Option<string>, now: Ticks, hid: Guid)
    ensures var direct := DirectDecision(c, Approved, notes, actor, now);
      var updated := Transition(c, Approved, notes, actor, now, hid);
      && direct.status == updated.status && direct.approvalDate == updated.approvalDate
      && direct.approvedBy == updated.approvedBy && direct.approvalNotes == updated.approvalNotes
      && |direct.statusHistory| + 1 == |updated.statusHistory|
      && direct.lastStatusUpdateDate == c.lastStatusUpdateDate
      && direct.storedProcessingDays == c.storedProcessingDays
      && direct.reviewedBy == c.reviewedBy
  {
  }

  /** Write the four fields on the claim object. */
  method WriteDecision(claim: Claim, target: Status, notes: Option<string>, actor: Option<string>, now: Ticks)
    modifies claim
    ensures claim.State() == DirectDecision(old(claim.State()), target, notes, actor, now)
  {
    claim.status := target;
    claim.approvalDate := Some(now);
    claim.approvedBy := Some(OrUnknown(actor));
    claim.approvalNotes := notes;
  }

  /** `Approve`: an unknown id is a 404; there is no already-approved guard. */
  method Approve(claims: seq<Claim>, id: Guid, approvalNotes: Option<string>, actor: Option<string>, now: Ticks)
    returns (outcome: Outcome)
    modifies set c | c in claims
    ensures outcome == NotFound <==> FindClaim(claims, id).None?
    ensures outcome == NotFound || outcome == Applied
    ensures outcome == Applied ==>
      var c := FindClaim(claims, id).value;
      c.State() == DirectDecision(old(c.State()), Approved, approvalNotes, actor, now)
    ensures forall c :: c in claims && Some(c) != FindClaim(claims, id) ==> c.State() == old(c.State())
  {
    var found := FindClaim(claims, id);
    if found.None? {
      return NotFound;
    }
    WriteDecision(found.value, Approved, approvalNotes, actor, now);
    outcome := Applied;
  }

  /** `Reject`: the rejection reason is stored as the approval notes. */
  method Reject(claims: seq<Claim>, id: Guid, rejectionReason: Option<string>, actor: Option<string>, now: Ticks)
    returns (outcome: Outcome)
    modifies set c | c in claims
    ensures outcome == NotFound <==> FindClaim(claims, id).None?
    ensures outcome == NotFound || outcome == Applied
    ensures outcome == Applied ==>
      var c := FindClaim(claims, id).value;
      c.State() == DirectDecision(old(c.State()), Rejected, rejectionReason, actor, now)
    ensures forall c :: c in claims && Some(c) != FindClaim(claims, id) ==> c.State() == old(c.State())
  {
    var found := FindClaim(claims, id);
    if found.None? {
      return NotFound;
    }
    WriteDecision(found.value, Rejected, rejectionReason, actor, now);
    outcome := Applied;
  }

  /** The three writes of one `BulkApprove` iteration; the notes are not touched. */
  function BulkWrite(c: ClaimState, actor: Option<string>, now: Ticks): (r: ClaimState)
    ensures r.status == Approved && r.approvalDate == Some(now) && r.approvedBy == Some(OrUnknown(actor))
    ensures r.(status := c.status, approvalDate := c.approvalDate, approvedBy := c.approvedBy) == c
  {
    c.(status := Approved, approvalDate := Some(now), approvedBy := Some(OrUnknown(actor)))
  }

  /** Writing twice with the same clock reading is writing once. */
  lemma BulkWriteIdempotent(c: ClaimState, actor: Option<string>, now: Ticks)
    ensures BulkWrite(BulkWrite(c, actor, now), actor, now) == BulkWrite(c, actor, now)
  {
  }

  /** The test `c => claimIds.Contains(c.Id)`. */
  function NamedIn(ids: seq<Guid>): (keep: Claim -> bool)
  {
    (c: Claim) => c.id in ids
  }

  /**
   * `Where(c => claimIds.Contains(c.Id))`: the claims named in the list,
   * in store order, each as often as the store holds it.
   */
  function Matching(claims: seq<Claim>, ids: seq<Guid>): (r: seq<Claim>)
    ensures |r| <= |claims| && multiset(r) <= multiset(claims)
    ensures forall c :: c in r ==> c in claims && c.id in ids
    ensures forall c :: c in claims ==> multiset(r)[c] == if c.id in ids then multiset(claims)[c] else 0
  {
    Where(claims, NamedIn(ids))
  }

  /** Ids that name no claim add nothing to the match. */
  lemma UnknownIdsIgnored(claims: seq<Claim>, ids: seq<Guid>, extra: Guid)
    requires forall c :: c in claims ==> c.id != extra
    ensures Matching(claims, ids + [extra]) == Matching(claims, ids)
  {
    forall c | c in claims
      ensures NamedIn(ids + [extra])(c) == NamedIn(ids)(c)
    {
      assert c.id in ids + [extra] <==> c.id in ids;
    }
    WhereAgrees(claims, NamedIn(ids + [extra]), NamedIn(ids));
  }

  /** One iteration of the `BulkApprove` loop. */
  method ApproveOne(claim: Claim, actor: Option<string>, now: Ticks)
    modifies claim
    ensures claim.State() == BulkWrite(old(claim.State()), actor, now)
  {
    claim.status := Approved;
    claim.approvalDate := Some(now);
    claim.approvedBy := Some(OrUnknown(actor));
  }

  /**
   * `BulkApprove`: a null or empty list changes nothing and reports
   * nothing; otherwise every matched claim gets the three writes and the
   * count reported is the number matched.
   */
  method BulkApprove(claims: seq<Claim>, claimIds: Option<seq<Guid>>, actor: Option<string>, now: Ticks)
    returns (count: Option<nat>)
    modifies set c | c in claims
    ensures count.None? <==> claimIds.None? || claimIds.value == []
    ensures count.Some? ==> count.value == |Matching(claims, claimIds.value)|
    ensures forall c :: c in claims ==>
      if count.Some? && c.id in claimIds.value then c.State() == BulkWrite(old(c.State()), actor, now)
      else c.State() == old(c.State())
  {
    if claimIds.None? || claimIds.value == [] {
      return None;
    }
    var matched := Matching(claims, claimIds.value);
    ApproveEach(claims, matched, claimIds.value, actor, now);
    count := Some(|matched|);
  }

  /** The `foreach` of `BulkApprove` over the matched claims. */
  method ApproveEach(claims: seq<Claim>, matched: seq<Claim>, ids: seq<Guid>, actor: Option<string>, now: Ticks)
    requires forall c :: c in matched ==> c in claims && c.id in ids
    requires forall c :: c in claims && c.id in ids ==> c in matched
    modifies set c | c in claims
    ensures forall c :: c in claims ==>
      if c.id in ids then c.State() == BulkWrite(old(c.State()), actor, now)
      else c.State() == old(c.State())
  {
    ghost var done: set<Claim> := {};
    var i := 0;
    while i < |matched|
      invariant 0 <= i <= |matched|
      invariant forall j :: 0 <= j < i ==> matched[j] in done
      invariant forall c :: c in done ==> c.id in ids
      invariant forall c :: c in claims ==>
        if c in done then c.State() == BulkWrite(old(c.State()), actor, now)
        else c.State() == old(c.State())
    {
      var claim := matched[i];
      ApproveOne(claim, actor, now);
      done := done + {claim};
      i := i + 1;
    }
  }
}
