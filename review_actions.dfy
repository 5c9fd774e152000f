/**
 * What the reviewing controllers share: finding a claim, the guards run
 * before `UpdateStatus`, and carrying out a decision on the store.
 */
module ReviewActions {
  import opened Wrappers
  import opened Time
  import opened Text
  import opened ClaimStatuses
  import opened StatusHistory
  import opened Users
  import opened ClaimLifecycle

  /**
   * How an action ends: `NotFound` is the HTTP 404 result, `Failed` and
   * `Warned` are redirects carrying an error or a warning message,
   * `Ignored` is a redirect that changed nothing, `Applied` ran `UpdateStatus`.
   */
  datatype Outcome = NotFound | Failed | Warned | Ignored | Applied

  /** What an action decides before touching the claim. */
  datatype Decision = Refuse(outcome: Outcome) | Apply(target: Status, notes: Option<string>)

  /** The department of a claim's lecturer; a claim with no lecturer loaded has none. */
  function LecturerDepartment(c: Claim): Option<string> {
    DepartmentOf(c.lecturer)
  }

  /** `FirstOrDefault(c => c.Id == claimId)`. */
  function FindClaim(claims: seq<Claim>, claimId: Guid): (r: Option<Claim>)
    ensures r.Some? ==> r.value in claims && r.value.id == claimId
    ensures r.None? <==> forall c :: c in claims ==> c.id != claimId
  {
    if claims == [] then None
    else if claims[0].id == claimId then Some(claims[0])
    else FindClaim(claims[1..], claimId)
  }

  /** `FirstOrDefault(c => c.Id == claimId && c.Lecturer.Department == department)`. */
  function FindInDepartment(claims: seq<Claim>, claimId: Guid, department: Option<string>): (r: Option<Claim>)
    ensures r.Some? ==> r.value in claims && r.value.id == claimId && LecturerDepartment(r.value) == department
    ensures r.None? <==> forall c :: c in claims ==> !(c.id == claimId && LecturerDepartment(c) == department)
  {
    if claims == [] then None
    else if claims[0].id == claimId && LecturerDepartment(claims[0]) == department then Some(claims[0])
    else FindInDepartment(claims[1..], claimId, department)
  }

  /** A department-scoped lookup finds only what the unscoped lookup could find. */
  lemma {:induction false} ScopedLookupIsNarrower(claims: seq<Claim>, claimId: Guid, department: Option<string>)
    requires FindClaim(claims, claimId).Some?
    requires LecturerDepartment(FindClaim(claims, claimId).value) == department
    ensures FindInDepartment(claims, claimId, department) == FindClaim(claims, claimId)
  {
    if claims[0].id != claimId {
      ScopedLookupIsNarrower(claims[1..], claimId, department);
    }
  }

  /** The status of the claim a lookup found, if any. */
  function StatusOf(found: Option<Claim>): Option<Status>
    reads if found.Some? then {found.value} else {}
  {
    if found.Some? then Some(found.value.status) else None
  }

  /** Approve: a missing claim gives `missing`, an approved one a warning, any other is approved. */
  function ApproveGuard(current: Option<Status>, notes: Option<string>, missing: Outcome): (d: Decision)
    ensures d.Apply? <==> current.Some? && current.value != Approved
    ensures d.Apply? ==> d == Apply(Approved, notes)
    ensures current == Some(Approved) ==> d == Refuse(Warned)
    ensures current.None? ==> d == Refuse(missing)
  {
    if current.None? then Refuse(missing)
    else if current.value == Approved then Refuse(Warned)
    else Apply(Approved, notes)
  }

  /**
   * Reject: blank notes are refused before anything is looked at; then a
   * missing claim gives `missing`, a rejected one a warning, any other is rejected.
   */
  function RejectGuard(notes: Option<string>, current: Option<Status>, missing: Outcome): (d: Decision)
    ensures IsNullOrWhiteSpace(notes) ==> d == Refuse(Failed)
    ensures d.Apply? <==> !IsNullOrWhiteSpace(notes) && current.Some? && current.value != Rejected
    ensures d.Apply? ==> d == Apply(Rejected, notes)
    ensures !IsNullOrWhiteSpace(notes) && current == Some(Rejected) ==> d == Refuse(Warned)
    ensures !IsNullOrWhiteSpace(notes) && current.None? ==> d == Refuse(missing)
  {
    if IsNullOrWhiteSpace(notes) then Refuse(Failed)
    else if current.None? then Refuse(missing)
    else if current.value == Rejected then Refuse(Warned)
    else Apply(Rejected, notes)
  }

  /** No guard beyond the lookup: any found claim moves to the target, whatever its status. */
  function UnguardedUpdate(current: Option<Status>, target: Status, notes: Option<string>, missing: Outcome): (d: Decision)
    ensures d.Apply? <==> current.Some?
    ensures d.Apply? ==> d == Apply(target, notes)
    ensures d.Refuse? ==> d.outcome == missing
  {
    if current.None? then Refuse(missing) else Apply(target, notes)
  }

  /** The notes guard ignores the claim entirely: blank notes refuse every claim the same way. */
  lemma BlankNotesIgnoreLookup(notes: Option<string>, a: Option<Status>, b: Option<Status>, m1: Outcome, m2: Outcome)
    requires IsNullOrWhiteSpace(notes)
    ensures RejectGuard(notes, a, m1) == RejectGuard(notes, b, m2) == Refuse(Failed)
  {
  }

  /** A form that passes `ApprovalViewModel` validation always passes the notes guard. */
  lemma ValidNotesPassGuard(notes: Option<string>, current: Option<Status>, missing: Outcome)
    requires notes.Some? && exists i :: 0 <= i < |notes.value| && !IsWhiteSpace(notes.value[i])
    ensures RejectGuard(notes, current, missing) != Refuse(Failed) || (current.None? && missing == Failed)
  {
  }

  /** Approving twice changes nothing the second time: the guard sees the first approval. */
  lemma ApproveIsIdempotent(c: ClaimState, notes: Option<string>, actor: Option<string>, now: Ticks, hid: Guid, missing: Outcome)
    requires ApproveGuard(Some(c.status), notes, missing).Apply?
    ensures var c1 := Transition(c, Approved, notes, actor, now, hid);
      ApproveGuard(Some(c1.status), notes, missing) == Refuse(Warned)
  {
  }

  /**
   * An action's effect on the store: a refusal leaves every claim as it
   * was; an application runs `UpdateStatus` on the found claim alone.
   */
  twostate predicate Effect(claims: seq<Claim>, found: Option<Claim>, d: Decision,
                            actor: Option<string>, now: Ticks, hid: Guid, outcome: Outcome)
    reads set c | c in claims
    reads if found.Some? then {found.value} else {}
  {
    && (d.Refuse? ==> outcome == d.outcome)
    && (d.Apply? ==> outcome == Applied && found.Some?
                     && found.value.State() == Transition(old(found.value.State()), d.target, d.notes, actor, now, hid))
    && (forall c :: c in claims && (d.Refuse? || Some(c) != found) ==> c.State() == old(c.State()))
  }

  /** Every claim whose log explained its status still has one that does. */
  twostate predicate HistoryStillExplains(claims: seq<Claim>)
    reads set c | c in claims
  {
    forall c :: c in claims && old(HistoryExplainsStatus(c.State())) ==> HistoryExplainsStatus(c.State())
  }

  /** Carry out a decision taken over a lookup into the store. */
  method Perform(claims: seq<Claim>, found: Option<Claim>, d: Decision, actor: Option<string>, now: Ticks, hid: Guid)
    returns (outcome: Outcome)
    requires found.Some? ==> found.value in claims
    requires d.Apply? ==> found.Some?
    modifies set c | c in claims
    ensures Effect(claims, found, d, actor, now, hid, outcome)
    ensures HistoryStillExplains(claims)
  {
    if d.Refuse? {
      return d.outcome;
    }
    var claim := found.value;
    ghost var before := claim.State();
    claim.UpdateStatus(d.target, d.notes, actor, now, hid);
    if HistoryExplainsStatus(before) {
      TransitionKeepsHistoryExplaining(before, d.target, d.notes, actor, now, hid);
    }
    outcome := Applied;
  }
}
