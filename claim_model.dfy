/**
 * `ClaimModel` (current variant): a lecturer's monthly claim, its status
 * lifecycle and the audit trail every status update appends to.
 */
module ClaimLifecycle {
  import opened Wrappers
  import opened Time
  import opened Text
  import opened ClaimStatuses
  import opened StatusHistory
  import opened Documents
  import opened Users

  /** Every field of a claim, as one value. */
  datatype ClaimState = ClaimState(
    id: Guid,
    lecturerId: string,
    lecturer: ApplicationUser?,
    month: CalendarDate,
    hoursWorked: real,
    hourlyRate: real,
    totalAmount: real,
    additionalNotes: Option<string>,
    status: Status,
    submissionDate: Ticks,
    approvalDate: Option<Ticks>,
    lastStatusUpdateDate: Option<Ticks>,
    reviewedBy: Option<string>,
    reviewNotes: Option<string>,
    approvedBy: Option<string>,
    approvalNotes: Option<string>,
    supportingDocuments: seq<SupportingDocument>,
    statusHistory: seq<HistoryRecord>,
    storedProcessingDays: Option<int>)
  {
    /** `ProcessingTime`: approval date minus submission date, absent until decided. */
    function ProcessingTime(): (r: Option<Ticks>)
      ensures r.Some? <==> approvalDate.Some?
      ensures r.Some? ==> submissionDate + r.value == approvalDate.value
    {
      if approvalDate.Some? then Some(approvalDate.value - submissionDate) else None
    }

    /** `CalculatedProcessingDays`: whole days to the decision, for approved claims only. */
    function CalculatedProcessingDays(): (r: Option<int>)
      ensures r.Some? <==> status == Approved && approvalDate.Some?
      ensures r.Some? ==> r.value == WholeDays(ProcessingTime().value)
    {
      if status == Approved && approvalDate.Some? then Some(WholeDays(approvalDate.value - submissionDate))
      else None
    }

    function StatusBadgeClass(): string {
      BadgeClass(status)
    }
  }

  /** `StatusBadgeClass` on a named status. */
  function BadgeClass(s: Status): string {
    match s
    case Pending => "bg-warning"
    case Approved => "bg-success"
    case Rejected => "bg-danger"
    case UnderReview => "bg-info"
    case Paid => "bg-primary"
  }

  /**
   * `StatusBadgeClass` on the enumeration's underlying value: a value with
   * no named member falls to the default arm.
   */
  function BadgeClassOfCode(code: int): (r: string)
    ensures FromCode(code).Some? ==> r == BadgeClass(FromCode(code).value)
  {
    match FromCode(code)
    case Some(s) => BadgeClass(s)
    case None => "bg-secondary"
  }

  /** Each named status has its own class, and none of them is the default. */
  lemma BadgeClassDistinct(a: Status, b: Status)
    ensures BadgeClass(a) == BadgeClass(b) <==> a == b
    ensures BadgeClass(a) != "bg-secondary"
  {
  }

  lemma BadgeClassDefault(code: int)
    ensures BadgeClassOfCode(code) == "bg-secondary" <==> !(0 <= code < 5)
  {
  }

  /**
   * `UpdateStatus` on the claim's value: any target is accepted; the status,
   * last-update date and review mirror fields always change; the approval
   * trio only for Approved and Rejected; the stored processing days only for
   * Approved; one history record is appended.
   */
  function Transition(c: ClaimState, newStatus: Status, notes: Option<string>, reviewedBy: Option<string>,
                      now: Ticks, historyId: Guid): ClaimState
  {
    var actor := Some(OrUnknown(reviewedBy));
    var decided := newStatus == Approved || newStatus == Rejected;
    c.(status := newStatus,
       lastStatusUpdateDate := Some(now),
       reviewedBy := actor,
       reviewNotes := notes,
       approvalDate := if decided then Some(now) else c.approvalDate,
       approvedBy := if decided then actor else c.approvedBy,
       approvalNotes := if decided then notes else c.approvalNotes,
       storedProcessingDays := if newStatus == Approved then Some(WholeDays(now - c.submissionDate))
                               else c.storedProcessingDays,
       statusHistory := c.statusHistory
         + [HistoryRecord(historyId, c.id, c.status, newStatus, now, actor, notes)])
  }

  /** No target is refused, the same one included. */
  lemma TransitionAcceptsAnyTarget(c: ClaimState, t: Status, notes: Option<string>, actor: Option<string>, now: Ticks, hid: Guid)
    ensures var r := Transition(c, t, notes, actor, now, hid);
      r.status == t && r.lastStatusUpdateDate == Some(now)
  {
  }

  /** Exactly one record is appended, describing this change; earlier records are kept in order. */
  lemma TransitionAppendsOneRecord(c: ClaimState, t: Status, notes: Option<string>, actor: Option<string>, now: Ticks, hid: Guid)
    ensures var r := Transition(c, t, notes, actor, now, hid);
      var h := r.statusHistory;
      && |h| == |c.statusHistory| + 1
      && h[..|c.statusHistory|] == c.statusHistory
      && h[|h| - 1].oldStatus == c.status && h[|h| - 1].newStatus == t
      && h[|h| - 1].changeNotes == notes && h[|h| - 1].changedDate == now
      && h[|h| - 1].claimId == c.id && h[|h| - 1].id == hid
  {
  }

  /** `ReviewedBy`, `ApprovedBy` when written and the record's author are all the actor or "Unknown". */
  lemma TransitionRecordsActor(c: ClaimState, t: Status, notes: Option<string>, actor: Option<string>, now: Ticks, hid: Guid)
    ensures var r := Transition(c, t, notes, actor, now, hid);
      && r.reviewedBy == Some(OrUnknown(actor))
      && r.statusHistory[|r.statusHistory| - 1].changedBy == Some(OrUnknown(actor))
      && r.reviewNotes == notes
      && (t == Approved || t == Rejected ==> r.approvedBy == Some(OrUnknown(actor)))
  {
  }

  /** The approval trio is written for Approved and Rejected and left as it was otherwise. */
  lemma TransitionApprovalFields(c: ClaimState, t: Status, notes: Option<string>, actor: Option<string>, now: Ticks, hid: Guid)
    ensures var r := Transition(c, t, notes, actor, now, hid);
      if t == Approved || t == Rejected then
        r.approvalDate == Some(now) && r.approvedBy == Some(OrUnknown(actor)) && r.approvalNotes == notes
      else
        r.approvalDate == c.approvalDate && r.approvedBy == c.approvedBy && r.approvalNotes == c.approvalNotes
  {
  }

  /** Stored processing days: whole days since submission on Approved, unchanged otherwise. */
  lemma TransitionStoredDays(c: ClaimState, t: Status, notes: Option<string>, actor: Option<string>, now: Ticks, hid: Guid)
    ensures var r := Transition(c, t, notes, actor, now, hid);
      if t == Approved then
        r.storedProcessingDays == Some(WholeDays(now - c.submissionDate))
        && r.storedProcessingDays == r.CalculatedProcessingDays()
      else r.storedProcessingDays == c.storedProcessingDays
  {
  }

  /** Nothing outside the status, the review and approval mirrors, the processing days and the log changes. */
  lemma TransitionFrame(c: ClaimState, t: Status, notes: Option<string>, actor: Option<string>, now: Ticks, hid: Guid)
    ensures var r := Transition(c, t, notes, actor, now, hid);
      r.(status := c.status, lastStatusUpdateDate := c.lastStatusUpdateDate,
         reviewedBy := c.reviewedBy, reviewNotes := c.reviewNotes,
         approvalDate := c.approvalDate, approvedBy := c.approvedBy, approvalNotes := c.approvalNotes,
         storedProcessingDays := c.storedProcessingDays, statusHistory := c.statusHistory) == c
  {
  }

  /** A status update's arguments. */
  datatype StatusUpdate = StatusUpdate(newStatus: Status, notes: Option<string>, reviewedBy: Option<string>,
                                       now: Ticks, historyId: Guid)

  /** A claim after a series of status updates, applied in order. */
  function Run(c: ClaimState, updates: seq<StatusUpdate>): ClaimState
    decreases |updates|
  {
    if updates == [] then c
    else
      var u := updates[0];
      Run(Transition(c, u.newStatus, u.notes, u.reviewedBy, u.now, u.historyId), updates[1..])
  }

  /** The status a claim that started in `start` has just before update `k`. */
  function StatusBefore(start: Status, updates: seq<StatusUpdate>, k: nat): Status
    requires k <= |updates|
  {
    if k == 0 then start else updates[k - 1].newStatus
  }

  /**
   * After N updates the log holds exactly N more records, the old ones
   * untouched, and record k describes update k: from the status before it
   * to its target, with its notes and time.
   */
  lemma {:induction false} RunHistory(c: ClaimState, updates: seq<StatusUpdate>)
    ensures var r := Run(c, updates); var n := |c.statusHistory|;
      && |r.statusHistory| == n + |updates|
      && r.statusHistory[..n] == c.statusHistory
      && (forall k :: 0 <= k < |updates| ==>
            && r.statusHistory[n + k].newStatus == updates[k].newStatus
            && r.statusHistory[n + k].oldStatus == StatusBefore(c.status, updates, k)
            && r.statusHistory[n + k].changeNotes == updates[k].notes
            && r.statusHistory[n + k].changedDate == updates[k].now)
      && (updates != [] ==> r.status == updates[|updates| - 1].newStatus)
      && (updates == [] ==> r == c)
    decreases |updates|
  {
    if updates != [] {
      var u := updates[0];
      var c1 := Transition(c, u.newStatus, u.notes, u.reviewedBy, u.now, u.historyId);
      RunHistory(c1, updates[1..]);
      var r := Run(c, updates);
      var n := |c.statusHistory|;
      assert r == Run(c1, updates[1..]);
      assert r.statusHistory[..n + 1] == c1.statusHistory by {
        assert r.statusHistory[..n + 1] == r.statusHistory[..|c1.statusHistory|];
      }
      assert r.statusHistory[..n] == r.statusHistory[..n + 1][..n];
      forall k | 0 <= k < |updates|
        ensures r.statusHistory[n + k].newStatus == updates[k].newStatus
        ensures r.statusHistory[n + k].oldStatus == StatusBefore(c.status, updates, k)
        ensures r.statusHistory[n + k].changeNotes == updates[k].notes
        ensures r.statusHistory[n + k].changedDate == updates[k].now
      {
        if k == 0 {
          assert r.statusHistory[n] == r.statusHistory[..n + 1][n] == c1.statusHistory[n];
        } else {
          assert updates[1..][k - 1] == updates[k];
          assert StatusBefore(c1.status, updates[1..], k - 1) == StatusBefore(c.status, updates, k);
        }
      }
    }
  }

  /** The log, read from Pending, explains the claim's current status. */
  predicate HistoryExplainsStatus(c: ClaimState) {
    Explains(c.statusHistory, Pending, c.status)
  }

  /** Every status update keeps the log explaining the status. */
  lemma TransitionKeepsHistoryExplaining(c: ClaimState, t: Status, notes: Option<string>, actor: Option<string>, now: Ticks, hid: Guid)
    requires HistoryExplainsStatus(c)
    ensures HistoryExplainsStatus(Transition(c, t, notes, actor, now, hid))
  {
    ExplainsAppend(c.statusHistory, Pending, c.status,
                   HistoryRecord(hid, c.id, c.status, t, now, Some(OrUnknown(actor)), notes));
  }

  lemma {:induction false} RunKeepsHistoryExplaining(c: ClaimState, updates: seq<StatusUpdate>)
    requires HistoryExplainsStatus(c)
    ensures HistoryExplainsStatus(Run(c, updates))
    decreases |updates|
  {
    if updates != [] {
      var u := updates[0];
      TransitionKeepsHistoryExplaining(c, u.newStatus, u.notes, u.reviewedBy, u.now, u.historyId);
      RunKeepsHistoryExplaining(Transition(c, u.newStatus, u.notes, u.reviewedBy, u.now, u.historyId), updates[1..]);
    }
  }

  /**
   * The approval date is not cleared by a later move back to Pending or
   * UnderReview: after Approved then UnderReview the claim is UnderReview
   * and still carries the approval date.
   */
  lemma ApprovalDateSurvivesReopening(c: ClaimState, t1: Ticks, t2: Ticks, back: Status,
                                      notes1: Option<string>, notes2: Option<string>, actor: Option<string>, h1: Guid, h2: Guid)
    requires back == Pending || back == UnderReview
    ensures var r := Transition(Transition(c, Approved, notes1, actor, t1, h1), back, notes2, actor, t2, h2);
      r.status == back && r.approvalDate == Some(t1)
  {
  }

  /** The same target twice is recorded twice; the second record goes from Approved to Approved. */
  lemma RepeatedApprovalIsRecordedTwice(c: ClaimState, t1: Ticks, t2: Ticks, actor: Option<string>, h1: Guid, h2: Guid)
    ensures var r := Transition(Transition(c, Approved, None, actor, t1, h1), Approved, None, actor, t2, h2);
      && |r.statusHistory| == |c.statusHistory| + 2
      && r.statusHistory[|r.statusHistory| - 1].oldStatus == Approved
      && r.statusHistory[|r.statusHistory| - 1].newStatus == Approved
      && r.approvalDate == Some(t2)
  {
  }

  /** `CalculateTotalAmount` on the claim's value. */
  function WithCalculatedTotal(c: ClaimState): (r: ClaimState)
    ensures r.totalAmount == c.hoursWorked * c.hourlyRate
    ensures r.(totalAmount := c.totalAmount) == c
  {
    c.(totalAmount := c.hoursWorked * c.hourlyRate)
  }

  /** A claim entity; its fields are updated in place by the two methods below. */
  class Claim {
    const id: Guid
    const lecturerId: string
    const lecturer: ApplicationUser?
    const month: CalendarDate
    var hoursWorked: real
    var hourlyRate: real
    var totalAmount: real
    const additionalNotes: Option<string>
    var status: Status
    const submissionDate: Ticks
    var approvalDate: Option<Ticks>
    var lastStatusUpdateDate: Option<Ticks>
    var reviewedBy: Option<string>
    var reviewNotes: Option<string>
    var approvedBy: Option<string>
    var approvalNotes: Option<string>
    var supportingDocuments: seq<SupportingDocument>
    var statusHistory: seq<HistoryRecord>
    var storedProcessingDays: Option<int>

    function State(): ClaimState
      reads this
    {
      ClaimState(id, lecturerId, lecturer, month, hoursWorked, hourlyRate, totalAmount, additionalNotes,
                 status, submissionDate, approvalDate, lastStatusUpdateDate, reviewedBy, reviewNotes,
                 approvedBy, approvalNotes, supportingDocuments, statusHistory, storedProcessingDays)
    }

    /** A new claim with the property initialisers' defaults: Pending, no decision, empty lists. */
    constructor (id: Guid, lecturerId: string, lecturer: ApplicationUser?, month: CalendarDate,
                 hoursWorked: real, hourlyRate: real, additionalNotes: Option<string>, now: Ticks)
      ensures State() == ClaimState(id, lecturerId, lecturer, month, hoursWorked, hourlyRate, 0.0,
                                    additionalNotes, Pending, now, None, None, None, None, None, None,
                                    [], [], None)
      ensures HistoryExplainsStatus(State())
    {
      this.id := id;
      this.lecturerId := lecturerId;
      this.lecturer := lecturer;
      this.month := month;
      this.hoursWorked := hoursWorked;
      this.hourlyRate := hourlyRate;
      totalAmount := 0.0;
      this.additionalNotes := additionalNotes;
      status := Pending;
      submissionDate := now;
      approvalDate := None;
      lastStatusUpdateDate := None;
      reviewedBy := None;
      reviewNotes := None;
      approvedBy := None;
      approvalNotes := None;
      supportingDocuments := [];
      statusHistory := [];
      storedProcessingDays := None;
    }

    /** `CalculateTotalAmount`: total becomes hours times rate; no other field changes. */
    method CalculateTotalAmount()
      modifies this
      ensures State() == WithCalculatedTotal(old(State()))
      ensures totalAmount == hoursWorked * hourlyRate
    {
      totalAmount := hoursWorked * hourlyRate;
    }

    /** `UpdateStatus`, with the clock reading and the new record's id as parameters. */
    method UpdateStatus(newStatus: Status, notes: Option<string>, reviewedBy: Option<string>, now: Ticks, historyId: Guid)
      modifies this
      ensures State() == Transition(old(State()), newStatus, notes, reviewedBy, now, historyId)
      ensures status == newStatus
      ensures statusHistory == old(statusHistory)
        + [HistoryRecord(historyId, id, old(status), newStatus, now, Some(OrUnknown(reviewedBy)), notes)]
    {
      var oldStatus := status;
      status := newStatus;
      lastStatusUpdateDate := Some(now);
      this.reviewedBy := Some(OrUnknown(reviewedBy));
      reviewNotes := notes;
      if newStatus == Approved || newStatus == Rejected {
        approvalDate := Some(now);
        approvedBy := Some(OrUnknown(reviewedBy));
        approvalNotes := notes;
        if newStatus == Approved {
          storedProcessingDays := Some(WholeDays(now - submissionDate));
        }
      }
      statusHistory := statusHistory
        + [HistoryRecord(historyId, id, oldStatus, newStatus, now, Some(OrUnknown(reviewedBy)), notes)];
    }
  }
}
