/**
 * The earlier `ClaimModel`: no review mirror fields and no stored
 * processing days, the actor is called `approvedBy`, and the badge mapping
 * has no arm for Paid.
 */
module LegacyClaim {
  import opened Wrappers
  import opened Time
  import opened Text
  import opened ClaimStatuses
  import opened StatusHistory
  import opened Documents
  import opened Users
  import ClaimLifecycle

  /** Every field of an earlier-variant claim, as one value. */
  datatype LegacyState = LegacyState(
    id: Guid,
    lecturerId: string,
    lecturer: ApplicationUser?,
    month: CalendarDate,
    hoursWorked: real,
    hourlyRate: real,
    totalAmount: real,
    additionalNotes: Option<string>,
    status: Status,
    submissionDate: Ticks,
    approvalDate: Option<Ticks>,
    approvedBy: Option<string>,
    approvalNotes: Option<string>,
    supportingDocuments: seq<SupportingDocument>,
    statusHistory: seq<HistoryRecord>)
  {
    /** `ProcessingTime`: approval date minus submission date, absent until decided. */
    function ProcessingTime(): (r: Option<Ticks>)
      ensures r.Some? <==> approvalDate.Some?
      ensures r.Some? ==> submissionDate + r.value == approvalDate.value
    {
      if approvalDate.Some? then Some(approvalDate.value - submissionDate) else None
    }

    function StatusBadgeClass(): string {
      LegacyBadgeClass(status)
    }
  }

  /** `StatusBadgeClass`: four named arms and a default that Paid falls into. */
  function LegacyBadgeClass(s: Status): string {
    match s
    case Pending => "bg-warning"
    case Approved => "bg-success"
    case Rejected => "bg-danger"
    case UnderReview => "bg-info"
    case _ => "bg-secondary"
  }

  /** Paid shows the default class; the other four agree with the current variant. */
  lemma LegacyBadgeAgreesExceptPaid(s: Status)
    ensures LegacyBadgeClass(s) == "bg-secondary" <==> s == Paid
    ensures s != Paid ==> LegacyBadgeClass(s) == ClaimLifecycle.BadgeClass(s)
    ensures s == Paid ==> LegacyBadgeClass(s) != ClaimLifecycle.BadgeClass(s)
  {
  }

  /**
   * `UpdateStatus` on the claim's value: the status always changes, the
   * approval trio only for Approved and Rejected, and one record is appended.
   */
  function LegacyTransition(c: LegacyState, newStatus: Status, notes: Option<string>, approvedBy: Option<string>,
                            now: Ticks, historyId: Guid): LegacyState
  {
    var actor := Some(OrUnknown(approvedBy));
    var decided := newStatus == Approved || newStatus == Rejected;
    c.(status := newStatus,
       approvalDate := if decided then Some(now) else c.approvalDate,
       approvedBy := if decided then actor else c.approvedBy,
       approvalNotes := if decided then notes else c.approvalNotes,
       statusHistory := c.statusHistory
         + [HistoryRecord(historyId, c.id, c.status, newStatus, now, actor, notes)])
  }

  /** The status becomes the target and one record describing the change is appended. */
  lemma LegacyTransitionAppendsOneRecord(c: LegacyState, t: Status, notes: Option<string>, actor: Option<string>, now: Ticks, hid: Guid)
    ensures var r := LegacyTransition(c, t, notes, actor, now, hid);
      var h := r.statusHistory;
      && r.status == t
      && |h| == |c.statusHistory| + 1
      && h[..|c.statusHistory|] == c.statusHistory
      && h[|h| - 1].oldStatus == c.status && h[|h| - 1].newStatus == t
      && h[|h| - 1].changeNotes == notes && h[|h| - 1].changedDate == now
      && h[|h| - 1].claimId == c.id
  {
  }

  /** The approval trio is written for Approved and Rejected only; the actor falls back to "Unknown". */
  lemma LegacyTransitionApprovalFields(c: LegacyState, t: Status, notes: Option<string>, actor: Option<string>, now: Ticks, hid: Guid)
    ensures var r := LegacyTransition(c, t, notes, actor, now, hid);
      && (if t == Approved || t == Rejected then
            r.approvalDate == Some(now) && r.approvedBy == Some(OrUnknown(actor)) && r.approvalNotes == notes
          else
            r.approvalDate == c.approvalDate && r.approvedBy == c.approvedBy && r.approvalNotes == c.approvalNotes)
      && r.statusHistory[|r.statusHistory| - 1].changedBy == Some(OrUnknown(actor))
      && (actor.None? ==> r.statusHistory[|r.statusHistory| - 1].changedBy == Some("Unknown"))
  {
  }

  /** Apart from the status, the approval trio and the log, nothing changes. */
  lemma LegacyTransitionFrame(c: LegacyState, t: Status, notes: Option<string>, actor: Option<string>, now: Ticks, hid: Guid)
    ensures var r := LegacyTransition(c, t, notes, actor, now, hid);
      r.(status := c.status, approvalDate := c.approvalDate, approvedBy := c.approvedBy,
         approvalNotes := c.approvalNotes, statusHistory := c.statusHistory) == c
  {
  }

  /** The log keeps explaining the status across every update. */
  lemma LegacyTransitionKeepsHistoryExplaining(c: LegacyState, t: Status, notes: Option<string>, actor: Option<string>, now: Ticks, hid: Guid)
    requires Explains(c.statusHistory, Pending, c.status)
    ensures var r := LegacyTransition(c, t, notes, actor, now, hid);
      Explains(r.statusHistory, Pending, r.status)
  {
    ExplainsAppend(c.statusHistory, Pending, c.status,
                   HistoryRecord(hid, c.id, c.status, t, now, Some(OrUnknown(actor)), notes));
  }

  /** `CalculateTotalAmount` on the claim's value. */
  function LegacyWithCalculatedTotal(c: LegacyState): (r: LegacyState)
    ensures r.totalAmount == c.hoursWorked * c.hourlyRate
    ensures r.(totalAmount := c.totalAmount) == c
  {
    c.(totalAmount := c.hoursWorked * c.hourlyRate)
  }

  /** An earlier-variant claim entity. */
  class Claim {
    const id: Guid
    const lecturerId: string
    const lecturer: ApplicationUser?
    const month: CalendarDate
    var hoursWorked: real
    var hourlyRate: real
    var totalAmount: real
    const additionalNotes: Option<string>
    var status: Status
    const submissionDate: Ticks
    var approvalDate: Option<Ticks>
    var approvedBy: Option<string>
    var approvalNotes: Option<string>
    var supportingDocuments: seq<SupportingDocument>
    var statusHistory: seq<HistoryRecord>

    function State(): LegacyState
      reads this
    {
      LegacyState(id, lecturerId, lecturer, month, hoursWorked, hourlyRate, totalAmount, additionalNotes,
                  status, submissionDate, approvalDate, approvedBy, approvalNotes, supportingDocuments, statusHistory)
    }

    /** A new claim; Status and SubmissionDate take their initialisers' values, lists start empty. */
    constructor (id: Guid, lecturerId: string, lecturer: ApplicationUser?, month: CalendarDate,
                 hoursWorked: real, hourlyRate: real, totalAmount: real, additionalNotes: Option<string>,
                 status: Status, now: Ticks)
      ensures State() == LegacyState(id, lecturerId, lecturer, month, hoursWorked, hourlyRate, totalAmount,
                                     additionalNotes, status, now, None, None, None, [], [])
    {
      this.id := id;
      this.lecturerId := lecturerId;
      this.lecturer := lecturer;
      this.month := month;
      this.hoursWorked := hoursWorked;
      this.hourlyRate := hourlyRate;
      this.totalAmount := totalAmount;
      this.additionalNotes := additionalNotes;
      this.status := status;
      submissionDate := now;
      approvalDate := None;
      approvedBy := None;
      approvalNotes := None;
      supportingDocuments := [];
      statusHistory := [];
    }

    /** `CalculateTotalAmount`: total becomes hours times rate; no other field changes. */
    method CalculateTotalAmount()
      modifies this
      ensures State() == LegacyWithCalculatedTotal(old(State()))
    {
      totalAmount := hoursWorked * hourlyRate;
    }

    /** `UpdateStatus`, with the clock reading and the new record's id as parameters. */
    method UpdateStatus(newStatus: Status, notes: Option<string>, approvedBy: Option<string>, now: Ticks, historyId: Guid)
      modifies this
      ensures State() == LegacyTransition(old(State()), newStatus, notes, approvedBy, now, historyId)
    {
      var oldStatus := status;
      status := newStatus;
      if newStatus == Approved || newStatus == Rejected {
        approvalDate := Some(now);
        this.approvedBy := Some(OrUnknown(approvedBy));
        approvalNotes := notes;
      }
      statusHistory := statusHistory
        + [HistoryRecord(historyId, id, oldStatus, newStatus, now, Some(OrUnknown(approvedBy)), notes)];
    }

    /** The append in `UploadDocument`: the document joins the end of the list. */
    method AddDocument(doc: SupportingDocument)
      modifies this
      ensures State() == old(State()).(supportingDocuments := old(supportingDocuments) + [doc])
    {
      supportingDocuments := supportingDocuments + [doc];
    }
  }
}
