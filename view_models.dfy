/** The claim submission and approval forms, with their validation bounds. */
module ViewModels {
  import opened Wrappers
  import opened Time
  import opened Text
  import opened Documents

  const MinHours: real := 0.1
  const MaxHours: real := 200.0
  const MinRate: real := 50.0
  const MaxRate: real := 1000.0
  const MaxAdditionalNotes: nat := 1000
  const MaxApprovalNotes: nat := 500

  /** `ClaimViewModel`: what a lecturer submits. */
  datatype ClaimViewModel = ClaimViewModel(
    month: CalendarDate,
    hoursWorked: real,
    hourlyRate: real,
    additionalNotes: Option<string>,
    supportingDocument: Option<Upload>)
  {
    /** The computed `TotalAmount` shown on the form. */
    function TotalAmount(): real {
      hoursWorked * hourlyRate
    }

    /** The `Range` and `StringLength` annotations, all inclusive. */
    predicate HoursValid() {
      MinHours <= hoursWorked <= MaxHours
    }

    predicate RateValid() {
      MinRate <= hourlyRate <= MaxRate
    }

    predicate NotesValid() {
      additionalNotes.None? || |additionalNotes.value| <= MaxAdditionalNotes
    }

    /** Model validation succeeds: every annotation holds. */
    predicate IsValid() {
      HoursValid() && RateValid() && NotesValid()
    }
  }

  /** The `Month` initialiser: the first day of the current month. */
  function DefaultMonth(today: CalendarDate): (m: CalendarDate)
    ensures m.year == today.year && m.month == today.month && m.day == 1
  {
    CalendarDate(today.year, today.month, 1)
  }

  /** A form as first built: default month, zero hours and rate, nothing else. */
  function NewClaimForm(today: CalendarDate): ClaimViewModel {
    ClaimViewModel(DefaultMonth(today), 0.0, 0.0, None, None)
  }

  /** A fresh form does not validate until hours and rate are filled in. */
  lemma NewClaimFormInvalid(today: CalendarDate)
    ensures !NewClaimForm(today).IsValid()
    ensures !NewClaimForm(today).HoursValid() && !NewClaimForm(today).RateValid()
    ensures NewClaimForm(today).NotesValid()
    ensures NewClaimForm(today).TotalAmount() == 0.0
  {
  }

  /** A valid form's total lies between 0.1 * 50 and 200 * 1000. */
  lemma ValidTotalBounds(vm: ClaimViewModel)
    requires vm.IsValid()
    ensures MinHours * MinRate <= vm.TotalAmount() <= MaxHours * MaxRate
    ensures 5.0 <= vm.TotalAmount() <= 200000.0
  {
    ProductMonotone(MinHours, vm.hoursWorked, MinRate, vm.hourlyRate);
    ProductMonotone(vm.hoursWorked, MaxHours, vm.hourlyRate, MaxRate);
  }

  /** Multiplication of non-negative reals is monotone in both factors. */
  lemma ProductMonotone(a: real, b: real, c: real, d: real)
    requires 0.0 <= a <= b && 0.0 <= c <= d
    ensures a * c <= b * d
  {
    assert (b - a) * c >= 0.0;
    assert b * (d - c) >= 0.0;
  }

  /** The total is the product of the two inputs, so it is zero iff one of them is. */
  lemma TotalAmountZero(vm: ClaimViewModel)
    ensures vm.TotalAmount() == 0.0 <==> vm.hoursWorked == 0.0 || vm.hourlyRate == 0.0
  {
    if vm.hoursWorked != 0.0 && vm.hourlyRate != 0.0 {
      assert vm.TotalAmount() / vm.hourlyRate == vm.hoursWorked;
    }
  }

  datatype ApprovalAction = Approve | Reject | RequestMoreInfo

  /** `ApprovalViewModel`: the decision form of an approver. */
  datatype ApprovalViewModel = ApprovalViewModel(claimId: Guid, approvalNotes: Option<string>, action: ApprovalAction)
  {
    /** `Required` refuses null, empty and whitespace-only text; `StringLength` caps it at 500. */
    predicate NotesValid() {
      !IsNullOrWhiteSpace(approvalNotes) && |approvalNotes.value| <= MaxApprovalNotes
    }
  }

  /** Valid approval notes hold a visible character and are never empty. */
  lemma ApprovalNotesValid(vm: ApprovalViewModel)
    ensures vm.NotesValid() <==>
      && vm.approvalNotes.Some?
      && (exists i :: 0 <= i < |vm.approvalNotes.value| && !IsWhiteSpace(vm.approvalNotes.value[i]))
      && |vm.approvalNotes.value| <= 500
    ensures vm.NotesValid() ==> 1 <= |vm.approvalNotes.value|
  {
  }
}
