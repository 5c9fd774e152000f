/**
 * LINQ `Count`, `Where` and `Sum` over a list of claims, for any claim
 * representation given its status and amount projections.
 */
module Aggregates {
  import opened ClaimStatuses

  /** `Count(c => c.Status == status)`. */
  function CountWithStatus<T>(s: seq<T>, statusOf: T -> Status, status: Status): (n: nat)
    ensures n <= |s|
  {
    if s == [] then 0 else (if statusOf(s[0]) == status then 1 else 0) + CountWithStatus(s[1..], statusOf, status)
  }

  /** `Sum(c => c.TotalAmount)`. */
  function SumAmount<T>(s: seq<T>, amountOf: T -> real): real {
    if s == [] then 0.0 else amountOf(s[0]) + SumAmount(s[1..], amountOf)
  }

  /** `Where(c => c.Status == status).Sum(c => c.TotalAmount)`. */
  function SumAmountWithStatus<T>(s: seq<T>, statusOf: T -> Status, amountOf: T -> real, status: Status): real {
    if s == [] then 0.0
    else (if statusOf(s[0]) == status then amountOf(s[0]) else 0.0) + SumAmountWithStatus(s[1..], statusOf, amountOf, status)
  }

  /** `Sum(s => s.Count)`. */
  function SumCount<T>(s: seq<T>, countOf: T -> int): int {
    if s == [] then 0 else countOf(s[0]) + SumCount(s[1..], countOf)
  }

  /** Every element has exactly one of the five statuses. */
  lemma {:induction false} StatusCountsPartition<T>(s: seq<T>, statusOf: T -> Status)
    ensures CountWithStatus(s, statusOf, Pending) + CountWithStatus(s, statusOf, UnderReview)
          + CountWithStatus(s, statusOf, Approved) + CountWithStatus(s, statusOf, Rejected)
          + CountWithStatus(s, statusOf, Paid) == |s|
  {
    if s != [] {
      StatusCountsPartition(s[1..], statusOf);
    }
  }

  lemma {:induction false} CountAppend<T>(a: seq<T>, b: seq<T>, statusOf: T -> Status, status: Status)
    ensures CountWithStatus(a + b, statusOf, status) == CountWithStatus(a, statusOf, status) + CountWithStatus(b, statusOf, status)
  {
    if a != [] {
      assert (a + b)[1..] == a[1..] + b;
      CountAppend(a[1..], b, statusOf, status);
    } else {
      assert a + b == b;
    }
  }

  lemma {:induction false} SumAmountAppend<T>(a: seq<T>, b: seq<T>, amountOf: T -> real)
    ensures SumAmount(a + b, amountOf) == SumAmount(a, amountOf) + SumAmount(b, amountOf)
  {
    if a != [] {
      assert (a + b)[1..] == a[1..] + b;
      SumAmountAppend(a[1..], b, amountOf);
    } else {
      assert a + b == b;
    }
  }

  lemma {:induction false} SumWithStatusAppend<T>(a: seq<T>, b: seq<T>, statusOf: T -> Status, amountOf: T -> real, status: Status)
    ensures SumAmountWithStatus(a + b, statusOf, amountOf, status)
         == SumAmountWithStatus(a, statusOf, amountOf, status) + SumAmountWithStatus(b, statusOf, amountOf, status)
  {
    if a != [] {
      assert (a + b)[1..] == a[1..] + b;
      SumWithStatusAppend(a[1..], b, statusOf, amountOf, status);
    } else {
      assert a + b == b;
    }
  }

  lemma {:induction false} SumCountAppend<T>(a: seq<T>, b: seq<T>, countOf: T -> int)
    ensures SumCount(a + b, countOf) == SumCount(a, countOf) + SumCount(b, countOf)
  {
    if a != [] {
      assert (a + b)[1..] == a[1..] + b;
      SumCountAppend(a[1..], b, countOf);
    } else {
      assert a + b == b;
    }
  }

  /** With non-negative amounts, the sum over one status is between zero and the sum over all. */
  lemma {:induction false} SumWithStatusBounded<T>(s: seq<T>, statusOf: T -> Status, amountOf: T -> real, status: Status)
    requires forall i :: 0 <= i < |s| ==> amountOf(s[i]) >= 0.0
    ensures 0.0 <= SumAmountWithStatus(s, statusOf, amountOf, status) <= SumAmount(s, amountOf)
  {
    if s != [] {
      SumWithStatusBounded(s[1..], statusOf, amountOf, status);
    }
  }
}

/** `ClaimReportViewModel` and `ApprovalStatisticsViewModel` over earlier-variant claims. */
module ClaimReports {
  import opened ClaimStatuses
  import opened Aggregates
  import opened LegacyClaim

  function StatusOf(c: LegacyState): Status {
    c.status
  }

  function AmountOf(c: LegacyState): real {
    c.totalAmount
  }

  datatype ClaimReport = ClaimReport(claims: seq<LegacyState>)
  {
    function TotalClaims(): nat {
      |claims|
    }

    function ApprovedClaims(): nat {
      CountWithStatus(claims, StatusOf, Approved)
    }

    function PendingClaims(): nat {
      CountWithStatus(claims, StatusOf, Pending)
    }

    function RejectedClaims(): nat {
      CountWithStatus(claims, StatusOf, Rejected)
    }

    /** The amount of the approved claims only. */
    function TotalAmount(): real {
      SumAmountWithStatus(claims, StatusOf, AmountOf, Approved)
    }
  }

  /**
   * The three counters add up to the total less the UnderReview and Paid
   * claims, so never to more than the total.
   */
  lemma CountersWithinTotal(claims: seq<LegacyState>)
    ensures var r := ClaimReport(claims);
      && r.ApprovedClaims() + r.PendingClaims() + r.RejectedClaims()
         + CountWithStatus(claims, StatusOf, UnderReview) + CountWithStatus(claims, StatusOf, Paid) == r.TotalClaims()
      && r.ApprovedClaims() + r.PendingClaims() + r.RejectedClaims() <= r.TotalClaims()
  {
    StatusCountsPartition(claims, StatusOf);
  }

  /** Adding a claim raises its own status's counter by one and, if approved, the amount by its amount. */
  lemma ClaimReportAppend(claims: seq<LegacyState>, c: LegacyState)
    ensures var before := ClaimReport(claims); var after := ClaimReport(claims + [c]);
      && after.TotalClaims() == before.TotalClaims() + 1
      && after.ApprovedClaims() == before.ApprovedClaims() + (if c.status == Approved then 1 else 0)
      && after.TotalAmount() == before.TotalAmount() + (if c.status == Approved then c.totalAmount else 0.0)
  {
    CountAppend(claims, [c], StatusOf, Approved);
    SumWithStatusAppend(claims, [c], StatusOf, AmountOf, Approved);
  }

  lemma EmptyClaimReport()
    ensures var r := ClaimReport([]);
      r.TotalClaims() == 0 && r.ApprovedClaims() == 0 && r.PendingClaims() == 0
      && r.RejectedClaims() == 0 && r.TotalAmount() == 0.0
  {
  }

  /** One row of approval statistics (the percentage column is not modelled). */
  datatype ApprovalStatistic = ApprovalStatistic(status: Status, count: int, totalAmount: real)

  function CountOf(s: ApprovalStatistic): int {
    s.count
  }

  function StatisticAmount(s: ApprovalStatistic): real {
    s.totalAmount
  }

  datatype ApprovalStatistics = ApprovalStatistics(statistics: seq<ApprovalStatistic>)
  {
    function TotalClaims(): int {
      SumCount(statistics, CountOf)
    }

    function TotalAmount(): real {
      SumAmount(statistics, StatisticAmount)
    }
  }

  /** Totals over a concatenation of rows are the sums of the totals. */
  lemma ApprovalStatisticsAppend(a: seq<ApprovalStatistic>, b: seq<ApprovalStatistic>)
    ensures ApprovalStatistics(a + b).TotalClaims() == ApprovalStatistics(a).TotalClaims() + ApprovalStatistics(b).TotalClaims()
    ensures ApprovalStatistics(a + b).TotalAmount() == ApprovalStatistics(a).TotalAmount() + ApprovalStatistics(b).TotalAmount()
  {
    SumCountAppend(a, b, CountOf);
    SumAmountAppend(a, b, StatisticAmount);
  }

  lemma EmptyApprovalStatistics()
    ensures ApprovalStatistics([]).TotalClaims() == 0 && ApprovalStatistics([]).TotalAmount() == 0.0
  {
  }
}

/** `PaymentReportViewModel` and `LecturerDetailsViewModel`. */
module HRReports {
  import opened ClaimStatuses
  import opened Users
  import opened Aggregates
  import opened ClaimLifecycle

  function StatusOf(c: ClaimState): Status {
    c.status
  }

  function AmountOf(c: ClaimState): real {
    c.totalAmount
  }

  /** Every claim's amount, whatever its status. */
  datatype PaymentReport = PaymentReport(claims: seq<ClaimState>)
  {
    function TotalAmount(): real {
      SumAmount(claims, AmountOf)
    }

    function TotalClaims(): nat {
      |claims|
    }
  }

  datatype LecturerDetails = LecturerDetails(lecturer: ApplicationUser, claims: seq<ClaimState>)
  {
    /** Earnings are the approved claims' amounts only. */
    function TotalEarnings(): real {
      SumAmountWithStatus(claims, StatusOf, AmountOf, Approved)
    }

    function TotalApprovedClaims(): nat {
      CountWithStatus(claims, StatusOf, Approved)
    }

    function TotalPendingClaims(): nat {
      CountWithStatus(claims, StatusOf, Pending)
    }
  }

  lemma ApprovedAndPendingWithinCount(d: LecturerDetails)
    ensures d.TotalApprovedClaims() + d.TotalPendingClaims() <= |d.claims|
  {
    StatusCountsPartition(d.claims, StatusOf);
  }

  /** With non-negative amounts, earnings never exceed a payment report's total over the same claims. */
  lemma EarningsWithinPaymentTotal(d: LecturerDetails)
    requires forall i :: 0 <= i < |d.claims| ==> d.claims[i].totalAmount >= 0.0
    ensures 0.0 <= d.TotalEarnings() <= PaymentReport(d.claims).TotalAmount()
  {
    SumWithStatusBounded(d.claims, StatusOf, AmountOf, Approved);
  }

  lemma EmptyHRReports(lecturer: ApplicationUser)
    ensures PaymentReport([]).TotalAmount() == 0.0 && PaymentReport([]).TotalClaims() == 0
    ensures var d := LecturerDetails(lecturer, []);
      d.TotalEarnings() == 0.0 && d.TotalApprovedClaims() == 0 && d.TotalPendingClaims() == 0
  {
  }
}

/** `ComprehensiveReportViewModel`: totals over every claim in the period. */
module ComprehensiveReports {
  import opened Aggregates
  import opened ClaimLifecycle
  import HRReports

  datatype ComprehensiveReport = ComprehensiveReport(claims: seq<ClaimState>)
  {
    function TotalAmount(): real {
      SumAmount(claims, HRReports.AmountOf)
    }

    function TotalClaims(): nat {
      |claims|
    }
  }

  /** One more claim: one more in the count and its amount more in the total. */
  lemma ComprehensiveAppend(claims: seq<ClaimState>, c: ClaimState)
    ensures ComprehensiveReport(claims + [c]).TotalClaims() == ComprehensiveReport(claims).TotalClaims() + 1
    ensures ComprehensiveReport(claims + [c]).TotalAmount() == ComprehensiveReport(claims).TotalAmount() + c.totalAmount
  {
    SumAmountAppend(claims, [c], HRReports.AmountOf);
  }

  lemma EmptyComprehensiveReport()
    ensures ComprehensiveReport([]).TotalAmount() == 0.0 && ComprehensiveReport([]).TotalClaims() == 0
  {
  }
}
