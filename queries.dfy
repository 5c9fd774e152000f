/**
 * The claim lists of the reviewing controllers: optional filters applied
 * one after another, then a descending sort.
 */
module ClaimQueries {
  import opened Wrappers
  import opened Time
  import opened Text
  import opened ClaimStatuses
  import opened Users
  import opened ClaimLifecycle

  /** `Where`: the elements that pass, in their original order. */
  function Where<T>(s: seq<T>, keep: T -> bool): (r: seq<T>)
    ensures |r| <= |s| && multiset(r) <= multiset(s)
    ensures forall x :: x in r ==> keep(x)
    ensures forall x :: x in s ==> multiset(r)[x] == if keep(x) then multiset(s)[x] else 0
  {
    if s == [] then []
    else
      assert s == [s[0]] + s[1..];
      (if keep(s[0]) then [s[0]] else []) + Where(s[1..], keep)
  }

  /** Two tests that agree on every element keep the same elements. */
  lemma {:induction false} WhereAgrees<T>(s: seq<T>, keep: T -> bool, keep': T -> bool)
    requires forall x :: x in s ==> keep(x) == keep'(x)
    ensures Where(s, keep) == Where(s, keep')
  {
    if s != [] {
      WhereAgrees(s[1..], keep, keep');
    }
  }

  /**
   * The status filter: applied only when the text is non-empty and parses
   * as the enumeration; a claim then passes iff its value is the parsed one.
   */
  predicate StatusMatches(c: ClaimState, status: Option<string>) {
    IsNullOrEmpty(status) || ParseStatusCode(status.value).None?
    || ParseStatusCode(status.value) == Some(Code(c.status))
  }

  /** The department filter: applied only when non-empty. */
  predicate DepartmentMatches(c: ClaimState, department: Option<string>) {
    IsNullOrEmpty(department) || DepartmentOf(c.lecturer) == department
  }

  /** The month filter, given the already parsed "yyyy-MM" (absent when empty or unparsable). */
  predicate MonthMatches(c: ClaimState, month: Option<YearMonth>) {
    month.None? || (c.month.year == month.value.year && c.month.month == month.value.month)
  }

  /** The lecturer filter: the text occurs in the first or last name, or the e-mail when asked. */
  predicate LecturerMatches(c: ClaimState, text: Option<string>, withEmail: bool) {
    IsNullOrEmpty(text)
    || (c.lecturer != null
        && (Contains(c.lecturer.firstName, text.value) || Contains(c.lecturer.lastName, text.value)
            || (withEmail && c.lecturer.email.Some? && Contains(c.lecturer.email.value, text.value))))
  }

  /** A descending sort key: a primary key that may be absent (ranked last), then a secondary key. */
  datatype SortKey = SortKey(major: Option<Ticks>, minor: Ticks)

  predicate MajorAbove(a: Option<Ticks>, b: Option<Ticks>) {
    a.Some? && (b.None? || a.value > b.value)
  }

  /** `a` may come before `b` in a descending order. */
  predicate KeyAtLeast(a: SortKey, b: SortKey) {
    MajorAbove(a.major, b.major) || (a.major == b.major && a.minor >= b.minor)
  }

  lemma KeyOrderTotal(a: SortKey, b: SortKey)
    ensures KeyAtLeast(a, b) || KeyAtLeast(b, a)
  {
  }

  lemma KeyOrderTransitive(a: SortKey, b: SortKey, c: SortKey)
    requires KeyAtLeast(a, b) && KeyAtLeast(b, c)
    ensures KeyAtLeast(a, c)
  {
  }

  /** `OrderByDescending(c => c.SubmissionDate)`. */
  function SubmissionKey(c: ClaimState): SortKey {
    SortKey(None, c.submissionDate)
  }

  /** `OrderByDescending(c => c.LastStatusUpdateDate).ThenByDescending(c => c.SubmissionDate)`. */
  function LastUpdateKey(c: ClaimState): SortKey {
    SortKey(c.lastStatusUpdateDate, c.submissionDate)
  }

  predicate Descending(s: seq<ClaimState>, key: ClaimState -> SortKey) {
    forall i, j :: 0 <= i < j < |s| ==> KeyAtLeast(key(s[i]), key(s[j]))
  }

  /** Put `x` into a descending list before the first element it does not rank below. */
  function InsertDescending(x: ClaimState, s: seq<ClaimState>, key: ClaimState -> SortKey): (r: seq<ClaimState>)
    requires Descending(s, key)
    ensures multiset(r) == multiset(s) + multiset{x}
    ensures Descending(r, key)
    ensures r[0] == x || (s != [] && r[0] == s[0])
  {
    if s == [] then [x]
    else if KeyAtLeast(key(x), key(s[0])) then
      var r := [x] + s;
      forall i, j | 0 <= i < j < |r| ensures KeyAtLeast(key(r[i]), key(r[j])) {
        if i == 0 && j > 1 {
          KeyOrderTransitive(key(x), key(s[0]), key(s[j - 1]));
        }
      }
      r
    else
      var rest := InsertDescending(x, s[1..], key);
      var r := [s[0]] + rest;
      assert s == [s[0]] + s[1..];
      KeyOrderTotal(key(x), key(s[0]));
      forall j | 0 <= j < |rest| ensures KeyAtLeast(key(s[0]), key(rest[j])) {
        assert rest[j] in multiset(rest);
        if rest[j] != x {
          assert rest[j] in multiset(s[1..]);
          var k :| 0 <= k < |s[1..]| && s[1..][k] == rest[j];
          assert s[k + 1] == rest[j];
        }
      }
      assert Descending(r, key);
      r
  }

  /** An insertion sort into descending key order; equal keys may come in any order. */
  function SortDescending(s: seq<ClaimState>, key: ClaimState -> SortKey): (r: seq<ClaimState>)
    ensures multiset(r) == multiset(s)
    ensures Descending(r, key)
  {
    if s == [] then []
    else
      assert s == [s[0]] + s[1..];
      InsertDescending(s[0], SortDescending(s[1..], key), key)
  }

  /** Filtering then sorting keeps exactly the passing elements, each as often as before. */
  lemma SelectThenSort(s: seq<ClaimState>, keep: ClaimState -> bool, key: ClaimState -> SortKey)
    ensures var r := SortDescending(Where(s, keep), key);
      && Descending(r, key)
      && multiset(r) <= multiset(s)
      && (forall x :: x in r ==> keep(x))
      && (forall x :: x in s && keep(x) ==> multiset(r)[x] == multiset(s)[x])
  {
    var w := Where(s, keep);
    var r := SortDescending(w, key);
    forall x | x in r ensures keep(x) {
      assert x in multiset(r);
      assert x in multiset(w);
    }
  }

  /** `AcademicManagerController.AllClaims`: every claim, four optional filters, newest first. */
  predicate AllClaimsKeeps(c: ClaimState, status: Option<string>, department: Option<string>,
                           month: Option<YearMonth>, lecturer: Option<string>) {
    StatusMatches(c, status) && DepartmentMatches(c, department) && MonthMatches(c, month)
    && LecturerMatches(c, lecturer, false)
  }

  function AllClaims(claims: seq<ClaimState>, status: Option<string>, department: Option<string>,
                     month: Option<YearMonth>, lecturer: Option<string>): (r: seq<ClaimState>)
    ensures Descending(r, SubmissionKey)
    ensures multiset(r) <= multiset(claims)
    ensures forall x :: x in r ==> AllClaimsKeeps(x, status, department, month, lecturer)
    ensures forall x :: x in claims && AllClaimsKeeps(x, status, department, month, lecturer) ==> multiset(r)[x] == multiset(claims)[x]
  {
    var keep := c => AllClaimsKeeps(c, status, department, month, lecturer);
    SelectThenSort(claims, keep, SubmissionKey);
    SortDescending(Where(claims, keep), SubmissionKey)
  }

  /**
   * `ProgrammeCoordinatorController.ReviewClaims`: no signed-in user is a
   * 404; otherwise the coordinator's department only, then status, month
   * and lecturer name (not e-mail), newest first.
   */
  predicate ReviewClaimsKeeps(c: ClaimState, department: Option<string>, status: Option<string>,
                              month: Option<YearMonth>, lecturer: Option<string>) {
    DepartmentOf(c.lecturer) == department && StatusMatches(c, status) && MonthMatches(c, month)
    && LecturerMatches(c, lecturer, false)
  }

  function ReviewClaims(claims: seq<ClaimState>, currentUser: Option<ApplicationUser>, status: Option<string>,
                        month: Option<YearMonth>, lecturer: Option<string>): (r: Option<seq<ClaimState>>)
    ensures r.None? <==> currentUser.None?
    ensures r.Some? ==> Descending(r.value, SubmissionKey)
    ensures r.Some? ==> multiset(r.value) <= multiset(claims)
    ensures r.Some? ==> forall x :: x in r.value ==> ReviewClaimsKeeps(x, currentUser.value.department, status, month, lecturer)
    ensures r.Some? ==> forall x :: x in claims && ReviewClaimsKeeps(x, currentUser.value.department, status, month, lecturer)
                                    ==> multiset(r.value)[x] == multiset(claims)[x]
  {
    if currentUser.None? then None
    else
      var department := currentUser.value.department;
      var keep := c => ReviewClaimsKeeps(c, department, status, month, lecturer);
      SelectThenSort(claims, keep, SubmissionKey);
      Some(SortDescending(Where(claims, keep), SubmissionKey))
  }

  /** `HRController.ProcessClaims`: status, month, and lecturer name or e-mail; newest first. */
  predicate ProcessClaimsKeeps(c: ClaimState, status: Option<string>, month: Option<YearMonth>, lecturer: Option<string>) {
    StatusMatches(c, status) && MonthMatches(c, month) && LecturerMatches(c, lecturer, true)
  }

  function ProcessClaims(claims: seq<ClaimState>, status: Option<string>, month: Option<YearMonth>,
                         lecturer: Option<string>): (r: seq<ClaimState>)
    ensures Descending(r, SubmissionKey)
    ensures multiset(r) <= multiset(claims)
    ensures forall x :: x in r ==> ProcessClaimsKeeps(x, status, month, lecturer)
    ensures forall x :: x in claims && ProcessClaimsKeeps(x, status, month, lecturer) ==> multiset(r)[x] == multiset(claims)[x]
  {
    var keep := c => ProcessClaimsKeeps(c, status, month, lecturer);
    SelectThenSort(claims, keep, SubmissionKey);
    SortDescending(Where(claims, keep), SubmissionKey)
  }

  /**
   * `HRController.RejectedClaims`: rejected claims only, filtered by month,
   * lecturer name or e-mail and department; latest status change first,
   * then newest submission.
   */
  predicate RejectedClaimsKeeps(c: ClaimState, month: Option<YearMonth>, lecturer: Option<string>, department: Option<string>) {
    c.status == Rejected && MonthMatches(c, month) && LecturerMatches(c, lecturer, true) && DepartmentMatches(c, department)
  }

  function RejectedClaims(claims: seq<ClaimState>, month: Option<YearMonth>, lecturer: Option<string>,
                          department: Option<string>): (r: seq<ClaimState>)
    ensures Descending(r, LastUpdateKey)
    ensures multiset(r) <= multiset(claims)
    ensures forall x :: x in r ==> RejectedClaimsKeeps(x, month, lecturer, department)
    ensures forall x :: x in claims && RejectedClaimsKeeps(x, month, lecturer, department) ==> multiset(r)[x] == multiset(claims)[x]
  {
    var keep := c => RejectedClaimsKeeps(c, month, lecturer, department);
    SelectThenSort(claims, keep, LastUpdateKey);
    SortDescending(Where(claims, keep), LastUpdateKey)
  }

  /** Empty filter values filter nothing: the list is every claim, reordered. */
  lemma EmptyFiltersKeepAll(claims: seq<ClaimState>)
    ensures multiset(AllClaims(claims, None, None, None, None)) == multiset(claims)
    ensures multiset(AllClaims(claims, Some(""), Some(""), None, Some(""))) == multiset(claims)
  {
    var r1 := AllClaims(claims, None, None, None, None);
    assert multiset(r1) == multiset(claims) by {
      forall x | x in claims ensures multiset(r1)[x] == multiset(claims)[x] {
        assert AllClaimsKeeps(x, None, None, None, None);
      }
    }
    var r2 := AllClaims(claims, Some(""), Some(""), None, Some(""));
    assert multiset(r2) == multiset(claims) by {
      forall x | x in claims ensures multiset(r2)[x] == multiset(claims)[x] {
        assert AllClaimsKeeps(x, Some(""), Some(""), None, Some(""));
      }
    }
  }

  /** An unparsable status text is ignored rather than matching nothing. */
  lemma UnparsableStatusIgnored(c: ClaimState, status: string)
    requires ParseStatusCode(status).None?
    ensures StatusMatches(c, Some(status))
  {
  }

  /** A status name keeps exactly the claims in that status. */
  lemma StatusNameFilter(c: ClaimState, s: Status)
    ensures StatusMatches(c, Some(Name(s))) <==> c.status == s
  {
    ParseName(s);
    CodeFromCode(s);
    CodeFromCode(c.status);
  }

  /** Only the HR lists search e-mail: a match on e-mail alone passes there and not for the manager. */
  lemma EmailOnlyInHumanResources(c: ClaimState, text: string)
    requires text != "" && c.lecturer != null && c.lecturer.email.Some?
    requires Contains(c.lecturer.email.value, text)
    requires !Contains(c.lecturer.firstName, text) && !Contains(c.lecturer.lastName, text)
    ensures LecturerMatches(c, Some(text), true)
    ensures !LecturerMatches(c, Some(text), false)
  {
  }
}
