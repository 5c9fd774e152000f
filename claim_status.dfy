/** The `ClaimStatus` enumeration shared by both claim variants. */
module ClaimStatuses {
  import opened Wrappers
  import opened Text

  datatype Status = Pending | UnderReview | Approved | Rejected | Paid

  /** The enumeration's underlying integer value (declaration order). */
  function Code(s: Status): (n: nat)
    ensures n < 5
  {
    match s
    case Pending => 0
    case UnderReview => 1
    case Approved => 2
    case Rejected => 3
    case Paid => 4
  }

  /** The named member with underlying value `n`, if there is one. */
  function FromCode(n: int): (r: Option<Status>)
    ensures r.Some? <==> 0 <= n < 5
    ensures r.Some? ==> Code(r.value) == n
  {
    if n == 0 then Some(Pending)
    else if n == 1 then Some(UnderReview)
    else if n == 2 then Some(Approved)
    else if n == 3 then Some(Rejected)
    else if n == 4 then Some(Paid)
    else None
  }

  lemma CodeFromCode(s: Status)
    ensures FromCode(Code(s)) == Some(s)
  {
  }

  /** `ToString()` of a named member: its identifier. */
  function Name(s: Status): string {
    match s
    case Pending => "Pending"
    case UnderReview => "UnderReview"
    case Approved => "Approved"
    case Rejected => "Rejected"
    case Paid => "Paid"
  }

  /** The named member whose identifier is exactly `text` (case-sensitive). */
  function StatusNamed(text: string): (r: Option<Status>)
    ensures r.Some? ==> Name(r.value) == text
  {
    if text == "Pending" then Some(Pending)
    else if text == "UnderReview" then Some(UnderReview)
    else if text == "Approved" then Some(Approved)
    else if text == "Rejected" then Some(Rejected)
    else if text == "Paid" then Some(Paid)
    else None
  }

  /** Names are distinct, so reading a name back gives the status again. */
  lemma NameRoundTrip(s: Status)
    ensures StatusNamed(Name(s)) == Some(s)
  {
  }

  /**
   * `Enum.TryParse<ClaimStatus>(text, out v)`, as the underlying value `v`
   * it yields: a member identifier gives that member's value, and a string
   * of decimal digits gives its number even when no member has that value
   * (the runtime accepts any Int32 for an enum).
   */
  function ParseStatusCode(text: string): (r: Option<int>)
    ensures StatusNamed(text).Some? ==> r == Some(Code(StatusNamed(text).value))
  {
    match StatusNamed(text)
    case Some(s) => Some(Code(s))
    case None =>
      if text != [] && (forall i :: 0 <= i < |text| ==> IsDigit(text[i]))
         && DigitsValue(text) < 0x8000_0000
      then Some(DigitsValue(text))
      else None
  }

  /** Every member's identifier parses to that member's value. */
  lemma ParseName(s: Status)
    ensures ParseStatusCode(Name(s)) == Some(Code(s))
  {
    NameRoundTrip(s);
  }
}
