/** `ActivityItem` of the lecturer dashboard: a badge chosen from a status given as text. */
module Dashboard {
  import opened Wrappers
  import opened Text
  import opened ClaimStatuses
  import ClaimLifecycle

  /**
   * `ActivityItem.StatusBadgeClass`: the status text is lower-cased and
   * matched against four names; everything else, null included, is the
   * warning colour.
   */
  function ActivityBadge(status: Option<string>): (badge: string)
    ensures badge in {"bg-success", "bg-danger", "bg-info", "bg-primary", "bg-warning"}
    ensures badge == "bg-warning" <==>
      status.None? || Lower(status.value) !in {"approved", "rejected", "underreview", "paid"}
  {
    if status.None? then "bg-warning"
    else
      var key := Lower(status.value);
      if key == "approved" then "bg-success"
      else if key == "rejected" then "bg-danger"
      else if key == "underreview" then "bg-info"
      else if key == "paid" then "bg-primary"
      else "bg-warning"
  }

  /** The choice depends on the letters only, not their case. */
  lemma ActivityBadgeIgnoresCase(text: string)
    ensures ActivityBadge(Some(text)) == ActivityBadge(Some(Lower(text)))
  {
    LowerIdempotent(text);
  }

  /** For the five status names the dashboard shows the same colour as the claim itself. */
  lemma ActivityBadgeAgreesWithClaim(s: Status)
    ensures ActivityBadge(Some(Name(s))) == ClaimLifecycle.BadgeClass(s)
  {
    match s
    case Pending =>
      assert Lower("Pending") == "pending";
    case UnderReview =>
      assert Lower("UnderReview") == "underreview";
    case Approved =>
      assert Lower("Approved") == "approved";
    case Rejected =>
      assert Lower("Rejected") == "rejected";
    case Paid =>
      assert Lower("Paid") == "paid";
  }

  /** Empty text, "pending" and any unknown word all fall to the default. */
  lemma ActivityBadgeDefaults()
    ensures ActivityBadge(Some("")) == "bg-warning"
    ensures ActivityBadge(Some("pending")) == "bg-warning"
    ensures ActivityBadge(Some("APPROVED")) == "bg-success"
  {
    assert Lower("pending") == "pending";
    assert Lower("APPROVED") == "approved";
  }
}
