/**
 * `ClaimStatusHistory`: one immutable audit record per status transition,
 * with its two derived display strings.
 */
module StatusHistory {
  import opened Wrappers
  import opened Time
  import opened Text
  import opened ClaimStatuses


  datatype HistoryRecord = HistoryRecord(
    id: Guid,
    claimId: Guid,
    oldStatus: Status,
    newStatus: Status,
    changedDate: Ticks,
    changedBy: Option<string>,
    changeNotes: Option<string>)

  /** The separator of the "old → new" label. */
  const Arrow: string := " \U{2192} "

  /** `StatusChange`: the old status name, the arrow, the new status name. */
  function StatusChange(r: HistoryRecord): (shown: string)
    ensures StartsWith(shown, Name(r.oldStatus) + Arrow)
    ensures EndsWith(shown, Name(r.newStatus))
  {
    Name(r.oldStatus) + Arrow + Name(r.newStatus)
  }

  /** Reads a label back: the first status whose name and arrow begin it, then the rest as a name. */
  function ParseStatusChange(text: string): Option<(Status, Status)> {
    ParseFrom(text, [Pending, UnderReview, Approved, Rejected, Paid])
  }

  function ParseFrom(text: string, candidates: seq<Status>): Option<(Status, Status)>
    decreases |candidates|
  {
    if candidates == [] then None
    else
      var head := Name(candidates[0]) + Arrow;
      if StartsWith(text, head) then
        match StatusNamed(text[|head|..])
        case Some(n) => Some((candidates[0], n))
        case None => None
      else ParseFrom(text, candidates[1..])
  }

  /** A label begins with the name-and-arrow of its own old status and of no other. */
  lemma LabelHead(a: Status, b: Status, c: Status)
    ensures StartsWith(Name(a) + Arrow + Name(b), Name(c) + Arrow) <==> c == a
  {
    var shown := Name(a) + Arrow + Name(b);
    var na, nc := Name(a), Name(c);
    if c == a {
      assert shown[..|nc + Arrow|] == nc + Arrow;
    } else {
      // the two heads differ where the shorter name ends, or at the first
      // letter when the names have the same length
      assert forall i :: 0 <= i < |na| ==> na[i] != ' ';
      assert forall i :: 0 <= i < |nc| ==> nc[i] != ' ';
      var j := if |nc| < |na| then |nc| else if |nc| > |na| then |na| else 0;
      if j < |shown| && j < |nc + Arrow| {
        assert shown[j] != (nc + Arrow)[j];
      }
    }
  }

  /** The label determines the transition it describes. */
  lemma {:induction false} StatusChangeRoundTrip(r: HistoryRecord)
    ensures ParseStatusChange(StatusChange(r)) == Some((r.oldStatus, r.newStatus))
  {
    var shown := StatusChange(r);
    var all := [Pending, UnderReview, Approved, Rejected, Paid];
    var k := Code(r.oldStatus);
    assert all[k] == r.oldStatus;
    var j := 0;
    while j < k
      invariant 0 <= j <= k
      invariant ParseFrom(shown, all[j..]) == ParseStatusChange(shown)
    {
      LabelHead(r.oldStatus, r.newStatus, all[j]);
      assert all[j..][1..] == all[j + 1..];
      j := j + 1;
    }
    LabelHead(r.oldStatus, r.newStatus, all[k]);
    var head := Name(r.oldStatus) + Arrow;
    assert shown[|head|..] == Name(r.newStatus);
    NameRoundTrip(r.newStatus);
  }

  lemma StatusChangeInjective(r: HistoryRecord, s: HistoryRecord)
    requires StatusChange(r) == StatusChange(s)
    ensures r.oldStatus == s.oldStatus && r.newStatus == s.newStatus
  {
    StatusChangeRoundTrip(r);
    StatusChangeRoundTrip(s);
  }

  /**
   * `GetDurationString`: the time elapsed from the change to `now`, in whole
   * days, hours or minutes (the largest unit reached), or "Just now".
   */
  function DurationString(r: HistoryRecord, now: Ticks): string {
    var elapsed := now - r.changedDate;
    if elapsed >= TicksPerDay then NatToString(elapsed / TicksPerDay) + "d ago"
    else if elapsed >= TicksPerHour then NatToString(elapsed / TicksPerHour) + "h ago"
    else if elapsed >= TicksPerMinute then NatToString(elapsed / TicksPerMinute) + "m ago"
    else "Just now"
  }

  /** At least one day: the whole number of days, at least 1, then "d ago". */
  lemma DurationInDays(r: HistoryRecord, now: Ticks)
    requires now - r.changedDate >= TicksPerDay
    ensures var days := (now - r.changedDate) / TicksPerDay;
      days >= 1 && days * TicksPerDay <= now - r.changedDate < (days + 1) * TicksPerDay
      && DurationString(r, now) == NatToString(days) + "d ago"
  {
  }

  /** From one hour up to one day: 1 to 23 whole hours, then "h ago". */
  lemma DurationInHours(r: HistoryRecord, now: Ticks)
    requires TicksPerHour <= now - r.changedDate < TicksPerDay
    ensures var hours := (now - r.changedDate) / TicksPerHour;
      1 <= hours <= 23 && hours * TicksPerHour <= now - r.changedDate < (hours + 1) * TicksPerHour
      && DurationString(r, now) == NatToString(hours) + "h ago"
  {
  }

  /** From one minute up to one hour: 1 to 59 whole minutes, then "m ago". */
  lemma DurationInMinutes(r: HistoryRecord, now: Ticks)
    requires TicksPerMinute <= now - r.changedDate < TicksPerHour
    ensures var minutes := (now - r.changedDate) / TicksPerMinute;
      1 <= minutes <= 59 && minutes * TicksPerMinute <= now - r.changedDate < (minutes + 1) * TicksPerMinute
      && DurationString(r, now) == NatToString(minutes) + "m ago"
  {
  }

  /** Under a minute, a change dated in the future included: "Just now". */
  lemma DurationJustNow(r: HistoryRecord, now: Ticks)
    requires now - r.changedDate < TicksPerMinute
    ensures DurationString(r, now) == "Just now"
  {
  }

  /**
   * Every elapsed time gives exactly one of the four shapes, each shape
   * exactly on its range, and the number shown reads back as the whole
   * count of its unit.
   */
  lemma {:induction false} DurationShapes(r: HistoryRecord, now: Ticks)
    ensures var s := DurationString(r, now); var e := now - r.changedDate;
      && (EndsWith(s, "d ago") <==> e >= TicksPerDay)
      && (EndsWith(s, "h ago") <==> TicksPerHour <= e < TicksPerDay)
      && (EndsWith(s, "m ago") <==> TicksPerMinute <= e < TicksPerHour)
      && (s == "Just now" <==> e < TicksPerMinute)
      && (e >= TicksPerMinute ==>
            |s| > 5 && (forall i :: 0 <= i < |s| - 5 ==> IsDigit(s[i]))
            && DigitsValue(s[..|s| - 5]) == e / UnitOf(e))
  {
    var e := now - r.changedDate;
    if e >= TicksPerDay {
      DurationInDays(r, now);
      ReadBack(e / TicksPerDay, "d ago");
    } else if e >= TicksPerHour {
      DurationInHours(r, now);
      ReadBack(e / TicksPerHour, "h ago");
    } else if e >= TicksPerMinute {
      DurationInMinutes(r, now);
      ReadBack(e / TicksPerMinute, "m ago");
    } else {
      DurationJustNow(r, now);
    }
  }

  /** A number followed by a five-letter unit: the digits come first and read back as the number. */
  lemma ReadBack(n: nat, suffix: string)
    requires |suffix| == 5
    ensures var s := NatToString(n) + suffix;
      && |s| > 5 && s[|s| - 5..] == suffix
      && (forall i :: 0 <= i < |s| - 5 ==> IsDigit(s[i]))
      && DigitsValue(s[..|s| - 5]) == n
  {
    NatToStringDigits(n);
    var s := NatToString(n) + suffix;
    assert s[..|s| - 5] == NatToString(n);
    assert s[|s| - 5..] == suffix;
  }

  /** The unit a duration of at least one minute is shown in. */
  function UnitOf(e: Ticks): (u: int)
    ensures u > 0
  {
    if e >= TicksPerDay then TicksPerDay else if e >= TicksPerHour then TicksPerHour else TicksPerMinute
  }

  /**
   * The log `h` explains a claim that started in `start` and is now in
   * `current`: each record starts where the previous one ended, the first
   * starts at `start`, and the last ends at `current`.
   */
  predicate Explains(h: seq<HistoryRecord>, start: Status, current: Status) {
    && (forall i :: 0 < i < |h| ==> h[i].oldStatus == h[i - 1].newStatus)
    && (h == [] ==> current == start)
    && (h != [] ==> h[0].oldStatus == start && h[|h| - 1].newStatus == current)
  }

  /** Appending a record that starts at the current status keeps the log explaining. */
  lemma ExplainsAppend(h: seq<HistoryRecord>, start: Status, current: Status, r: HistoryRecord)
    requires Explains(h, start, current) && r.oldStatus == current
    ensures Explains(h + [r], start, r.newStatus)
  {
    var h' := h + [r];
    forall i | 0 < i < |h'| ensures h'[i].oldStatus == h'[i - 1].newStatus {
      if i < |h| {
        assert h'[i] == h[i] && h'[i - 1] == h[i - 1];
      }
    }
  }
}
