/**
 * The human-relative rendering of a commit's author date ("3h ago").
 *
 * Date parsing and the wall clock are inputs: `elapsed` is `None` when the
 * ISO-8601 text does not parse, and otherwise the whole number of seconds
 * between the author date and now.
 */
module RelativeTime {
  import opened Wrappers
  import opened Decimal

  const SecondsPerMinute := 60
  const SecondsPerHour := 3600
  const SecondsPerDay := 86400

  /** The buckets the rendering chooses between, with the count it prints. */
  datatype Age = Unknown | MomentsAgo | MinutesAgo(minutes: nat) | HoursAgo(hours: nat) | DaysAgo(days: nat)

  /** Swift's `Int(x / d)`: division truncated toward zero. */
  function TruncDiv(x: int, d: int): (q: int)
    requires d > 0
    ensures x >= 0 ==> q * d <= x < q * d + d
    ensures x < 0 ==> q * d >= x > q * d - d
  {
    if x >= 0 then x / d else -((-x) / d)
  }

  /** The guarded returns of the rendering, as a bucket and its count. */
  function AgeOf(elapsed: Option<int>): (a: Age)
    ensures a == Unknown <==> elapsed.None?
    ensures a == MomentsAgo <==> elapsed.Some? && elapsed.value < SecondsPerMinute
    ensures a.MinutesAgo? <==> elapsed.Some? && SecondsPerMinute <= elapsed.value < SecondsPerHour
    ensures a.HoursAgo? <==> elapsed.Some? && SecondsPerHour <= elapsed.value < SecondsPerDay
    ensures a.DaysAgo? <==> elapsed.Some? && SecondsPerDay <= elapsed.value
    ensures a.MinutesAgo? ==>
              1 <= a.minutes <= 59 &&
              a.minutes * SecondsPerMinute <= elapsed.value < (a.minutes + 1) * SecondsPerMinute
    ensures a.HoursAgo? ==>
              1 <= a.hours <= 23 &&
              a.hours * SecondsPerHour <= elapsed.value < (a.hours + 1) * SecondsPerHour
    ensures a.DaysAgo? ==>
              1 <= a.days &&
              a.days * SecondsPerDay <= elapsed.value < (a.days + 1) * SecondsPerDay
  {
    match elapsed
    case None => Unknown
    case Some(interval) =>
      if interval < SecondsPerMinute then MomentsAgo
      else if interval < SecondsPerHour then MinutesAgo(TruncDiv(interval, SecondsPerMinute))
      else if interval < SecondsPerDay then HoursAgo(TruncDiv(interval, SecondsPerHour))
      else DaysAgo(TruncDiv(interval, SecondsPerDay))
  }

  /** The text shown for a bucket; it reads back as the same bucket and count. */
  function Render(a: Age): (r: string)
    ensures ParseRelative(r) == Some(a)
  {
    match a
    case Unknown => "unknown"
    case MomentsAgo => "moments ago"
    case MinutesAgo(m) =>
      CountedRoundTrip(m, "m ago", "h ago");
      NatToString(m) + "m ago"
    case HoursAgo(h) =>
      CountedRoundTrip(h, "h ago", "m ago");
      CountedRoundTrip(h, "h ago", "d ago");
      NatToString(h) + "h ago"
    case DaysAgo(d) =>
      CountedRoundTrip(d, "d ago", "m ago");
      CountedRoundTrip(d, "d ago", "h ago");
      NatToString(d) + "d ago"
  }

  /**
   * The rendering of an author date, given its parse result and the elapsed
   * seconds: the text names the bucket and carries the whole number of
   * elapsed units.
   */
  function IsoDateToRelative(elapsed: Option<int>): (r: string)
    ensures r == "unknown" <==> elapsed.None?
    ensures r == "moments ago" <==> elapsed.Some? && elapsed.value < SecondsPerMinute
    ensures elapsed.Some? && SecondsPerMinute <= elapsed.value < SecondsPerHour ==>
      r == NatToString(elapsed.value / SecondsPerMinute) + "m ago" &&
      ParseCount(r, "m ago") == Some(elapsed.value / SecondsPerMinute)
    ensures elapsed.Some? && SecondsPerHour <= elapsed.value < SecondsPerDay ==>
      r == NatToString(elapsed.value / SecondsPerHour) + "h ago" &&
      ParseCount(r, "h ago") == Some(elapsed.value / SecondsPerHour)
    ensures elapsed.Some? && SecondsPerDay <= elapsed.value ==>
      r == NatToString(elapsed.value / SecondsPerDay) + "d ago" &&
      ParseCount(r, "d ago") == Some(elapsed.value / SecondsPerDay)
  {
    var a := AgeOf(elapsed);
    assert Render(Unknown) == "unknown";
    assert Render(MomentsAgo) == "moments ago";
    Render(a)
  }

  /** Reads a count followed by a one-letter unit suffix such as "m ago". */
  function ParseCount(s: string, suffix: string): Option<nat>
    requires |suffix| == 5
  {
    if |s| > 5 && s[|s| - 5..] == suffix then ParseNat(s[..|s| - 5]) else None
  }

  /** Reads a rendered text back into its bucket. */
  function ParseRelative(s: string): Option<Age> {
    if s == "unknown" then Some(Unknown)
    else if s == "moments ago" then Some(MomentsAgo)
    else match ParseCount(s, "m ago")
      case Some(m) => Some(MinutesAgo(m))
      case None =>
        match ParseCount(s, "h ago")
        case Some(h) => Some(HoursAgo(h))
        case None =>
          match ParseCount(s, "d ago")
          case Some(d) => Some(DaysAgo(d))
          case None => None
  }

  /** A count followed by a unit suffix reads back as that count. */
  lemma CountedRoundTrip(n: nat, suffix: string, other: string)
    requires |suffix| == 5 && |other| == 5 && suffix != other
    ensures var s := NatToString(n) + suffix;
      s != "unknown" && s != "moments ago" &&
      ParseCount(s, suffix) == Some(n) && ParseCount(s, other) == None
  {
    var digits := NatToString(n);
    var s := digits + suffix;
    assert s[0] == digits[0];
    assert IsDigit(s[0]);
    assert s[|s| - 5..] == suffix;
    assert s[..|s| - 5] == digits;
    ParseNatToString(n);
  }

  /** Worked examples: 30 seconds, 90 seconds, two hours and three days ago. */
  lemma RelativeExamples()
    ensures IsoDateToRelative(Some(30)) == "moments ago"
    ensures IsoDateToRelative(Some(90)) == "1m ago"
    ensures IsoDateToRelative(Some(2 * 3600)) == "2h ago"
    ensures IsoDateToRelative(Some(3 * 86400)) == "3d ago"
    ensures IsoDateToRelative(Some(-5)) == "moments ago"
    ensures IsoDateToRelative(None) == "unknown"
  {
    assert NatToString(1) == "1" && NatToString(2) == "2" && NatToString(3) == "3";
  }
}
