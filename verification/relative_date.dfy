/** The two "posted ... ago" label functions: the search screen's, driven by elapsed time only,
    and the home feed's, which first asks whether the post is from today or yesterday. */
module RelativeDate {
  import opened Text
  import opened Calendar

  const MinuteMs: int := 60000
  const HourMs: int := 3600000

  /** Unit of an "N units ago" label. */
  datatype Unit = Minute | Hour | Day | Week | Month | Year

  /** A relative-date label before it is rendered as text. */
  datatype Label = JustNow | Today | Yesterday | Ago(count: int, unit: Unit)

  function UnitName(u: Unit): string {
    match u
    case Minute => "minute"
    case Hour => "hour"
    case Day => "day"
    case Week => "week"
    case Month => "month"
    case Year => "year"
  }

  /** The label as displayed: `"<count> <unit> ago"`, with the unit in the singular only when
      the count is 1. */
  function Render(l: Label): string {
    match l
    case JustNow => "Just now"
    case Today => "Today"
    case Yesterday => "Yesterday"
    case Ago(n, u) => IntToString(n) + " " + UnitName(u) + (if n == 1 then "" else "s") + " ago"
  }

  /** A count is rendered as the singular "1 <unit> ago" exactly when it is 1. */
  lemma RenderSingular(n: int, u: Unit)
    ensures Render(Ago(n, u)) == "1 " + UnitName(u) + " ago" <==> n == 1
  {
    if n != 1 {
      assert |Render(Ago(n, u))| >= |UnitName(u)| + 7;
    }
  }

  /** `getRelativeDate` of the search screen: minutes, hours, then whole days since posting
      (JavaScript's `Math.floor` on the millisecond difference). */
  function SearchLabel(now: int, t: int): (l: Label)
    ensures l == JustNow <==> now - t < 2 * MinuteMs
    ensures l != Today
    ensures l == Yesterday <==> DayMs <= now - t < 2 * DayMs
    ensures l.Ago? ==> l.count >= 1
    ensures l.Ago? && l.unit == Minute ==> 2 <= l.count < 60
    ensures l.Ago? && l.unit == Hour ==> 1 <= l.count < 24
    ensures l.Ago? && l.unit == Day ==> 2 <= l.count < 7
    ensures l.Ago? && l.unit == Week ==> 1 <= l.count <= 4
    ensures l.Ago? && l.unit == Month ==> 1 <= l.count <= 12
    ensures 2 * MinuteMs <= now - t < HourMs ==> l == Ago((now - t) / MinuteMs, Minute)
    ensures HourMs <= now - t < DayMs ==> l == Ago((now - t) / HourMs, Hour)
    ensures 2 * DayMs <= now - t ==> l == FixedBuckets((now - t) / DayMs)
  {
    var diff := now - t;
    var minutes := diff / MinuteMs;
    var hours := diff / HourMs;
    var days := diff / DayMs;
    if minutes < 60 then (if minutes <= 1 then JustNow else Ago(minutes, Minute))
    else if hours < 24 then Ago(hours, Hour)
    else if days == 0 then Today
    else if days == 1 then Yesterday
    else if days < 7 then Ago(days, Day)
    else if days < 30 then Ago(days / 7, Week)
    else if days < 365 then Ago(days / 30, Month)
    else Ago(days / 365, Year)
  }

  /** Between 360 and 364 whole days the search screen says "12 months ago". */
  lemma SearchTwelveMonths(now: int, t: int)
    requires 360 * DayMs <= now - t < 365 * DayMs
    ensures SearchLabel(now, t) == Ago(12, Month)
    ensures Render(SearchLabel(now, t)) == "12 months ago"
  {
    assert IntToString(12) == "12";
  }

  /** `getRelativeDate` of the home feed, as written: "Today"/"Yesterday" by local calendar
      date, then buckets on the number of whole days, weeks (days / 7), months (days / 30) and
      years (days / 365) elapsed. */
  function HomeLabel(c: Clock, t: int): (l: Label)
    ensures IsSameDay(c.zone, c.now, t) ==> l == Today
    ensures !IsSameDay(c.zone, c.now, t) && IsSameDay(c.zone, ShiftDays(c.zone, c.now, -1), t) ==> l == Yesterday
    ensures l == Today || l == Yesterday || l.Ago?
  {
    var diffDays := ElapsedDays(c.now - t);
    if IsSameDay(c.zone, c.now, t) then Today
    else if IsSameDay(c.zone, ShiftDays(c.zone, c.now, -1), t) then Yesterday
    else HomeBuckets(diffDays)
  }

  /** The buckets of the home feed's labels for a post `diffDays` whole days old, as written:
      weeks are `diffDays / 7` below four of them, months `diffDays / 30` below twelve. */
  function HomeBuckets(diffDays: int): (l: Label)
    ensures l.Ago?
    ensures diffDays < 7 ==> l == Ago(diffDays, Day)
    ensures 7 <= diffDays < 28 ==> l == Ago(diffDays / 7, Week)
    ensures 28 <= diffDays < 360 ==> l == Ago(diffDays / 30, Month)
    ensures 360 <= diffDays ==> l == Ago(diffDays / 365, Year)
  {
    var diffWeeks := diffDays / 7;
    var diffMonths := diffDays / 30;
    var diffYears := diffDays / 365;
    if diffDays < 7 then Ago(diffDays, Day)
    else if diffWeeks < 4 then Ago(diffWeeks, Week)
    else if diffMonths < 12 then Ago(diffMonths, Month)
    else Ago(diffYears, Year)
  }

  /** Whole days elapsed, computed as the source does through whole seconds, minutes and
      hours; the chain of floors is the floor of the whole division. */
  function ElapsedDays(diffMs: int): (d: int)
    ensures d == diffMs / DayMs
  {
    var diffSecs := diffMs / 1000;
    var diffMins := diffSecs / 60;
    var diffHours := diffMins / 60;
    assert diffMs == (diffHours / 24) * DayMs + ((diffHours % 24) * 3600000 + (diffMins % 60) * 60000 + (diffSecs % 60) * 1000 + diffMs % 1000);
    diffHours / 24
  }

  /** A post on another day than today and yesterday, 28 or 29 whole days old, is labelled
      "0 months ago"; one 360 to 364 days old is labelled "0 years ago". */
  lemma HomeZeroCounts(c: Clock, t: int)
    requires !IsSameDay(c.zone, c.now, t)
    requires !IsSameDay(c.zone, ShiftDays(c.zone, c.now, -1), t)
    ensures 28 * DayMs <= c.now - t < 30 * DayMs ==> HomeLabel(c, t) == Ago(0, Month)
    ensures 360 * DayMs <= c.now - t < 365 * DayMs ==> HomeLabel(c, t) == Ago(0, Year)
  {
    OlderHomeLabel(c, t);
    BucketsAgree((c.now - t) / DayMs);
  }

  /** An instance: in UTC, a post from 1970-01-01 00:00 read at 1970-01-29 00:00 is labelled
      "0 months ago". */
  lemma HomeZeroMonthsExample()
    ensures Render(HomeLabel(Clock(28 * DayMs, Zone(0)), 0)) == "0 months ago"
  {
    var c := Clock(28 * DayMs, Zone(0));
    ExampleDates();
    HomeZeroCounts(c, 0);
    assert HomeLabel(c, 0) == Ago(0, Month);
    RenderZeroMonths();
  }

  /** The calendar dates of the instants in the example above. */
  lemma ExampleDates()
    ensures !IsSameDay(Zone(0), 28 * DayMs, 0)
    ensures !IsSameDay(Zone(0), ShiftDays(Zone(0), 28 * DayMs, -1), 0)
  {
    var z := Zone(0);
    UtcDateIn1970(0, 0);
    UtcDateIn1970(28 * DayMs, 28);
    UtcDateIn1970(ShiftDays(z, 28 * DayMs, -1), 27);
  }

  /** In UTC, an instant on day `d` of 1970 (counting from 0) falls on January `d + 1`. */
  lemma UtcDateIn1970(t: int, d: int)
    requires 0 <= d < 31 && d * DayMs <= t < (d + 1) * DayMs
    ensures DateOf(Zone(0), t) == CivilDate(1970, 0, d + 1)
  {
    assert LocalDay(Zone(0), t) == d;
    January1970(d);
  }

  lemma RenderZeroMonths()
    ensures Render(Ago(0, Month)) == "0 months ago"
  {
    assert IntToString(0) == "0";
  }

  /** The home feed's labels with the bucket bounds of the search screen (weeks below 30 days,
      months below 365 days), so that no bucket can report a count of zero. */
  function HomeLabelFixed(c: Clock, t: int): (l: Label)
    ensures IsSameDay(c.zone, c.now, t) ==> l == Today
    ensures !IsSameDay(c.zone, c.now, t) && IsSameDay(c.zone, ShiftDays(c.zone, c.now, -1), t) ==> l == Yesterday
    ensures t <= c.now && l.Ago? ==> l.count >= 1
  {
    var diffDays := (c.now - t) / DayMs;
    if IsSameDay(c.zone, c.now, t) then Today
    else if IsSameDay(c.zone, ShiftDays(c.zone, c.now, -1), t) then Yesterday
    else
      assert t <= c.now ==> diffDays >= 1;
      FixedBuckets(diffDays)
  }

  /** The buckets with the search screen's bounds: weeks below 30 days, months below 365. */
  function FixedBuckets(diffDays: int): (l: Label)
    ensures l.Ago?
    ensures diffDays >= 1 ==> l.count >= 1
    ensures diffDays < 7 ==> l == Ago(diffDays, Day)
    ensures 7 <= diffDays < 30 ==> l == Ago(diffDays / 7, Week)
    ensures 30 <= diffDays < 365 ==> l == Ago(diffDays / 30, Month)
    ensures 365 <= diffDays ==> l == Ago(diffDays / 365, Year)
  {
    if diffDays < 7 then Ago(diffDays, Day)
    else if diffDays < 30 then Ago(diffDays / 7, Week)
    else if diffDays < 365 then Ago(diffDays / 30, Month)
    else Ago(diffDays / 365, Year)
  }

  /** The corrected labels differ from the ones as written only where those report zero. */
  lemma HomeLabelFixedAgrees(c: Clock, t: int)
    ensures var days := (c.now - t) / DayMs;
            HomeLabelFixed(c, t) != HomeLabel(c, t) ==>
              || (HomeLabel(c, t) == Ago(0, Month) && 28 <= days < 30)
              || (HomeLabel(c, t) == Ago(0, Year) && 360 <= days < 365)
  {
    var days := (c.now - t) / DayMs;
    var today := IsSameDay(c.zone, c.now, t);
    var yesterday := IsSameDay(c.zone, ShiftDays(c.zone, c.now, -1), t);
    HomeLabelCases(c, t, today, yesterday);
    BucketsAgree(days);
  }

  /** For a post at least two days old and from neither today nor yesterday, the search
      screen's label is the corrected home label: the two screens then use the same buckets. */
  lemma SearchAgreesWithFixedHome(c: Clock, t: int)
    requires !IsSameDay(c.zone, c.now, t)
    requires !IsSameDay(c.zone, ShiftDays(c.zone, c.now, -1), t)
    requires 2 * DayMs <= c.now - t
    ensures SearchLabel(c.now, t) == HomeLabelFixed(c, t)
  {
    OldSearchLabel(c.now, t);
    OlderHomeLabelFixed(c, t);
  }

  lemma OldSearchLabel(now: int, t: int)
    requires 2 * DayMs <= now - t
    ensures SearchLabel(now, t) == FixedBuckets((now - t) / DayMs)
  {
  }

  /** Both label functions split the same way on today, yesterday and older posts. */
  lemma HomeLabelCases(c: Clock, t: int, today: bool, yesterday: bool)
    requires today == IsSameDay(c.zone, c.now, t)
    requires yesterday == IsSameDay(c.zone, ShiftDays(c.zone, c.now, -1), t)
    ensures today ==> HomeLabel(c, t) == Today == HomeLabelFixed(c, t)
    ensures !today && yesterday ==> HomeLabel(c, t) == Yesterday == HomeLabelFixed(c, t)
    ensures !today && !yesterday ==>
              && HomeLabel(c, t) == HomeBuckets((c.now - t) / DayMs)
              && HomeLabelFixed(c, t) == FixedBuckets((c.now - t) / DayMs)
  {
    if !today && !yesterday {
      OlderHomeLabel(c, t);
      OlderHomeLabelFixed(c, t);
    }
  }

  lemma OlderHomeLabelFixed(c: Clock, t: int)
    requires !IsSameDay(c.zone, c.now, t)
    requires !IsSameDay(c.zone, ShiftDays(c.zone, c.now, -1), t)
    ensures HomeLabelFixed(c, t) == FixedBuckets((c.now - t) / DayMs)
  {
  }

  lemma OlderHomeLabel(c: Clock, t: int)
    requires !IsSameDay(c.zone, c.now, t)
    requires !IsSameDay(c.zone, ShiftDays(c.zone, c.now, -1), t)
    ensures HomeLabel(c, t) == HomeBuckets((c.now - t) / DayMs)
  {
  }

  /** The two bucketings differ exactly on 28 and 29 days and on 360 to 364 days, where the
      one as written reports zero months or zero years. */
  lemma BucketsAgree(days: int)
    ensures FixedBuckets(days) != HomeBuckets(days) <==> 28 <= days < 30 || 360 <= days < 365
    ensures 28 <= days < 30 ==> HomeBuckets(days) == Ago(0, Month)
    ensures 360 <= days < 365 ==> HomeBuckets(days) == Ago(0, Year)
  {
    if days < 7 {
    } else if days < 28 {
      assert days / 7 < 4;
    } else if days < 30 {
      assert days / 7 == 4 && days / 30 == 0;
    } else if days < 360 {
      assert days / 7 >= 4 && days / 30 < 12;
    } else if days < 365 {
      assert days / 30 == 12 && days / 365 == 0;
    } else {
      assert days / 30 >= 12;
    }
  }
}
