/** Local calendar arithmetic behind JavaScript's `Date`: a timestamp is an integer number of
    milliseconds since the epoch, and local time is UTC shifted by a fixed zone offset. */
module Calendar {

  /** Milliseconds in one day (`24 * 60 * 60 * 1000`). */
  const DayMs: int := 86400000

  /** The device's time zone, as a fixed offset: local time = UTC + `offsetMs`. */
  datatype Zone = Zone(offsetMs: int)

  /** The reading of the clock used by one evaluation, together with the zone it is read in. */
  datatype Clock = Clock(now: int, zone: Zone)

  /** A local calendar date as `getFullYear()`, `getMonth()` (0 = January) and `getDate()` report it. */
  datatype CivilDate = CivilDate(year: int, month: int, day: int)

  /** Number of the local day containing timestamp `t` (day 0 is 1970-01-01). */
  function LocalDay(z: Zone, t: int): int {
    (t + z.offsetMs) / DayMs
  }

  /** The year of a 400-year era (counted from March 1st) holding day `doe` of that era. */
  function YearOfEra(doe: int): int {
    (doe - doe / 1460 + doe / 36524 - doe / 146096) / 365
  }

  /** The day of the era on which year `yoe` of the era starts. */
  function StartOfYear(yoe: int): int {
    365 * yoe + yoe / 4 - yoe / 100
  }

  /** Calendar date of a day number in the proleptic Gregorian calendar (H. Hinnant's algorithm). */
  function CivilFromDays(days: int): CivilDate {
    var z := days + 719468;
    var era := z / 146097;
    var doe := z % 146097;
    var yoe := YearOfEra(doe);
    DateInEra(era, yoe, doe - StartOfYear(yoe))
  }

  /** The date of day `doy` (counted from March 1st) of year `yoe` of era `era`. */
  function DateInEra(era: int, yoe: int, doy: int): CivilDate {
    var mp := (5 * doy + 2) / 153;
    var d := doy - (153 * mp + 2) / 5 + 1;
    var m := if mp < 10 then mp + 3 else mp - 9;
    CivilDate(if m <= 2 then yoe + era * 400 + 1 else yoe + era * 400, m - 1, d)
  }

  /** Day number of the first day of month `month` (0-based) of `year`. */
  function DaysFromCivil(year: int, month: int): int
    requires 0 <= month < 12
  {
    var m := month + 1;
    var y := if m <= 2 then year - 1 else year;
    var era := y / 400;
    var yoe := y % 400;
    var mp := if m > 2 then m - 3 else m + 9;
    var doy := (153 * mp + 2) / 5;
    var doe := StartOfYear(yoe) + doy;
    era * 146097 + doe - 719468
  }

  /** `CivilFromDays` gives a valid date, and `DaysFromCivil` undoes it: a day number is the
      first day of its date's month plus the day of the month, less one. */
  lemma DaysFromCivilRoundTrip(days: int)
    ensures var c := CivilFromDays(days);
            && 0 <= c.month < 12 && 1 <= c.day <= 31
            && DaysFromCivil(c.year, c.month) + c.day - 1 == days
  {
    var era, yoe, doy := EraOfDay(days);
    DateInEraRoundTrip(era, yoe, doy);
  }

  /** The era, year of era and day of year `CivilFromDays` finds for day number `days`. */
  lemma EraOfDay(days: int) returns (era: int, yoe: int, doy: int)
    ensures 0 <= yoe < 400 && 0 <= doy < 366
    ensures CivilFromDays(days) == DateInEra(era, yoe, doy)
    ensures era * 146097 + StartOfYear(yoe) + doy - 719468 == days
  {
    var z := days + 719468;
    era := z / 146097;
    var doe := z % 146097;
    YearOfEraBounds(doe);
    yoe := YearOfEra(doe);
    doy := doe - StartOfYear(yoe);
  }

  /** The date of a day of an era is valid, and `DaysFromCivil` recovers the day from it. */
  lemma DateInEraRoundTrip(era: int, yoe: int, doy: int)
    requires 0 <= yoe < 400 && 0 <= doy < 366
    ensures var c := DateInEra(era, yoe, doy);
            && 0 <= c.month < 12 && 1 <= c.day <= 31
            && DaysFromCivil(c.year, c.month) + c.day - 1 == era * 146097 + StartOfYear(yoe) + doy - 719468
  {
    MonthOfYearBounds(doy);
    MonthStart(era, yoe, (5 * doy + 2) / 153);
  }

  /** Day `doy` of a year counted from March 1st lies in month `mp` of that year, on one of
      its 31 first days. */
  lemma MonthOfYearBounds(doy: int)
    requires 0 <= doy < 366
    ensures var mp := (5 * doy + 2) / 153;
            0 <= mp < 12 && 1 <= doy - (153 * mp + 2) / 5 + 1 <= 31
  {
  }

  /** The first day of the month `mp` months after March 1st of year `yoe` of era `era`. */
  lemma MonthStart(era: int, yoe: int, mp: int)
    requires 0 <= yoe < 400 && 0 <= mp < 12
    ensures var m := if mp < 10 then mp + 3 else mp - 9;
            DaysFromCivil(if m <= 2 then yoe + era * 400 + 1 else yoe + era * 400, m - 1)
              == era * 146097 + StartOfYear(yoe) + (153 * mp + 2) / 5 - 719468
  {
    var y := yoe + era * 400;
    assert y / 400 == era && y % 400 == yoe;
  }

  /** Every day of an era lies in year `YearOfEra(doe)` of it, and no year is longer than 366
      days. */
  lemma YearOfEraBounds(doe: int)
    requires 0 <= doe < 146097
    ensures 0 <= YearOfEra(doe) < 400
    ensures 0 <= doe - StartOfYear(YearOfEra(doe)) < 366
  {
    if doe < 146096 {
      var r := doe % 36524;
      YearInBlock(doe, doe / 36524, r / 1461, r % 1461);
    }
  }

  /** Day `s` of the `j`-th four-year block of century `b` of an era: the year found for it
      starts at most 365 days (366 in a leap year) before it. */
  lemma YearInBlock(doe: int, b: int, j: int, s: int)
    requires 0 <= b < 4 && 0 <= j < 25 && 0 <= s < 1461 && (j == 24 ==> s < 1460)
    requires doe == 36524 * b + 1461 * j + s
    ensures 100 * b <= YearOfEra(doe) < 100 * (b + 1)
    ensures 0 <= doe - StartOfYear(YearOfEra(doe)) < 366
  {
    var delta := (24 * b + j + s) / 1460;
    assert 0 <= delta <= 1;
    assert doe / 1460 == 25 * b + j + delta;
    assert doe / 36524 == b && doe / 146096 == 0;
    var t := (s - delta) / 365;
    assert 0 <= t < 4;
    var y := 100 * b + 4 * j + t;
    assert YearOfEra(doe) == y;
    assert y / 4 == 25 * b + j && y / 100 == b;
    assert StartOfYear(y) == 36524 * b + 1461 * j + 365 * t;
  }

  /** Day numbers 0 to 30 are January 1st to 31st, 1970: the epoch is 1970-01-01. */
  lemma January1970(d: int)
    requires 0 <= d < 31
    ensures CivilFromDays(d) == CivilDate(1970, 0, d + 1)
    ensures DaysFromCivil(1970, 0) == 0
  {
    var z := d + 719468;
    assert z / 146097 == 4;
    assert z % 146097 == d + 135080;
    var doe := d + 135080;
    assert doe / 1460 == 92 && doe / 36524 == 3 && doe / 146096 == 0;
    assert YearOfEra(doe) == 369;
    assert StartOfYear(369) == 134774;
    assert CivilFromDays(d) == DateInEra(4, 369, d + 306);
    assert (5 * (d + 306) + 2) / 153 == 10;
    assert (153 * 10 + 2) / 5 == 306;
    assert DateInEra(4, 369, d + 306) == CivilDate(1970, 0, d + 1);
  }

  /** Local calendar date of timestamp `t`. */
  function DateOf(z: Zone, t: int): CivilDate {
    CivilFromDays(LocalDay(z, t))
  }

  /** `isSameDay`: equal local year, month and day of month, which holds exactly when the two
      instants fall on the same local day number. Two instants also have the same
      `toDateString()` exactly when this holds. */
  predicate IsSameDay(z: Zone, a: int, b: int): (same: bool)
    ensures same <==> LocalDay(z, a) == LocalDay(z, b)
  {
    DaysFromCivilRoundTrip(LocalDay(z, a));
    DaysFromCivilRoundTrip(LocalDay(z, b));
    var da, db := DateOf(z, a), DateOf(z, b);
    da.year == db.year && da.month == db.month && da.day == db.day
  }

  /** The `(year, month)` that `MakeDay` uses for a month index outside `0..11`: whole years
      are carried out of the month, so a negative month rolls into an earlier year. */
  function NormalizeMonth(year: int, month: int): (r: (int, int))
    ensures 0 <= r.1 < 12
    ensures r.0 * 12 + r.1 == year * 12 + month
    ensures 0 <= month < 12 ==> r == (year, month)
    ensures -12 <= month < 0 ==> r == (year - 1, month + 12)
  {
    (year + month / 12, month % 12)
  }

  /** `new Date(year, month, day)` read back as a timestamp: local midnight of the given date,
      with the month carried into the year, an out-of-range day carried into the following or
      preceding months, and a two-digit year 0..99 read as 1900..1999. */
  function LocalMidnight(z: Zone, year: int, month: int, day: int): (t: int)
    ensures LocalDay(z, t) == DaysFromCivil(NormalizeMonth(if 0 <= year <= 99 then 1900 + year else year, month).0,
                                            NormalizeMonth(if 0 <= year <= 99 then 1900 + year else year, month).1) + day - 1
    ensures (t + z.offsetMs) % DayMs == 0
  {
    var y := if 0 <= year <= 99 then 1900 + year else year;
    var ym := NormalizeMonth(y, month);
    (DaysFromCivil(ym.0, ym.1) + day - 1) * DayMs - z.offsetMs
  }

  /** The instant `k` local days after `t` at the same local time of day (`setDate(getDate() + k)`);
      with a fixed offset every local day is exactly `DayMs` long. */
  function ShiftDays(z: Zone, t: int, k: int): (r: int)
    ensures r == t + k * DayMs
    ensures LocalDay(z, r) == LocalDay(z, t) + k
  {
    t + k * DayMs
  }

  /** `new Date(now.getFullYear(), now.getMonth() - k, now.getDate())`: local midnight of the
      same day of the month, `k` months before now. */
  function MonthsBefore(c: Clock, k: int): int {
    var d := DateOf(c.zone, c.now);
    LocalMidnight(c.zone, d.year, d.month - k, d.day)
  }

  /** Going back `k` months from a date of a four-digit year stays in that year while the
      month index stays non-negative, and rolls into the previous year (month + 12 - k) when it
      goes negative; `MonthsBefore` applies this to today's date. */
  lemma MonthsBeforeRollover(z: Zone, year: int, month: int, day: int, k: int)
    requires year >= 100
    ensures 0 <= month - k < 12 ==>
              LocalDay(z, LocalMidnight(z, year, month - k, day)) == DaysFromCivil(year, month - k) + day - 1
    ensures -12 <= month - k < 0 ==>
              LocalDay(z, LocalMidnight(z, year, month - k, day)) == DaysFromCivil(year - 1, month - k + 12) + day - 1
  {
  }
}
