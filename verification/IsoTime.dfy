/**
 * The calendar arithmetic with which a renewal turns timestamps into
 * milliseconds and back (src/mcp-server/lua/claims-renew.lua:39-86), at the
 * level of date fields. Lua's math.floor and % round down, as / and % do here.
 */
module IsoTime {
  datatype Date = Date(year: int, month: int, day: int)
  datatype Stamp = Stamp(date: Date, hour: int, minute: int, second: int, ms: int)

  /** Days before year yoe of a 400-year era, plus doy. */
  function DayOfEra(yoe: int, doy: int): int {
    yoe * 365 + yoe / 4 - yoe / 100 + doy
  }

  function YearOfEra(doe: int): int {
    (doe - doe / 1460 + doe / 36524 - doe / 146096) / 365
  }

  /** Months count from March: day of that year, and back to its month. */
  function DayOfYear(mp: int, day: int): int {
    (153 * mp + 2) / 5 + day - 1
  }

  function MonthOf(doy: int): int {
    (5 * doy + 2) / 153
  }

  function DaysFromCivil(d: Date): int {
    var yy := if d.month <= 2 then d.year - 1 else d.year;
    var era := yy / 400;
    var mp := d.month + if d.month > 2 then -3 else 9;
    era * 146097 + DayOfEra(yy - era * 400, DayOfYear(mp, d.day)) - 719468
  }

  function CivilFromDays(days: int): Date {
    var z := days + 719468;
    var era := z / 146097;
    var doe := z - era * 146097;
    var yoe := YearOfEra(doe);
    DateOf(yoe + era * 400, doe - DayOfEra(yoe, 0))
  }

  /** The date of day doy of the year that starts in March of year y. */
  function DateOf(y: int, doy: int): Date {
    var mp := MonthOf(doy);
    var m := mp + if mp < 10 then 3 else -9;
    Date(if m <= 2 then y + 1 else y, m, doy - DayOfYear(mp, 1) + 1)
  }

  function MsFromStamp(s: Stamp): int {
    (DaysFromCivil(s.date) * 86400 + s.hour * 3600 + s.minute * 60 + s.second) * 1000 + s.ms
  }

  function StampFromMs(ms: int): Stamp {
    var totalSecs := ms / 1000;
    var days := totalSecs / 86400;
    var rem := totalSecs % 86400;
    Stamp(CivilFromDays(days), rem / 3600, rem % 3600 / 60, rem % 60, ms - totalSecs * 1000)
  }

  // ----------------------------------------------------- the Gregorian calendar

  predicate Leap(year: int) {
    year % 4 == 0 && (year % 100 != 0 || year % 400 == 0)
  }

  function MonthLength(year: int, month: int): int {
    if month == 2 then if Leap(year) then 29 else 28
    else if month in {4, 6, 9, 11} then 30 else 31
  }

  predicate ValidDate(d: Date) {
    1 <= d.month <= 12 && 1 <= d.day <= MonthLength(d.year, d.month)
  }

  predicate ValidStamp(s: Stamp) {
    ValidDate(s.date) && 0 <= s.hour < 24 && 0 <= s.minute < 60 && 0 <= s.second < 60 && 0 <= s.ms < 1000
  }

  // ------------------------------------- years and days of a 400-year era

  /** The year that starts in March of year yoe ends in a February; is that one long? */
  predicate LongYear(yoe: int) {
    Leap(yoe + 1)
  }

  predicate YearDay(yoe: int, doy: int) {
    0 <= yoe < 400 && 0 <= doy <= if LongYear(yoe) then 365 else 364
  }

  /** Centuries, four-year cycles and years of a year of the era. */
  lemma Cycles(yoe: int, c: int, q: int, r: int)
    requires 0 <= c < 4 && 0 <= q < 25 && 0 <= r < 4 && yoe == 100 * c + 4 * q + r
    ensures 0 <= yoe < 400 && yoe / 4 == 25 * c + q && yoe / 100 == c
    ensures LongYear(yoe) <==> r == 3 && (q < 24 || c == 3)
    ensures forall doy :: DayOfEra(yoe, doy) == 36524 * c + 1461 * q + 365 * r + doy
  {
    assert (yoe + 1) % 4 == (r + 1) % 4;
    assert 4 * q + r + 1 <= 100;
    if 4 * q + r + 1 < 100 {
      assert (yoe + 1) % 100 == 4 * q + r + 1;
    } else {
      assert yoe + 1 == 100 * (c + 1);
    }
  }

  /** The closed formula finds the year. */
  lemma YearOfEraInCycles(c: int, q: int, r: int, doy: int)
    requires 0 <= c < 4 && 0 <= q < 25 && 0 <= r < 4
    requires 0 <= doy <= if r == 3 && (q < 24 || c == 3) then 365 else 364
    ensures var doe := 36524 * c + 1461 * q + 365 * r + doy;
            0 <= doe < 146097 && YearOfEra(doe) == 100 * c + 4 * q + r
  {
    var f := 365 * r + doy;
    var doe := 36524 * c + 1461 * q + f;
    var t := (24 * c + q + f) / 1460;
    assert doe == 1460 * (25 * c + q) + (24 * c + q + f);
    assert doe / 1460 == 25 * c + q + t;
    assert 0 <= t <= 1;
    assert doe / 36524 - doe / 146096 == c;
    assert doe - doe / 1460 + doe / 36524 - doe / 146096 == 365 * (100 * c + 4 * q) + (f - t);
    assert (f - t) / 365 == r;
  }

  lemma YearOfEraIsInverse(yoe: int, doy: int)
    requires YearDay(yoe, doy)
    ensures 0 <= DayOfEra(yoe, doy) < 146097 && YearOfEra(DayOfEra(yoe, doy)) == yoe
  {
    var c, q, r := yoe / 100, yoe % 100 / 4, yoe % 4;
    assert yoe % 100 % 4 == r;
    Cycles(yoe, c, q, r);
    YearOfEraInCycles(c, q, r, doy);
  }

  /** Every day of the era lies in some year. */
  lemma DayOfEraIsOnto(doe: int) returns (yoe: int, doy: int)
    requires 0 <= doe < 146097
    ensures YearDay(yoe, doy) && DayOfEra(yoe, doy) == doe
  {
    var c := if doe / 36524 < 4 then doe / 36524 else 3;
    var e := doe - 36524 * c;
    var q := if e / 1461 < 25 then e / 1461 else 24;
    var f := e - 1461 * q;
    var r := if f / 365 < 4 then f / 365 else 3;
    yoe, doy := 100 * c + 4 * q + r, f - 365 * r;
    Cycles(yoe, c, q, r);
  }

  // ------------------------------------------------ months counted from March

  /** Length of the month mp of the year that starts in March. */
  function MarchLength(mp: int, longYear: bool): int {
    if mp == 11 then if longYear then 29 else 28
    else if mp in {1, 3, 6, 8} then 30 else 31
  }

  lemma MonthOfDay(doy: int, longYear: bool)
    requires 0 <= doy <= if longYear then 365 else 364
    ensures var mp := MonthOf(doy);
            var day := doy - DayOfYear(mp, 1) + 1;
            0 <= mp < 12 && 1 <= day <= MarchLength(mp, longYear) && DayOfYear(mp, day) == doy
  {
  }

  lemma DayOfMonth(mp: int, day: int, longYear: bool)
    requires 0 <= mp < 12 && 1 <= day <= MarchLength(mp, longYear)
    ensures var doy := DayOfYear(mp, day);
            0 <= doy <= (if longYear then 365 else 364) && MonthOf(doy) == mp && doy - DayOfYear(mp, 1) + 1 == day
  {
  }

  lemma SameMod4(a: int, k: int)
    ensures (a + 4 * k) % 4 == a % 4
  {
  }

  lemma SameMod100(a: int, k: int)
    ensures (a + 100 * k) % 100 == a % 100
  {
  }

  lemma SameMod400(a: int, k: int)
    ensures (a + 400 * k) % 400 == a % 400
  {
  }

  lemma LeapOfEra(year: int, era: int, yoe: int)
    requires year == yoe + era * 400
    ensures Leap(year) <==> Leap(yoe)
  {
    SameMod4(yoe, 100 * era);
    SameMod100(yoe, 4 * era);
    SameMod400(yoe, era);
  }

  /** The months after December belong to the year that began the March before. */
  lemma MonthLengths(year: int, month: int)
    requires 1 <= month <= 12
    ensures var mp := month + if month > 2 then -3 else 9;
            && 0 <= mp < 12
            && MonthLength(year, month) == MarchLength(mp, Leap(if month <= 2 then year else year + 1))
  {
    hide Leap;
  }

  lemma EraOf(era: int, rest: int)
    requires 0 <= rest < 146097
    ensures (era * 146097 + rest) / 146097 == era
  {
  }

  lemma YearEraOf(era: int, yoe: int)
    requires 0 <= yoe < 400
    ensures (yoe + era * 400) / 400 == era
  {
  }

  lemma DayOf(days: int, secs: int)
    requires 0 <= secs < 86400
    ensures (days * 86400 + secs) / 86400 == days && (days * 86400 + secs) % 86400 == secs
  {
  }

  lemma SecondOf(secs: int, ms: int)
    requires 0 <= ms < 1000
    ensures (secs * 1000 + ms) / 1000 == secs
  {
  }

  lemma ClockOf(hour: int, minute: int, second: int)
    requires 0 <= minute < 60 && 0 <= second < 60
    ensures var secs := hour * 3600 + minute * 60 + second;
            secs / 3600 == hour && secs % 3600 / 60 == minute && secs % 60 == second
  {
    var secs := hour * 3600 + minute * 60 + second;
    assert secs / 3600 == hour;
    assert secs % 3600 == minute * 60 + second;
    assert secs == (hour * 60 + minute) * 60 + second;
  }

  // ---------------------------------------------------------------- round trips

  lemma DateOfIsValid(era: int, yoe: int, doy: int)
    requires YearDay(yoe, doy)
    ensures var d := DateOf(yoe + era * 400, doy);
            ValidDate(d) && DaysFromCivil(d) == era * 146097 + DayOfEra(yoe, doy) - 719468
  {
    var y := yoe + era * 400;
    var d := DateOf(y, doy);
    MonthOfDay(doy, LongYear(yoe));
    LeapOfEra(y + 1, era, yoe + 1);
    YearEraOf(era, yoe);
    hide Leap, MarchLength, MonthLength, MonthOf, DayOfYear, DayOfEra;
    MonthLengths(d.year, d.month);
  }

  /** CivilFromDays finds the era, the year and the day of the year. */
  lemma CivilOfParts(era: int, yoe: int, doy: int)
    requires YearDay(yoe, doy)
    ensures CivilFromDays(era * 146097 + DayOfEra(yoe, doy) - 719468) == DateOf(yoe + era * 400, doy)
  {
    YearOfEraIsInverse(yoe, doy);
    EraOf(era, DayOfEra(yoe, doy));
    DayOfEraAdds(yoe, doy);
    hide DayOfEra, YearOfEra, DateOf, YearDay;
    var days := era * 146097 + DayOfEra(yoe, doy) - 719468;
    assert days + 719468 == era * 146097 + DayOfEra(yoe, doy);
  }

  lemma DayOfEraAdds(yoe: int, doy: int)
    ensures DayOfEra(yoe, doy) == DayOfEra(yoe, 0) + doy
  {
  }

  lemma EraAndRest(z: int) returns (era: int, doe: int)
    ensures z == era * 146097 + doe && 0 <= doe < 146097
  {
    era, doe := z / 146097, z % 146097;
  }

  /** Every day has a valid date, and counting to it gives the day again. */
  lemma CivilFromDaysIsValid(days: int)
    ensures ValidDate(CivilFromDays(days)) && DaysFromCivil(CivilFromDays(days)) == days
  {
    hide DayOfEra, DateOf, YearDay, ValidDate, DaysFromCivil, CivilFromDays;
    var era, doe := EraAndRest(days + 719468);
    var yoe, doy := DayOfEraIsOnto(doe);
    CivilOfParts(era, yoe, doy);
    DateOfIsValid(era, yoe, doy);
  }

  lemma YearInEra(yy: int) returns (era: int, yoe: int)
    ensures era == yy / 400 && yy == yoe + era * 400 && 0 <= yoe < 400
  {
    era, yoe := yy / 400, yy % 400;
  }

  /** A valid date is the date of its era, year and day of the year. */
  lemma DateInParts(d: Date) returns (era: int, yoe: int, doy: int)
    requires ValidDate(d)
    ensures YearDay(yoe, doy) && DateOf(yoe + era * 400, doy) == d
    ensures DaysFromCivil(d) == era * 146097 + DayOfEra(yoe, doy) - 719468
  {
    var yy := if d.month <= 2 then d.year - 1 else d.year;
    era, yoe := YearInEra(yy);
    var mp := d.month + if d.month > 2 then -3 else 9;
    hide Leap, MonthLength, MarchLength, DayOfYear, MonthOf, DayOfEra;
    LeapOfEra(yy + 1, era, yoe + 1);
    MonthLengths(d.year, d.month);
    DayOfMonth(mp, d.day, LongYear(yoe));
    doy := DayOfYear(mp, d.day);
  }

  /** Distinct valid dates are distinct days: the date of a date's day is that date. */
  lemma CivilDaysRoundTrip(d: Date)
    requires ValidDate(d)
    ensures CivilFromDays(DaysFromCivil(d)) == d
  {
    hide DayOfEra, DateOf, YearDay, ValidDate, DaysFromCivil, CivilFromDays;
    var era, yoe, doy := DateInParts(d);
    CivilOfParts(era, yoe, doy);
  }

  /** Formatting an instant and parsing it back gives the instant, for every millisecond. */
  lemma InstantRoundTrip(ms: int)
    ensures ValidStamp(StampFromMs(ms)) && MsFromStamp(StampFromMs(ms)) == ms
  {
    hide DaysFromCivil, CivilFromDays, ValidDate;
    var totalSecs := ms / 1000;
    var days, rem := totalSecs / 86400, totalSecs % 86400;
    CivilFromDaysIsValid(days);
    ClockSplits(rem);
    assert totalSecs == days * 86400 + rem;
  }

  lemma ClockSplits(rem: int)
    requires 0 <= rem < 86400
    ensures rem == rem / 3600 * 3600 + rem % 3600 / 60 * 60 + rem % 60
    ensures 0 <= rem / 3600 < 24 && 0 <= rem % 3600 / 60 < 60 && 0 <= rem % 60 < 60
  {
  }

  /** And every valid timestamp is read back as written. */
  lemma StampRoundTrip(s: Stamp)
    requires ValidStamp(s)
    ensures StampFromMs(MsFromStamp(s)) == s
  {
    hide DaysFromCivil, CivilFromDays, ValidDate;
    var secs := s.hour * 3600 + s.minute * 60 + s.second;
    var days := DaysFromCivil(s.date);
    CivilDaysRoundTrip(s.date);
    SecondOf(days * 86400 + secs, s.ms);
    DayOf(days, secs);
    ClockOf(s.hour, s.minute, s.second);
  }

  // ------------------------------------------------- the order of the calendar

  /** a is earlier in the year, or in an earlier year. */
  predicate EarlierDate(a: Date, b: Date) {
    a.year < b.year || (a.year == b.year && (a.month < b.month || (a.month == b.month && a.day < b.day)))
  }

  /** The year that begins in March, its first day, and the day within it. */
  function MarchYear(d: Date): int {
    if d.month <= 2 then d.year - 1 else d.year
  }

  function MarchStart(y: int): int {
    y / 400 * 146097 + DayOfEra(y - y / 400 * 400, 0) - 719468
  }

  function MarchDay(d: Date): int {
    DayOfYear(d.month + if d.month > 2 then -3 else 9, d.day)
  }

  lemma DaysFromMarch(d: Date)
    ensures DaysFromCivil(d) == MarchStart(MarchYear(d)) + MarchDay(d)
  {
  }

  /** Each year that begins in March is as long as its February says. */
  lemma MarchYearLength(y: int)
    ensures MarchStart(y + 1) - MarchStart(y) == if Leap(y + 1) then 366 else 365
  {
    var era := y / 400;
    var yoe := y - era * 400;
    LeapOfEra(y + 1, era, yoe + 1);
    if yoe < 399 {
      YearEraOf(era, yoe + 1);
      assert (y + 1) / 400 == era;
      NextYearOfEra(yoe);
    } else {
      YearEraOf(era + 1, 0);
      assert (y + 1) / 400 == era + 1;
      assert Leap(400);
    }
  }

  lemma NextYearOfEra(yoe: int)
    requires 0 <= yoe < 399
    ensures DayOfEra(yoe + 1, 0) - DayOfEra(yoe, 0) == if Leap(yoe + 1) then 366 else 365
  {
    var n := yoe + 1;
    assert n / 4 - yoe / 4 == if n % 4 == 0 then 1 else 0;
    assert n / 100 - yoe / 100 == if n % 100 == 0 then 1 else 0;
    assert n % 400 != 0;
    if n % 100 == 0 { assert n == 4 * (25 * (n / 100)); }
  }

  lemma {:induction false} MarchStartGrows(y: int, z: int)
    requires y < z
    ensures MarchStart(z) >= MarchStart(y + 1)
    decreases z - y
  {
    if y + 1 < z {
      MarchYearLength(z - 1);
      MarchStartGrows(y, z - 1);
    }
  }

  lemma MarchDayInYear(d: Date)
    requires ValidDate(d)
    ensures 0 <= MarchDay(d) <= if Leap(MarchYear(d) + 1) then 365 else 364
  {
    var mp := d.month + if d.month > 2 then -3 else 9;
    MonthLengths(d.year, d.month);
    DayOfMonth(mp, d.day, Leap(MarchYear(d) + 1));
  }

  lemma MarchDayGrows(a: Date, b: Date)
    requires ValidDate(a) && ValidDate(b) && MarchYear(a) == MarchYear(b) && EarlierDate(a, b)
    ensures MarchDay(a) < MarchDay(b)
  {
    var mp, mq := a.month + (if a.month > 2 then -3 else 9), b.month + (if b.month > 2 then -3 else 9);
    MonthLengths(a.year, a.month);
    hide Leap;
    assert mp < mq || (mp == mq && a.day < b.day);
    if mp < mq { MonthsGrow(mp, mq, a.day, b.day); }
  }

  lemma MonthsGrow(mp: int, mq: int, day: int, later: int)
    requires 0 <= mp < mq < 12 && 1 <= day <= MarchLength(mp, true) && later >= 1
    ensures DayOfYear(mp, day) < DayOfYear(mq, later)
  {
    assert (153 * mq + 2) / 5 >= (153 * (mp + 1) + 2) / 5;
  }

  /** Counting days keeps the order of the calendar. */
  lemma DaysKeepOrder(a: Date, b: Date)
    requires ValidDate(a) && ValidDate(b) && EarlierDate(a, b)
    ensures DaysFromCivil(a) < DaysFromCivil(b)
  {
    DaysFromMarch(a);
    DaysFromMarch(b);
    MarchDayInYear(a);
    MarchDayInYear(b);
    if MarchYear(a) == MarchYear(b) {
      MarchDayGrows(a, b);
    } else {
      hide Leap, MarchDay, MarchStart;
      assert MarchYear(a) < MarchYear(b);
      MarchYearLength(MarchYear(a));
      MarchStartGrows(MarchYear(a), MarchYear(b));
    }
  }

  predicate EarlierStamp(a: Stamp, b: Stamp) {
    || EarlierDate(a.date, b.date)
    || (a.date == b.date && a.hour < b.hour)
    || (a.date == b.date && a.hour == b.hour && a.minute < b.minute)
    || (a.date == b.date && a.hour == b.hour && a.minute == b.minute && a.second < b.second)
    || (a.date == b.date && a.hour == b.hour && a.minute == b.minute && a.second == b.second && a.ms < b.ms)
  }

  /**
   * Milliseconds keep the order of timestamps, and start at the epoch: with
   * the round trips, no other numbering of the timestamps does.
   */
  lemma InstantsKeepOrder(a: Stamp, b: Stamp)
    requires ValidStamp(a) && ValidStamp(b) && EarlierStamp(a, b)
    ensures MsFromStamp(a) < MsFromStamp(b)
  {
    if EarlierDate(a.date, b.date) { DaysKeepOrder(a.date, b.date); }
    hide DaysFromCivil, EarlierDate;
  }

  lemma EpochIsZero()
    ensures MsFromStamp(Stamp(Date(1970, 1, 1), 0, 0, 0, 0)) == 0
  {
  }
}
