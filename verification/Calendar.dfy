/** The civil-date arithmetic of `rfc3339` in `src/lock.rs` and of
    `epoch_from_rfc3339` in `src/inspect.rs`, against the calendar itself. */
module Calendar {

  datatype Date = Date(year: int, month: int, day: int)

  // ----- the calendar: RFC 3339, section 5.7 and Appendix C -----

  predicate LeapYear(year: int) { year % 4 == 0 && (year % 100 != 0 || year % 400 == 0) }

  function DaysInMonth(year: int, month: int): int {
    if month == 2 then (if LeapYear(year) then 29 else 28)
    else if month in {4, 6, 9, 11} then 30
    else 31
  }

  predicate ValidDate(t: Date) { 1 <= t.month <= 12 && 1 <= t.day <= DaysInMonth(t.year, t.month) }

  /** The next day on the calendar. */
  function NextDay(t: Date): Date {
    if t.day < DaysInMonth(t.year, t.month) then Date(t.year, t.month, t.day + 1)
    else if t.month < 12 then Date(t.year, t.month + 1, 1)
    else Date(t.year + 1, 1, 1)
  }

  const EPOCH := Date(1970, 1, 1)

  /** The date `n` days after the epoch, counted day by day. */
  function DayAfterEpoch(n: nat): Date { if n == 0 then EPOCH else NextDay(DayAfterEpoch(n - 1)) }

  // ----- the two conversions as the program computes them -----

  function YearOfEra(doe: int): int { (doe - doe / 1460 + doe / 36524 - doe / 146096) / 365 }

  /** Days before March 1 of the given year of an era. */
  function YearStart(yoe: int): int { 365 * yoe + yoe / 4 - yoe / 100 }

  function DayOfYear(doe: int): int { doe - YearStart(YearOfEra(doe)) }

  function MonthFromMarch(doy: int): int { (5 * doy + 2) / 153 }

  function MonthStart(mp: int): int { (153 * mp + 2) / 5 }

  function CivilFromDays(days: int): Date {
    var z := days + 719468;
    DateInEra(z / 146097, z % 146097)
  }

  function DateInEra(era: int, doe: int): Date {
    var yoe := YearOfEra(doe);
    var y := yoe + era * 400;
    var doy := doe - (365 * yoe + yoe / 4 - yoe / 100);
    DateInYear(y, doy)
  }

  function DateInYear(y: int, doy: int): Date {
    var mp := MonthFromMarch(doy);
    var d := doy - MonthStart(mp) + 1;
    var m := if mp < 10 then mp + 3 else mp - 9;
    Date(if m <= 2 then y + 1 else y, m, d)
  }

  function DaysFromCivil(t: Date): int {
    var shifted := if t.month <= 2 then t.year - 1 else t.year;
    var era := shifted / 400;
    var yoe := shifted - era * 400;
    var mp := if t.month > 2 then t.month - 3 else t.month + 9;
    var doy := MonthStart(mp) + t.day - 1;
    var doe := yoe * 365 + yoe / 4 - yoe / 100 + doy;
    era * 146097 + doe - 719468
  }

  // ----- a year of an era, counted from March -----

  /** The length of a March-based year: its February is next year's. */
  function YearLength(yoe: int): int { if LeapYear(yoe + 1) then 366 else 365 }

  lemma YearStartStep(yoe: int)
    requires 0 <= yoe < 400
    ensures YearStart(yoe + 1) + (if yoe == 399 then 1 else 0) == YearStart(yoe) + YearLength(yoe)
  {}

  /** A day of an era as century, four-year cycle, year and day of the year. */
  predicate Parts(doe: int, c: int, q: int, s: int, k: int) {
    && 0 <= c < 4 && 0 <= q < 25 && 0 <= s < 4 && 0 <= k <= 365
    && doe == 36524 * c + 1461 * q + 365 * s + k
    && (k == 365 ==> s == 3 && (q == 24 ==> c == 3))
  }

  lemma SplitExists(doe: int) returns (c: int, q: int, s: int, k: int)
    requires 0 <= doe < 146097
    ensures Parts(doe, c, q, s, k)
  {
    c := if doe / 36524 < 4 then doe / 36524 else 3;
    var r := doe - 36524 * c;
    q := r / 1461;
    var t := r - 1461 * q;
    s := if t / 365 < 4 then t / 365 else 3;
    k := t - 365 * s;
  }

  lemma SplitParts(c: int, q: int, s: int)
    requires 0 <= c < 4 && 0 <= q < 25 && 0 <= s < 4
    ensures var yoe := 100 * c + 4 * q + s; yoe / 4 == 25 * c + q && yoe / 100 == c
  {}

  /** The year after is a leap year exactly at the end of a group of four, and at
      the end of a century only in the last one. */
  lemma SplitLeap(c: int, q: int, s: int)
    requires 0 <= c < 4 && 0 <= q < 25 && 0 <= s < 4
    ensures LeapYear(100 * c + 4 * q + s + 1) <==> s == 3 && (q == 24 ==> c == 3)
  {
    var next := 100 * c + 4 * q + s + 1;
    assert next % 4 == (s + 1) % 4;
    assert next % 100 == (4 * q + s + 1) % 100;
  }

  lemma SplitYear(c: int, q: int, s: int)
    requires 0 <= c < 4 && 0 <= q < 25 && 0 <= s < 4
    ensures var yoe := 100 * c + 4 * q + s;
      && YearStart(yoe) == 36524 * c + 1461 * q + 365 * s
      && YearLength(yoe) == if s == 3 && (q == 24 ==> c == 3) then 366 else 365
  {
    SplitParts(c, q, s);
    SplitLeap(c, q, s);
  }

  /** The formula reads the year off that split: the three corrections cancel
      the leap days exactly. */
  lemma YearOfEraReads(doe: int, c: int, q: int, s: int, k: int)
    requires Parts(doe, c, q, s, k)
    ensures YearOfEra(doe) == 100 * c + 4 * q + s
  {
    var e := if 24 * c + q + 365 * s + k >= 1460 then 1 else 0;
    assert doe / 1460 == 25 * c + q + e;
    if doe == 146096 {
      assert doe / 36524 == 4 && doe / 146096 == 1 && c == 3;
    } else {
      assert doe / 36524 == c && doe / 146096 == 0;
    }
    assert doe - doe / 1460 + doe / 36524 - doe / 146096 == 365 * (100 * c + 4 * q + s) + (k - e);
  }

  /** The formula for the year of an era picks the year whose days enclose the
      given one. */
  lemma YearOfEraEncloses(doe: int)
    requires 0 <= doe < 146097
    ensures 0 <= YearOfEra(doe) < 400
    ensures 0 <= DayOfYear(doe) < YearLength(YearOfEra(doe))
  {
    var c, q, s, k := SplitExists(doe);
    YearOfEraReads(doe, c, q, s, k);
    SplitYear(c, q, s);
  }

  /** And every day of a year is read as a day of that year. */
  lemma YearOfEraInverts(yoe: int, doy: int)
    requires 0 <= yoe < 400 && 0 <= doy < YearLength(yoe)
    ensures 0 <= YearStart(yoe) + doy < 146097
    ensures YearOfEra(YearStart(yoe) + doy) == yoe
  {
    var c, q, s := yoe / 100, yoe % 100 / 4, yoe % 4;
    assert yoe == 100 * c + 4 * q + s;
    SplitYear(c, q, s);
    YearOfEraReads(YearStart(yoe) + doy, c, q, s, doy);
  }

  /** Months counted from March. */
  lemma MonthEncloses(doy: int)
    requires 0 <= doy <= 365
    ensures 0 <= MonthFromMarch(doy) <= 11
    ensures MonthStart(MonthFromMarch(doy)) <= doy < MonthStart(MonthFromMarch(doy) + 1)
  {}

  function MonthOf(mp: int): int { if mp < 10 then mp + 3 else mp - 9 }

  /** The formula's months are as long as the calendar's; February takes what
      the year has left. */
  lemma MonthLengths(yoe: int, mp: int)
    requires 0 <= mp <= 11
    ensures mp < 11 ==> forall y :: DaysInMonth(y, MonthOf(mp)) == MonthStart(mp + 1) - MonthStart(mp)
    ensures mp == 11 ==> DaysInMonth(yoe + 1, MonthOf(mp)) == YearLength(yoe) - MonthStart(11)
    ensures MonthStart(11) == 337
  {}

  lemma LeapOfRemainder(j: int, r: int)
    requires 0 <= r < 400
    ensures LeapYear(400 * j + r) == LeapYear(r)
  {
    assert (400 * j + r) / 400 == j;
    assert (400 * j + r) / 100 == 4 * j + r / 100;
    assert (400 * j + r) / 4 == 100 * j + r / 4;
  }

  /** The leap rule repeats every 400 years. */
  lemma LeapInEra(year: int, k: int)
    ensures LeapYear(year + 400 * k) == LeapYear(year)
  {
    var j, r := year / 400, year % 400;
    LeapOfRemainder(j, r);
    LeapOfRemainder(j + k, r);
    assert 400 * (j + k) + r == year + 400 * k;
  }

  // ----- the theorems -----

  /** The March-based year, month and day of a date, within its era. */
  function Shifted(t: Date): int { if t.month <= 2 then t.year - 1 else t.year }

  function Era(t: Date): int { Shifted(t) / 400 }

  function YearIn(t: Date): int { Shifted(t) % 400 }

  function MarchMonth(t: Date): int { if t.month > 2 then t.month - 3 else t.month + 9 }

  lemma DaysFromCivilParts(t: Date)
    ensures DaysFromCivil(t) ==
            Era(t) * 146097 + YearStart(YearIn(t)) + MonthStart(MarchMonth(t)) + t.day - 1 - 719468
  {}

  lemma CivilParts(era: int, yoe: int, doy: int)
    requires 0 <= yoe < 400 && 0 <= doy < YearLength(yoe)
    ensures var t := DateInYear(yoe + era * 400, doy);
      && ValidDate(t) && Era(t) == era && YearIn(t) == yoe && MonthStart(MarchMonth(t)) + t.day - 1 == doy
  {
    MonthEncloses(doy);
    var mp := MonthFromMarch(doy);
    MonthLengths(yoe, mp);
    LeapInEra(yoe + 1, era);
    var t := DateInYear(yoe + era * 400, doy);
    assert t.month == MonthOf(mp) && MarchMonth(t) == mp;
    assert Shifted(t) == yoe + era * 400;
  }

  /** Every intermediate of `rfc3339` stays in its range, the date is a valid
      one, and the other formula reads the same day back. */
  lemma CivilIsValid(days: int)
    ensures var doe := (days + 719468) % 146097;
      && 0 <= doe <= 146096 && 0 <= YearOfEra(doe) <= 399
      && 0 <= DayOfYear(doe) <= 365 && 0 <= MonthFromMarch(DayOfYear(doe)) <= 11
    ensures ValidDate(CivilFromDays(days))
    ensures DaysFromCivil(CivilFromDays(days)) == days
  {
    var era, doe := (days + 719468) / 146097, (days + 719468) % 146097;
    YearOfEraEncloses(doe);
    MonthEncloses(DayOfYear(doe));
    CivilIs(days, era, doe);
    CivilCounts(era, YearOfEra(doe), DayOfYear(doe));
  }

  lemma CivilIs(days: int, era: int, doe: int)
    requires era == (days + 719468) / 146097 && doe == (days + 719468) % 146097
    ensures CivilFromDays(days) == DateInYear(YearOfEra(doe) + era * 400, DayOfYear(doe))
    ensures days == era * 146097 + YearStart(YearOfEra(doe)) + DayOfYear(doe) - 719468
  {}

  lemma CivilCounts(era: int, yoe: int, doy: int)
    requires 0 <= yoe < 400 && 0 <= doy < YearLength(yoe)
    ensures var t := DateInYear(yoe + era * 400, doy);
      ValidDate(t) && DaysFromCivil(t) == era * 146097 + YearStart(yoe) + doy - 719468
  {
    CivilParts(era, yoe, doy);
    DaysFromCivilParts(DateInYear(yoe + era * 400, doy));
  }

  /** How long the month of a date is, in March-based terms. */
  lemma MonthLengthOf(t: Date)
    requires ValidDate(t)
    ensures var mp := MarchMonth(t);
      && 0 <= mp <= 11 && MonthOf(mp) == t.month
      && DaysInMonth(t.year, t.month) ==
         if mp < 11 then MonthStart(mp + 1) - MonthStart(mp) else YearLength(YearIn(t)) - MonthStart(11)
  {
    MonthLengths(YearIn(t), MarchMonth(t));
    LeapInEra(YearIn(t) + 1, Era(t));
  }

  lemma DayOfYearOf(t: Date)
    requires ValidDate(t)
    ensures var doy := MonthStart(MarchMonth(t)) + t.day - 1;
      0 <= doy < YearLength(YearIn(t)) && MonthFromMarch(doy) == MarchMonth(t)
  {
    MonthLengthOf(t);
    MonthLengths(YearIn(t), MarchMonth(t));
  }

  lemma EraSplit(era: int, doe: int)
    requires 0 <= doe < 146097
    ensures (era * 146097 + doe) / 146097 == era && (era * 146097 + doe) % 146097 == doe
  {}

  lemma DateInEraOf(era: int, yoe: int, doy: int)
    requires 0 <= yoe < 400 && 0 <= doy < YearLength(yoe)
    ensures DateInEra(era, YearStart(yoe) + doy) == DateInYear(yoe + era * 400, doy)
  {
    YearOfEraInverts(yoe, doy);
  }

  lemma DateOfYearDay(era: int, yoe: int, doy: int, days: int)
    requires 0 <= yoe < 400 && 0 <= doy < YearLength(yoe)
    requires days == era * 146097 + (YearStart(yoe) + doy) - 719468
    ensures CivilFromDays(days) == DateInYear(yoe + era * 400, doy)
  {
    YearOfEraInverts(yoe, doy);
    EraSplit(era, YearStart(yoe) + doy);
    DateInEraOf(era, yoe, doy);
  }

  lemma ShiftBack(t: Date)
    ensures t.year == YearIn(t) + Era(t) * 400 + (if t.month <= 2 then 1 else 0)
  {}

  /** Every valid date is the date of its day number. */
  lemma DateInYearIs(t: Date)
    requires ValidDate(t)
    ensures DateInYear(YearIn(t) + Era(t) * 400, MonthStart(MarchMonth(t)) + t.day - 1) == t
  {
    DayOfYearOf(t);
    MonthLengthOf(t);
    ShiftBack(t);
  }

  lemma DaysInvertCivil(t: Date)
    requires ValidDate(t)
    ensures CivilFromDays(DaysFromCivil(t)) == t
  {
    var era, yoe, doy := Era(t), YearIn(t), MonthStart(MarchMonth(t)) + t.day - 1;
    DayOfYearOf(t);
    DaysFromCivilParts(t);
    DateOfYearDay(era, yoe, doy, DaysFromCivil(t));
    DateInYearIs(t);
  }

  /** One step on the calendar is one more day. */
  lemma NextDayInMonth(t: Date)
    requires ValidDate(t) && t.day < DaysInMonth(t.year, t.month)
    ensures ValidDate(NextDay(t)) && DaysFromCivil(NextDay(t)) == DaysFromCivil(t) + 1
  {
    DaysFromCivilParts(t);
    DaysFromCivilParts(NextDay(t));
  }

  lemma NextMonthInYear(t: Date)
    requires ValidDate(t) && t.day == DaysInMonth(t.year, t.month) && t.month != 2
    ensures ValidDate(NextDay(t)) && DaysFromCivil(NextDay(t)) == DaysFromCivil(t) + 1
  {
    MonthLengthOf(t);
    DaysFromCivilParts(t);
    DaysFromCivilParts(NextDay(t));
    assert Shifted(NextDay(t)) == Shifted(t);
  }

  lemma NextMarch(t: Date)
    requires ValidDate(t) && t.day == DaysInMonth(t.year, t.month) && t.month == 2
    ensures ValidDate(NextDay(t)) && DaysFromCivil(NextDay(t)) == DaysFromCivil(t) + 1
  {
    var next := NextDay(t);
    MonthLengthOf(t);
    DaysFromCivilParts(t);
    DaysFromCivilParts(next);
    YearStartStep(YearIn(t));
    assert Shifted(next) == Shifted(t) + 1;
    if YearIn(t) == 399 {
      assert YearIn(next) == 0 && Era(next) == Era(t) + 1;
    } else {
      assert YearIn(next) == YearIn(t) + 1 && Era(next) == Era(t);
    }
  }

  lemma NextDayCounts(t: Date)
    requires ValidDate(t)
    ensures ValidDate(NextDay(t)) && DaysFromCivil(NextDay(t)) == DaysFromCivil(t) + 1
  {
    if t.day < DaysInMonth(t.year, t.month) {
      NextDayInMonth(t);
    } else if t.month == 2 {
      NextMarch(t);
    } else {
      NextMonthInYear(t);
    }
  }

  /** `rfc3339` walks the calendar: each day's date is the successor of the one
      before. */
  lemma CivilWalksTheCalendar(days: int)
    ensures CivilFromDays(days + 1) == NextDay(CivilFromDays(days))
  {
    CivilIsValid(days);
    NextDayCounts(CivilFromDays(days));
    DaysInvertCivil(NextDay(CivilFromDays(days)));
  }

  lemma EpochIsDayZero()
    ensures CivilFromDays(0) == EPOCH
  {
    EraSplit(4, 135080);
    assert YearOfEra(135080) == 369;
  }

  /** Day `n` is the date reached by `n` steps from the epoch. */
  lemma {:induction false} CivilIsDayAfterEpoch(n: nat)
    ensures CivilFromDays(n) == DayAfterEpoch(n)
  {
    if n == 0 {
      EpochIsDayZero();
    } else {
      var before := n - 1;
      CivilIsDayAfterEpoch(before);
      CivilWalksTheCalendar(before);
    }
  }

  /** Conversely the day number of a valid date counts the steps to it. */
  lemma DaysCountSteps(n: nat)
    ensures ValidDate(DayAfterEpoch(n)) && DaysFromCivil(DayAfterEpoch(n)) == n
  {
    CivilIsDayAfterEpoch(n);
    CivilIsValid(n);
  }

  /** No valid date from 1970 on is missed. */
  lemma EveryDateIsReached(t: Date)
    requires ValidDate(t) && t.year >= 1970
    ensures DaysFromCivil(t) >= 0 && DayAfterEpoch(DaysFromCivil(t)) == t
  {
    DaysFromCivilParts(t);
    MonthLengthOf(t);
    assert DaysFromCivil(t) >= 0;
    DaysInvertCivil(t);
    CivilIsDayAfterEpoch(DaysFromCivil(t));
  }

  /** Of all month and day numbers a reader might accept, exactly the dates on
      the calendar come back from their day number; a day the month does not
      have is read as another date. */
  lemma OnlyValidDatesComeBack(t: Date)
    requires 1 <= t.month <= 12 && 1 <= t.day <= 31
    ensures CivilFromDays(DaysFromCivil(t)) == t <==> ValidDate(t)
  {
    CivilIsValid(DaysFromCivil(t));
    if ValidDate(t) {
      DaysInvertCivil(t);
    }
  }
}
