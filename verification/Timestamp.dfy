/** RFC 3339 timestamps as text: written by `rfc3339` in `src/lock.rs`, read by
    `epoch_from_rfc3339` in `src/inspect.rs` (RFC 3339, section 5.6). */
module Timestamp {
  import opened Text
  import opened Calendar

  const I64_MAX := 0x7FFF_FFFF_FFFF_FFFF

  predicate InI64(n: int) { -I64_MAX - 1 <= n <= I64_MAX }

  // ----- writing -----

  predicate Digits(s: string) { forall c <- s :: IsDigit(c) }

  function Digit(n: int): char
    requires 0 <= n < 10
  {
    '0' + (n as char)
  }

  function Decimal(n: nat): (s: string)
    ensures s != "" && Digits(s)
  {
    if n < 10 then [Digit(n)] else Decimal(n / 10) + [Digit(n % 10)]
  }

  predicate ZerosOnly(s: string) { forall i | 0 <= i < |s| :: s[i] == '0' }

  function Zeros(n: int): (s: string)
    ensures Digits(s) && ZerosOnly(s)
    decreases n
  {
    if n <= 0 then "" else "0" + Zeros(n - 1)
  }

  /** A number in decimal, filled up with zeros on the left. */
  function Padded(n: nat, width: nat): (s: string)
    ensures s != "" && Digits(s)
  {
    Zeros(width - |Decimal(n)|) + Decimal(n)
  }

  function DateText(t: Date): string
    requires t.year >= 0 && t.month >= 0 && t.day >= 0
  {
    Padded(t.year, 4) + "-" + (Padded(t.month, 2) + "-" + Padded(t.day, 2))
  }

  function ClockText(rem: nat): string {
    Padded(rem / 3600, 2) + ":" + (Padded(rem % 3600 / 60, 2) + ":" + (Padded(rem % 60, 2) + "Z"))
  }

  lemma CivilYearNotNegative(days: nat)
    ensures var t := CivilFromDays(days); t.year >= 1970 && t.month >= 1 && t.day >= 1
  {
    CivilIsValid(days);
    CivilIsDayAfterEpoch(days);
    YearsDoNotFall(days);
  }

  lemma {:induction false} YearsDoNotFall(n: nat)
    ensures DayAfterEpoch(n).year >= 1970
  {
    if n > 0 {
      YearsDoNotFall(n - 1);
    }
  }

  function Rfc3339(secs: nat): string {
    var t := CivilFromDays(secs / 86400);
    CivilYearNotNegative(secs / 86400);
    DateText(t) + "T" + ClockText(secs % 86400)
  }

  predicate AllInI64(ns: seq<int>) { forall n <- ns :: InI64(n) }

  /** Every 64-bit count of seconds is formatted without overflow: each
      intermediate of `rfc3339` has its range, and each step on the way to one
      fits. */
  lemma FormattingFits(secs: nat)
    requires secs < 0x1_0000_0000_0000_0000
    ensures var z := secs / 86400 + 719468;
      var era, doe := z / 146097, z % 146097;
      var yoe, doy := YearOfEra(doe), DayOfYear(doe);
      var y, mp := yoe + era * 400, MonthFromMarch(doy);
      && 0 <= doe <= 146096 && 0 <= yoe <= 399 && 0 <= doy <= 365 && 0 <= mp <= 11
      && 0 <= era <= z && 0 <= y <= 400 * z + 399 && 1 <= doy - MonthStart(mp) + 1 <= 31
      && AllInI64([z, era, doe, doe - doe / 1460 + doe / 36524, yoe, era * 400, y + 1])
      && AllInI64([365 * yoe + yoe / 4, YearStart(yoe), doy, 5 * doy + 2, 153 * mp + 2])
  {
    var z := secs / 86400 + 719468;
    var doe := z % 146097;
    YearOfEraEncloses(doe);
    MonthEncloses(DayOfYear(doe));
    CivilParts(z / 146097, YearOfEra(doe), DayOfYear(doe));
  }

  // ----- reading -----

  function TakeDigits(s: string): string {
    if s != "" && IsDigit(s[0]) then [s[0]] + TakeDigits(s[1..]) else ""
  }

  function DigitValue(c: char): nat
    requires IsDigit(c)
  {
    c as int - '0' as int
  }

  function NumberOf(digits: string): nat
    requires Digits(digits)
  {
    if digits == "" then 0
    else 10 * NumberOf(digits[..|digits| - 1]) + DigitValue(digits[|digits| - 1])
  }

  lemma {:induction false} TakeDigitsAreDigits(s: string)
    ensures Digits(TakeDigits(s))
  {
    if s != "" && IsDigit(s[0]) {
      TakeDigitsAreDigits(s[1..]);
    }
  }

  /** The digits a field starts with; none, or more than an `i64` holds, is no
      number. */
  function LeadingNumber(field: string): Option<int> {
    TakeDigitsAreDigits(field);
    var digits := TakeDigits(field);
    if digits == "" || NumberOf(digits) > I64_MAX then None else Some(NumberOf(digits))
  }

  datatype Stamp =
    | NotAStamp
    | At(secs: int)
    | Overflow  // the arithmetic leaves the 64-bit range

  /** The three fields of the date and the two used of the time. */
  function Fields(stamp: string): Option<(int, int, int, int, int)> {
    var t := IndexOf(stamp, 'T');
    if t == |stamp| then None
    else
      var date, clock := Split(stamp[..t], '-'), Split(stamp[t + 1..], ':');
      if |date| < 3 || |clock| < 2 then None
      else
        match (LeadingNumber(date[0]), LeadingNumber(date[1]), LeadingNumber(date[2]),
               LeadingNumber(clock[0]), LeadingNumber(clock[1]))
        case (Some(y), Some(m), Some(d), Some(h), Some(mi)) => Some((y, m, d, h, mi))
        case _ => None
  }

  function EpochFromRfc3339(stamp: string): Stamp {
    match Fields(stamp)
    case None => NotAStamp
    case Some((year, month, day, hour, minute)) =>
      if !(1 <= month <= 12) || !(1 <= day <= 31) || hour > 23 || minute > 59 then NotAStamp
      else
        var t := Date(year, month, day);
        var days := DaysFromCivil(t);
        if !InI64(Era(t) * 146097) || !InI64(days + 719468) || !InI64(days)
           || !InI64(days * 86400) || !InI64(days * 86400 + hour * 3600 + minute * 60)
        then Overflow
        else At(days * 86400 + hour * 3600 + minute * 60)
  }

  // ----- the round trip -----

  lemma {:induction false} NumberOfDecimal(n: nat)
    ensures NumberOf(Decimal(n)) == n
  {
    if n >= 10 {
      NumberOfDecimal(n / 10);
      var s := Decimal(n / 10) + [Digit(n % 10)];
      assert s[..|s| - 1] == Decimal(n / 10);
    }
  }

  /** Digits are a number's decimal after some zeros. */
  lemma {:induction false} DigitsAreDecimal(digits: string) returns (k: nat)
    requires Digits(digits) && digits != ""
    ensures digits == Zeros(k) + Decimal(NumberOf(digits))
  {
    var n := |digits| - 1;
    var front, c := digits[..n], digits[n];
    assert digits == front + [c] && [Digit(DigitValue(c))] == [c];
    if front == "" {
      k := 0;
      assert NumberOf(front) == 0;
    } else {
      k := DigitsAreDecimal(front);
      var m := NumberOf(front);
      assert (10 * m + DigitValue(c)) / 10 == m && (10 * m + DigitValue(c)) % 10 == DigitValue(c);
      if m == 0 {
        OneMoreZero(k);
        k := k + 1;
      }
    }
  }

  lemma {:induction false} OneMoreZero(k: nat)
    ensures Zeros(k) + "0" == Zeros(k + 1)
  {
    if k > 0 {
      OneMoreZero(k - 1);
      SeqAssociative("0", Zeros(k - 1), "0");
    }
  }

  lemma {:induction false} NumberOfZeros(k: int, digits: string)
    requires Digits(digits)
    ensures NumberOf(Zeros(k) + digits) == NumberOf(digits)
    decreases |digits|, k
  {
    if digits == "" {
      assert Zeros(k) + digits == Zeros(k);
      ZerosAreNothing(Zeros(k));
    } else {
      var n := |digits| - 1;
      var s := Zeros(k) + digits;
      assert s[..|s| - 1] == Zeros(k) + digits[..n];
      NumberOfZeros(k, digits[..n]);
    }
  }

  lemma {:induction false} ZerosAreNothing(s: string)
    requires ZerosOnly(s) && Digits(s)
    ensures NumberOf(s) == 0
  {
    if s != "" {
      ZerosAreNothing(s[..|s| - 1]);
    }
  }

  lemma {:induction false} TakesItsDigits(digits: string, rest: string)
    requires Digits(digits)
    requires rest == "" || !IsDigit(rest[0])
    ensures TakeDigits(digits + rest) == digits
  {
    if digits == "" {
      assert digits + rest == rest;
    } else {
      assert (digits + rest)[1..] == digits[1..] + rest;
      TakesItsDigits(digits[1..], rest);
    }
  }

  lemma PaddedReads(n: nat, width: nat, rest: string)
    requires n <= I64_MAX && (rest == "" || !IsDigit(rest[0]))
    ensures LeadingNumber(Padded(n, width) + rest) == Some(n)
  {
    TakesItsDigits(Padded(n, width), rest);
    NumberOfZeros(width - |Decimal(n)|, Decimal(n));
    NumberOfDecimal(n);
  }

  lemma DigitsHold(digits: string, c: char)
    requires Digits(digits) && !IsDigit(c)
    ensures c !in digits
  {}

  lemma ThreeFields(a: string, b: string, c: string, sep: char)
    requires sep !in a && sep !in b && sep !in c
    ensures Split(a + [sep] + (b + [sep] + c), sep) == [a, b, c]
  {
    SplitStep(a, sep, b + [sep] + c);
    SplitStep(b, sep, c);
    IndexOfAbsent(c, sep);
    assert Split(c, sep) == [c];
  }

  lemma SplitPrefix(field: string, more: string, sep: char)
    requires sep !in field
    ensures Split(field + more, sep)[0] == field + more[..IndexOf(more, sep)]
  {
    var at := IndexOf(more, sep);
    if at == |more| {
      IndexOfAbsent(field + more, sep);
      assert more[..at] == more;
    } else {
      assert field + more == field + more[..at] + [sep] + more[at + 1..];
      SplitStep(field + more[..at], sep, more[at + 1..]);
    }
  }

  /** The second field runs to the next separator, if there is one. */
  lemma TwoFields(a: string, b: string, tail: string, sep: char)
    requires sep !in a && sep !in b
    ensures var f := Split(a + [sep] + (b + tail), sep);
      |f| >= 2 && f[0] == a && f[1] == b + tail[..IndexOf(tail, sep)]
  {
    SplitStep(a, sep, b + tail);
    SplitPrefix(b, tail, sep);
  }

  lemma DateShape(y: string, m: string, d: string)
    requires Digits(y) && Digits(m) && Digits(d)
    ensures Split(y + "-" + (m + "-" + d), '-') == [y, m, d]
    ensures 'T' !in y + "-" + (m + "-" + d)
  {
    DigitsHold(y, '-');
    DigitsHold(m, '-');
    DigitsHold(d, '-');
    DigitsHold(y, 'T');
    DigitsHold(m, 'T');
    DigitsHold(d, 'T');
    ThreeFields(y, m, d, '-');
  }

  /** A date as `rfc3339` writes it splits into its three numbers. */
  lemma DateReads(t: Date)
    requires 0 <= t.year <= I64_MAX && 0 <= t.month <= I64_MAX && 0 <= t.day <= I64_MAX
    ensures var f := Split(DateText(t), '-');
      && |f| == 3 && LeadingNumber(f[0]) == Some(t.year)
      && LeadingNumber(f[1]) == Some(t.month) && LeadingNumber(f[2]) == Some(t.day)
    ensures 'T' !in DateText(t)
  {
    DateShape(Padded(t.year, 4), Padded(t.month, 2), Padded(t.day, 2));
    PaddedIsNumber(t.year, 4);
    PaddedIsNumber(t.month, 2);
    PaddedIsNumber(t.day, 2);
  }

  lemma PaddedIsNumber(n: nat, width: nat)
    requires n <= I64_MAX
    ensures LeadingNumber(Padded(n, width)) == Some(n)
  {
    PaddedReads(n, width, "");
    assert Padded(n, width) + "" == Padded(n, width);
  }

  /** The hour and minute, whatever follows them. */
  lemma ClockReads(hour: nat, minute: nat, tail: string)
    requires hour <= I64_MAX && minute <= I64_MAX && (tail == "" || !IsDigit(tail[0]))
    ensures var f := Split(Padded(hour, 2) + ":" + (Padded(minute, 2) + tail), ':');
      |f| >= 2 && LeadingNumber(f[0]) == Some(hour) && LeadingNumber(f[1]) == Some(minute)
  {
    var h, m := Padded(hour, 2), Padded(minute, 2);
    DigitsHold(h, ':');
    DigitsHold(m, ':');
    TwoFields(h, m, tail, ':');
    PaddedIsNumber(hour, 2);
    PaddedReads(minute, 2, tail[..IndexOf(tail, ':')]);
  }

  lemma SplitAtT(date: string, time: string)
    requires 'T' !in date
    ensures var s := date + "T" + time; var t := IndexOf(s, 'T'); t < |s| && s[..t] == date && s[t + 1..] == time
  {
    var s := date + "T" + time;
    assert s[..|date|] == date && s[|date| + 1..] == time;
    IndexOfIs(s, 'T', |date|);
  }

  /** Any date and time of day as numbers, followed by anything but another
      digit, are read as those numbers. */
  lemma StampReads(t: Date, hour: nat, minute: nat, tail: string)
    requires 0 <= t.year <= I64_MAX && 0 <= t.month <= I64_MAX && 0 <= t.day <= I64_MAX
    requires hour <= I64_MAX && minute <= I64_MAX
    requires tail == "" || !IsDigit(tail[0])
    ensures Fields(DateText(t) + "T" + (Padded(hour, 2) + ":" + (Padded(minute, 2) + tail)))
            == Some((t.year, t.month, t.day, hour, minute))
  {
    var date, time := DateText(t), Padded(hour, 2) + ":" + (Padded(minute, 2) + tail);
    DateReads(t);
    ClockReads(hour, minute, tail);
    SplitAtT(date, time);
  }

  /** Such a stamp is refused exactly when its month, day, hour or minute is out
      of range. */
  lemma OutOfRangeIsRefused(t: Date, hour: nat, minute: nat, tail: string)
    requires 0 <= t.year <= I64_MAX && 0 <= t.month <= I64_MAX && 0 <= t.day <= I64_MAX
    requires hour <= I64_MAX && minute <= I64_MAX && (tail == "" || !IsDigit(tail[0]))
    ensures EpochFromRfc3339(DateText(t) + "T" + (Padded(hour, 2) + ":" + (Padded(minute, 2) + tail))).NotAStamp? <==>
              t.month < 1 || t.month > 12 || t.day < 1 || t.day > 31 || hour > 23 || minute > 59
  {
    StampReads(t, hour, minute, tail);
  }

  // ----- the shape of what is written -----

  /** Two decimal digits of a number below a hundred. */
  predicate TwoAt(s: string, i: nat, n: int) {
    && i + 1 < |s| && 0 <= n < 100
    && s[i] as int == '0' as int + n / 10 && s[i + 1] as int == '0' as int + n % 10
  }

  lemma DecimalOfTwo(n: nat)
    requires n < 100
    ensures Padded(n, 2) == [Digit(n / 10), Digit(n % 10)]
  {
    if n < 10 {
      assert Zeros(1) == "0" + Zeros(0) == "0";
      assert Decimal(n) == [Digit(n)];
    } else {
      assert Decimal(n / 10) == [Digit(n / 10)];
      assert Decimal(n) == [Digit(n / 10), Digit(n % 10)];
      assert Zeros(0) == "";
    }
  }

  lemma DecimalOfFour(n: nat)
    requires 1000 <= n < 10000
    ensures Padded(n, 4) == Padded(n / 100, 2) + Padded(n % 100, 2)
  {
    DecimalOfTwo(n / 100);
    DecimalOfTwo(n % 100);
    assert Decimal(n / 100) == [Digit(n / 1000), Digit(n / 100 % 10)] by {
      assert Decimal(n / 1000) == [Digit(n / 1000)] && n / 100 / 10 == n / 1000;
    }
    assert n / 10 / 10 == n / 100 && n / 10 % 10 == n % 100 / 10 && n % 100 % 10 == n % 10;
    assert Decimal(n / 10) == Decimal(n / 100) + [Digit(n / 10 % 10)];
    assert Decimal(n) == Decimal(n / 10) + [Digit(n % 10)];
    assert Zeros(0) == "";
  }

  predicate DateShaped(s: string, t: Date) {
    && |s| == 10 && s[4] == '-' && s[7] == '-' && 0 <= t.year < 10000
    && TwoAt(s, 0, t.year / 100) && TwoAt(s, 2, t.year % 100) && TwoAt(s, 5, t.month) && TwoAt(s, 8, t.day)
  }

  predicate ClockShaped(s: string, hour: int, minute: int, second: int) {
    && |s| == 9 && s[2] == ':' && s[5] == ':' && s[8] == 'Z'
    && TwoAt(s, 0, hour) && TwoAt(s, 3, minute) && TwoAt(s, 6, second)
  }

  lemma DateIsShaped(t: Date)
    requires 1000 <= t.year < 10000 && 0 <= t.month < 100 && 0 <= t.day < 100
    ensures DateShaped(DateText(t), t)
  {
    DecimalOfFour(t.year);
    DecimalOfTwo(t.year / 100);
    DecimalOfTwo(t.year % 100);
    DecimalOfTwo(t.month);
    DecimalOfTwo(t.day);
  }

  lemma ClockIsShaped(rem: nat)
    requires rem < 86400
    ensures ClockShaped(ClockText(rem), rem / 3600, rem % 3600 / 60, rem % 60)
  {
    DecimalOfTwo(rem / 3600);
    DecimalOfTwo(rem % 3600 / 60);
    DecimalOfTwo(rem % 60);
  }

  lemma StampPieces(date: string, clock: string)
    requires |date| == 10
    ensures var s := date + "T" + clock;
      |s| == 11 + |clock| && s[..10] == date && s[10] == 'T' && s[11..] == clock
  {}

  lemma HourMinuteSecond(secs: nat)
    ensures var rem := secs % 86400;
      && rem / 3600 < 24 && rem % 3600 / 60 < 60
      && secs == secs / 86400 * 86400 + rem / 3600 * 3600 + rem % 3600 / 60 * 60 + rem % 60
  {
    Parts(secs, 86400);
    MinuteCut(secs);
    assert secs % 60 == secs % 86400 % 60;
  }

  lemma StampDate(days: nat)
    requires CivilFromDays(days).year < 10000
    ensures var t := CivilFromDays(days);
      t == DayAfterEpoch(days) && t.year >= 0 && t.month >= 0 && t.day >= 0 && DateShaped(DateText(t), t)
  {
    CivilYearNotNegative(days);
    CivilIsDayAfterEpoch(days);
    DayIsShort(days);
    DateIsShaped(CivilFromDays(days));
  }

  lemma DayIsShort(days: nat)
    ensures CivilFromDays(days).month <= 12 && CivilFromDays(days).day <= 31
  {
    CivilIsValid(days);
  }

  /** The stamp says this time of day. */
  predicate SaysTime(stamp: string, secs: nat, hour: int, minute: int, second: int) {
    && 0 <= hour < 24 && 0 <= minute < 60 && 0 <= second < 60
    && secs % 86400 == hour * 3600 + minute * 60 + second
    && |stamp| == 20 && stamp[10] == 'T' && ClockShaped(stamp[11..], hour, minute, second)
  }

  lemma PiecesSay(date: string, secs: nat)
    requires |date| == 10
    ensures var rem := secs % 86400;
      SaysTime(date + "T" + ClockText(rem), secs, rem / 3600, rem % 3600 / 60, rem % 60)
  {
    ClockIsShaped(secs % 86400);
    HourMinuteSecond(secs);
    StampPieces(date, ClockText(secs % 86400));
  }

  lemma StampText(secs: nat)
    ensures var t := CivilFromDays(secs / 86400);
      t.year >= 0 && t.month >= 0 && t.day >= 0 && Rfc3339(secs) == DateText(t) + "T" + ClockText(secs % 86400)
  {
    CivilYearNotNegative(secs / 86400);
  }

  lemma PiecesAreShaped(stamp: string, date: string, t: Date, secs: nat)
    requires stamp == date + "T" + ClockText(secs % 86400) && DateShaped(date, t)
    ensures exists hour, minute, second :: SaysTime(stamp, secs, hour, minute, second)
    ensures |stamp| == 20 && DateShaped(stamp[..10], t)
  {
    PiecesSay(date, secs);
    StampPieces(date, ClockText(secs % 86400));
  }

  /** To the end of the year 9999 what is written is twenty characters in the
      form of RFC 3339: the date so many days after the epoch, and the time of
      day to the second. */
  lemma StampIsShaped(secs: nat)
    requires CivilFromDays(secs / 86400).year < 10000
    ensures exists hour, minute, second :: SaysTime(Rfc3339(secs), secs, hour, minute, second)
    ensures |Rfc3339(secs)| == 20 && DateShaped(Rfc3339(secs)[..10], DayAfterEpoch(secs / 86400))
  {
    var t := CivilFromDays(secs / 86400);
    StampDate(secs / 86400);
    StampText(secs);
    PiecesAreShaped(Rfc3339(secs), DateText(t), t, secs);
  }

  // ----- the whole way round -----

  /** The two converters are inverse to the minute: any time below 2^63 seconds,
      written by one and read by the other, comes back cut to its minute,
      without overflow. */
  lemma StampRoundTrip(secs: nat)
    requires secs <= I64_MAX
    ensures EpochFromRfc3339(Rfc3339(secs)) == At(secs - secs % 60)
  {
    var days, rem := secs / 86400, secs % 86400;
    var t := CivilFromDays(days);
    CivilIsValid(days);
    CivilYearNotNegative(days);
    var hour, minute := rem / 3600, rem % 3600 / 60;
    var tail := ":" + (Padded(rem % 60, 2) + "Z");
    YearFits(t, days);
    StampReads(t, hour, minute, tail);
    MinuteCut(secs);
    SeqAssociative(Padded(minute, 2), ":", Padded(rem % 60, 2) + "Z");
    EpochOf(Rfc3339(secs), t, hour, minute, days);
  }

  lemma EpochOf(stamp: string, t: Date, hour: nat, minute: nat, days: nat)
    requires Fields(stamp) == Some((t.year, t.month, t.day, hour, minute))
    requires ValidDate(t) && hour < 24 && minute < 60 && DaysFromCivil(t) == days
    requires InI64(Era(t) * 146097) && InI64(days + 719468) && InI64(days * 86400 + hour * 3600 + minute * 60)
    ensures EpochFromRfc3339(stamp) == At(days * 86400 + hour * 3600 + minute * 60)
  {}

  lemma WholeMinutes(minutes: nat, seconds: nat)
    requires seconds < 60
    ensures (60 * minutes + seconds) % 60 == seconds
  {}

  lemma Parts(n: nat, unit: nat)
    requires 0 < unit
    ensures n / unit * unit + n % unit == n
  {}

  lemma MinuteCut(secs: nat)
    ensures var rem := secs % 86400;
      secs / 86400 * 86400 + rem / 3600 * 3600 + rem % 3600 / 60 * 60 == secs - secs % 60
  {
    var days, rem := secs / 86400, secs % 86400;
    var hours, left := rem / 3600, rem % 3600;
    var minutes, seconds := left / 60, left % 60;
    Parts(secs, 86400);
    Parts(rem, 3600);
    Parts(left, 60);
    assert secs == 60 * (1440 * days + 60 * hours + minutes) + seconds;
    WholeMinutes(1440 * days + 60 * hours + minutes, seconds);
  }

  lemma YearFits(t: Date, days: nat)
    requires ValidDate(t) && DaysFromCivil(t) == days && days <= I64_MAX / 86400 && t.year >= 1970
    ensures t.year <= I64_MAX && InI64(Era(t) * 146097) && InI64(days * 86400)
  {
    DaysFromCivilParts(t);
    MonthLengthOf(t);
    ShiftBack(t);
  }
}
