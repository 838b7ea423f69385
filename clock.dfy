// Clock times and calendar dates as the handlers accept them: Go's
// time.Parse with the layouts "15:04" and "2006-01-02", the minute of the
// day a time denotes, and how string order relates to time order.
module Clock {
  import opened Common
  import opened Text

  function TwoDigits(a: char, b: char): (v: nat)
    requires IsDigit(a) && IsDigit(b)
    ensures v < 100
  {
    10 * DigitValue(a) + DigitValue(b)
  }

  /**
   * time.Parse("15:04", s) succeeds: an hour of one or two digits below 24,
   * a colon, exactly two minute digits below 60, and nothing after them.
   */
  predicate IsValidTimeFormat(s: string)
  {
    if |s| == 4 then
      IsDigit(s[0]) && s[1] == ':' && IsDigit(s[2]) && IsDigit(s[3])
      && TwoDigits(s[2], s[3]) < 60
    else if |s| == 5 then
      IsDigit(s[0]) && IsDigit(s[1]) && s[2] == ':' && IsDigit(s[3]) && IsDigit(s[4])
      && TwoDigits(s[0], s[1]) < 24 && TwoDigits(s[3], s[4]) < 60
    else false
  }

  /** The zero-padded "HH:MM" form the error messages ask for: a valid time of exactly five characters. */
  predicate IsHHMM(s: string)
  {
    |s| == 5 && IsValidTimeFormat(s)
  }

  /** The minute of the day a valid time denotes. */
  function ClockMinutes(s: string): (m: nat)
    requires IsValidTimeFormat(s)
    ensures m < 24 * 60
  {
    if |s| == 4 then DigitValue(s[0]) * 60 + TwoDigits(s[2], s[3])
    else TwoDigits(s[0], s[1]) * 60 + TwoDigits(s[3], s[4])
  }

  lemma DigitsValueSnoc(p: string, c: char)
    requires AllDigits(p) && IsDigit(c)
    ensures AllDigits(p + [c])
    ensures DigitsValue(p + [c]) == DigitsValue(p) * 10 + DigitValue(c)
  {
    assert (p + [c])[..|p|] == p;
  }

  lemma TwoDigitsValue(s: string)
    requires |s| == 2 && AllDigits(s)
    ensures DigitsValue(s) == TwoDigits(s[0], s[1])
  {
    DigitsValueSnoc([], s[0]);
    DigitsValueSnoc([s[0]], s[1]);
    assert s == [s[0]] + [s[1]];
  }

  /** On zero-padded times, Go's string order is exactly the order of the times. */
  lemma HHMMOrderAgrees(a: string, b: string)
    requires IsHHMM(a) && IsHHMM(b)
    ensures StrLess(a, b) <==> ClockMinutes(a) < ClockMinutes(b)
    ensures a == b <==> ClockMinutes(a) == ClockMinutes(b)
  {
    assert a == a[..2] + ([':'] + a[3..]);
    assert b == b[..2] + ([':'] + b[3..]);
    StrLessConcat(a[..2], [':'] + a[3..], b[..2], [':'] + b[3..]);
    StrLessConcat([':'], a[3..], [':'], b[3..]);
    StrLessIrreflexive([':']);
    DigitsOrder(a[..2], b[..2]);
    DigitsOrder(a[3..], b[3..]);
    TwoDigitsValue(a[..2]);
    TwoDigitsValue(b[..2]);
    TwoDigitsValue(a[3..]);
    TwoDigitsValue(b[3..]);
  }

  /**
   * The layout also accepts a one-digit hour, and then string order and
   * time order disagree: 9:00 is earlier than 10:00 but sorts after it.
   */
  lemma OneDigitHourMisordered()
    ensures IsValidTimeFormat("9:00") && IsValidTimeFormat("10:00")
    ensures ClockMinutes("9:00") < ClockMinutes("10:00")
    ensures StrLess("10:00", "9:00") && !IsHHMM("9:00")
  {
    assert "10:00"[0] == '1' && "9:00"[0] == '9';
  }

  // ---------------------------------------------------------------------
  // Calendar dates: time.Parse("2006-01-02", s)
  // ---------------------------------------------------------------------

  predicate IsLeapYear(y: int)
  {
    y % 4 == 0 && (y % 100 != 0 || y % 400 == 0)
  }

  /** Days in a month of the proleptic Gregorian calendar. */
  function DaysIn(month: int, year: int): (d: int)
    ensures 28 <= d <= 31
    ensures d == 29 <==> month == 2 && IsLeapYear(year)
  {
    if month == 2 then (if IsLeapYear(year) then 29 else 28)
    else if month == 4 || month == 6 || month == 9 || month == 11 then 30
    else 31
  }

  predicate DateShape(s: string)
  {
    |s| == 10 && AllDigits(s[..4]) && s[4] == '-' && AllDigits(s[5..7]) && s[7] == '-'
    && AllDigits(s[8..])
  }

  function Year(s: string): nat requires DateShape(s) { DigitsValue(s[..4]) }
  function Month(s: string): nat requires DateShape(s) { DigitsValue(s[5..7]) }
  function Day(s: string): nat requires DateShape(s) { DigitsValue(s[8..]) }

  /**
   * time.Parse("2006-01-02", s) succeeds: four year digits, a dash, two month
   * digits for 01..12, a dash, two day digits for a day that month has.
   */
  predicate IsValidDate(s: string)
  {
    DateShape(s) && 1 <= Month(s) <= 12 && 1 <= Day(s) <= DaysIn(Month(s), Year(s))
  }

  /** Calendar order of two dates. */
  predicate DateBefore(a: string, b: string)
    requires DateShape(a) && DateShape(b)
  {
    Year(a) < Year(b)
    || (Year(a) == Year(b) && (Month(a) < Month(b) || (Month(a) == Month(b) && Day(a) < Day(b))))
  }

  /** Two fields of equal width joined by '-' compare field by field. */
  lemma DashJoinedOrder(x: string, y: string, x': string, y': string)
    requires |x| == |x'|
    ensures StrLess(x + (['-'] + y), x' + (['-'] + y')) <==> StrLess(x, x') || (x == x' && StrLess(y, y'))
    ensures x + (['-'] + y) == x' + (['-'] + y') <==> x == x' && y == y'
  {
    StrLessIrreflexive(['-']);
    StrLessConcat(x, ['-'] + y, x', ['-'] + y');
    StrLessConcat(['-'], y, ['-'], y');
    var s, s' := x + (['-'] + y), x' + (['-'] + y');
    if s == s' {
      assert s[..|x|] == x && s'[..|x|] == x';
      assert s[|x| + 1..] == y && s'[|x| + 1..] == y';
    }
  }

  /** "YYYY-MM-DD" text compares field by field: year, then month, then day. */
  lemma DateTextOrder(a: string, b: string)
    requires DateShape(a) && DateShape(b)
    ensures StrLess(a, b) <==>
              (StrLess(a[..4], b[..4])
               || (a[..4] == b[..4] && (StrLess(a[5..7], b[5..7]) || (a[5..7] == b[5..7] && StrLess(a[8..], b[8..])))))
    ensures a == b <==> a[..4] == b[..4] && a[5..7] == b[5..7] && a[8..] == b[8..]
  {
    assert a == a[..4] + (['-'] + a[5..]) && b == b[..4] + (['-'] + b[5..]);
    assert a[5..] == a[5..7] + (['-'] + a[8..]) && b[5..] == b[5..7] + (['-'] + b[8..]);
    DashJoinedOrder(a[..4], a[5..], b[..4], b[5..]);
    DashJoinedOrder(a[5..7], a[8..], b[5..7], b[8..]);
  }

  /** On "YYYY-MM-DD" text, Go's string order is calendar order. */
  lemma DateOrderAgrees(a: string, b: string)
    requires DateShape(a) && DateShape(b)
    ensures StrLess(a, b) <==> DateBefore(a, b)
    ensures a == b <==> (Year(a) == Year(b) && Month(a) == Month(b) && Day(a) == Day(b))
  {
    DateTextOrder(a, b);
    DigitsOrder(a[..4], b[..4]);
    DigitsOrder(a[5..7], b[5..7]);
    DigitsOrder(a[8..], b[8..]);
  }

  lemma FourDigitsValue(s: string)
    requires |s| == 4 && AllDigits(s)
    ensures DigitsValue(s) == 1000 * DigitValue(s[0]) + 100 * DigitValue(s[1]) + 10 * DigitValue(s[2]) + DigitValue(s[3])
  {
    DigitsValueSnoc([], s[0]);
    DigitsValueSnoc([s[0]], s[1]);
    DigitsValueSnoc([s[0], s[1]], s[2]);
    DigitsValueSnoc([s[0], s[1], s[2]], s[3]);
    assert s == [s[0], s[1], s[2]] + [s[3]];
    assert [s[0], s[1], s[2]] == [s[0], s[1]] + [s[2]];
    assert [s[0], s[1]] == [s[0]] + [s[1]];
  }

  lemma DateFields(s: string)
    requires DateShape(s)
    ensures Year(s) == 1000 * DigitValue(s[0]) + 100 * DigitValue(s[1]) + 10 * DigitValue(s[2]) + DigitValue(s[3])
    ensures Month(s) == TwoDigits(s[5], s[6]) && Day(s) == TwoDigits(s[8], s[9])
  {
    FourDigitsValue(s[..4]);
    TwoDigitsValue(s[5..7]);
    TwoDigitsValue(s[8..]);
  }

  /** Illustrates DaysIn on four dates: February 29th exists in leap years only, with the century rule. */
  lemma LeapDayExamples()
    ensures IsValidDate("2024-02-29") && !IsValidDate("2023-02-29")
    ensures IsValidDate("2000-02-29") && !IsValidDate("1900-02-29")
  {
    LeapYearsHaveIt();
    CommonYearsLackIt();
  }

  lemma LeapYearsHaveIt()
    ensures IsValidDate("2024-02-29") && IsValidDate("2000-02-29")
  {
    DateFields("2024-02-29");
    DateFields("2000-02-29");
  }

  lemma CommonYearsLackIt()
    ensures !IsValidDate("2023-02-29") && !IsValidDate("1900-02-29")
  {
    DateFields("2023-02-29");
    DateFields("1900-02-29");
  }

  /**
   * Seconds since the Unix epoch of midnight UTC starting a calendar day,
   * the instant time.Parse returns for a date.
   */
  function MidnightUtc(s: string): int
    requires DateShape(s)
  {
    var y, m, d := Year(s), Month(s), Day(s);
    var y' := if m <= 2 then y - 1 else y;
    var era := y' / 400;
    var yoe := y' - era * 400;
    var mp := if m > 2 then m - 3 else m + 9;
    var doy := (153 * mp + 2) / 5 + d - 1;
    var doe := yoe * 365 + yoe / 4 - yoe / 100 + doy;
    (era * 146097 + doe - 719468) * 86400
  }
}
