/**
 Instants as text (src/data-os/validation.ts): the calendar behind parsing, and why the stores may compare
 canonical UTC instants as strings (RFC 3339 section 5.1).
 */
module Instants {
  import opened Basics
  import opened Decimals
  import opened Ordering
  import Store = CaptureStore

  /* ---- The calendar ---- */

  datatype Date = Date(year: int, month: int, day: int)

  predicate Leap(year: int) { year % 4 == 0 && (year % 100 != 0 || year % 400 == 0) }

  function DaysIn(year: int, month: int): int {
    if month == 2 then (if Leap(year) then 29 else 28)
    else if month == 4 || month == 6 || month == 9 || month == 11 then 30
    else 31
  }

  predicate RealDate(d: Date) { 0 <= d.year && 1 <= d.month <= 12 && 1 <= d.day <= DaysIn(d.year, d.month) }

  /** The day after. */
  function NextDay(d: Date): Date {
    if d.day < DaysIn(d.year, d.month) then Date(d.year, d.month, d.day + 1)
    else if d.month < 12 then Date(d.year, d.month + 1, 1)
    else Date(d.year + 1, 1, 1)
  }

  /** Days before a year, counted without looking at any month: 365 a year, and the leap days of the years before. */
  function DaysBeforeYear(year: int): int { 365 * year + (year + 3) / 4 - (year + 99) / 100 + (year + 399) / 400 }

  function DaysBeforeMonth(year: int, month: int): int
    requires 1 <= month <= 13
    decreases month
  {
    if month == 1 then 0 else DaysBeforeMonth(year, month - 1) + DaysIn(year, month - 1)
  }

  const EPOCH_DAY := DaysBeforeYear(1970)

  /** Days since 1 January 1970. */
  function DayNumber(d: Date): int
    requires 1 <= d.month <= 12
  {
    DaysBeforeYear(d.year) + DaysBeforeMonth(d.year, d.month) + d.day - 1 - EPOCH_DAY
  }

  lemma YearLength(year: int)
    ensures DaysBeforeYear(year + 1) - DaysBeforeYear(year) == if Leap(year) then 366 else 365
  {
    FourthYears(year);
    HundredthYears(year);
    FourHundredthYears(year);
    MultiplesNest(year);
  }

  lemma FourthYears(year: int)
    ensures (year + 1 + 3) / 4 - (year + 3) / 4 == if year % 4 == 0 then 1 else 0
  {
  }

  lemma HundredthYears(year: int)
    ensures (year + 1 + 99) / 100 - (year + 99) / 100 == if year % 100 == 0 then 1 else 0
  {
  }

  lemma FourHundredthYears(year: int)
    ensures (year + 1 + 399) / 400 - (year + 399) / 400 == if year % 400 == 0 then 1 else 0
  {
  }

  lemma MultiplesNest(year: int)
    ensures year % 400 == 0 ==> year % 100 == 0
    ensures year % 100 == 0 ==> year % 4 == 0
  {
    var q := year / 400;
    if year == 400 * q { assert year == 100 * (4 * q); }
    var h := year / 100;
    if year == 100 * h { assert year == 4 * (25 * h); }
  }

  lemma MonthsFillYear(year: int)
    ensures DaysBeforeMonth(year, 13) == if Leap(year) then 366 else 365
  {
    assert DaysBeforeMonth(year, 3) == 31 + DaysIn(year, 2);
    assert DaysBeforeMonth(year, 5) == DaysBeforeMonth(year, 3) + 31 + 30;
    assert DaysBeforeMonth(year, 7) == DaysBeforeMonth(year, 5) + 31 + 30;
    assert DaysBeforeMonth(year, 9) == DaysBeforeMonth(year, 7) + 31 + 31;
    assert DaysBeforeMonth(year, 11) == DaysBeforeMonth(year, 9) + 30 + 31;
  }

  /** The tables fit the count: going through the accepted dates one by one, every day has the next number. */
  lemma NextDayIsNextNumber(d: Date)
    requires RealDate(d)
    ensures RealDate(NextDay(d)) && DayNumber(NextDay(d)) == DayNumber(d) + 1
  {
    YearLength(d.year);
    MonthsFillYear(d.year);
    hide DaysBeforeYear;
  }

  predicate Earlier(a: Date, b: Date) {
    a.year < b.year || (a.year == b.year && (a.month < b.month || (a.month == b.month && a.day < b.day)))
  }

  lemma {:induction false} YearsAccumulate(a: int, b: int)
    requires a <= b
    ensures DaysBeforeYear(b) >= DaysBeforeYear(a) + 365 * (b - a)
    decreases b - a
  {
    if a < b {
      YearsAccumulate(a, b - 1);
      YearLength(b - 1);
    }
  }

  lemma {:induction false} MonthsAccumulate(year: int, a: int, b: int)
    requires 1 <= a <= b <= 13
    ensures DaysBeforeMonth(year, b) >= DaysBeforeMonth(year, a) + (if a < b then DaysIn(year, a) else 0)
    decreases b - a
  {
    if a + 1 < b { MonthsAccumulate(year, a, b - 1); }
  }

  lemma DayInYear(d: Date)
    requires RealDate(d)
    ensures 1 <= DaysBeforeMonth(d.year, d.month) + d.day <= if Leap(d.year) then 366 else 365
  {
    MonthsFillYear(d.year);
    MonthsAccumulate(d.year, d.month, 13);
    MonthsAccumulate(d.year, 1, d.month);
  }

  /** Earlier dates have smaller numbers, so no two dates share one. */
  lemma DayNumberIsMonotone(a: Date, b: Date)
    requires RealDate(a) && RealDate(b) && Earlier(a, b)
    ensures DayNumber(a) < DayNumber(b)
  {
    hide DaysBeforeYear, Leap, DaysBeforeMonth, DaysIn;
    DayInYear(a);
    DayInYear(b);
    if a.year < b.year {
      YearLength(a.year);
      YearsAccumulate(a.year + 1, b.year);
    } else if a.month < b.month {
      MonthsAccumulate(a.year, a.month, b.month);
    }
  }

  /** Every day from year zero on is some accepted date. */
  lemma {:induction false} EveryDayHasADate(n: int) returns (d: Date)
    requires n >= -EPOCH_DAY
    ensures RealDate(d) && DayNumber(d) == n
    decreases n + EPOCH_DAY
  {
    if n == -EPOCH_DAY {
      d := Date(0, 1, 1);
    } else {
      var before := EveryDayHasADate(n - 1);
      NextDayIsNextNumber(before);
      d := NextDay(before);
    }
  }

  /* ---- Canonical text ---- */

  datatype Fields = Fields(date: Date, hour: int, minute: int, second: int, milli: int)

  predicate RealTime(f: Fields) {
    0 <= f.hour <= 23 && 0 <= f.minute <= 59 && 0 <= f.second <= 59 && 0 <= f.milli <= 999
  }

  predicate Real(f: Fields) { RealDate(f.date) && f.date.year <= 9999 && RealTime(f) }

  /** Milliseconds since the epoch. */
  function InstantOf(f: Fields): int
    requires 1 <= f.date.month <= 12
  {
    (((DayNumber(f.date) * 24 + f.hour) * 60 + f.minute) * 60 + f.second) * 1000 + f.milli
  }

  /** A number in exactly this many digits. */
  function Fixed(n: int, width: nat): (s: string)
    requires n >= 0
    ensures |s| == width && forall c | c in s :: '0' <= c <= '9'
    decreases width
  {
    if width == 0 then "" else Fixed(n / 10, width - 1) + [Digit(n % 10)]
  }

  /** YYYY-MM-DDTHH:MM:SS.mmmZ. */
  function Text(f: Fields): string
    requires 0 <= f.date.year && 0 <= f.date.month && 0 <= f.date.day && 0 <= f.hour && 0 <= f.minute && 0 <= f.second
      && 0 <= f.milli
  {
    Fixed(f.date.year, 4) + ("-" + (Fixed(f.date.month, 2) + ("-" + (Fixed(f.date.day, 2) + ("T"
    + (Fixed(f.hour, 2) +
    (":" + (Fixed(f.minute, 2) + (":" + (Fixed(f.second, 2) + ("." + (Fixed(f.milli, 3) + "Z"))))))))))))
  }

  function Pow10(n: nat): int { if n == 0 then 1 else 10 * Pow10(n - 1) }

  lemma {:induction false} FixedReads(n: int, width: nat)
    requires 0 <= n < Pow10(width)
    ensures ValueOf(Fixed(n, width)) == n
    decreases width
  {
    if width > 0 {
      FixedReads(n / 10, width - 1);
      var s := Fixed(n, width);
      assert s[..|s| - 1] == Fixed(n / 10, width - 1);
    }
  }

  /* ---- String order ---- */

  /** Two texts of one length are compared before whatever follows them. */
  lemma {:induction false} CompareFront(a: string, b: string, x: string, y: string)
    requires |a| == |b|
    ensures CompareId(a + x, b + y) == if a == b then CompareId(x, y) else CompareId(a, b)
    ensures a != b ==> CompareId(a, b) != 0
  {
    if a == [] {
      assert a + x == x && b + y == y;
    } else {
      CompareFront(a[1..], b[1..], x, y);
      assert (a + x)[1..] == a[1..] + x && (b + y)[1..] == b[1..] + y;
      assert a == [a[0]] + a[1..] && b == [b[0]] + b[1..];
    }
  }

  lemma CompareDigit(m: int, n: int)
    requires 0 <= m < 10 && 0 <= n < 10
    ensures CompareId([Digit(m)], [Digit(n)]) == m - n
  {
    var a, b := [Digit(m)], [Digit(n)];
    assert CompareChar(a[0], b[0]) == m - n;
    assert Lex(CompareChar, a[1..], b[1..]) == 0;
  }

  lemma {:induction false} CompareFixed(m: int, n: int, width: nat)
    requires 0 <= m < Pow10(width) && 0 <= n < Pow10(width)
    ensures m < n <==> CompareId(Fixed(m, width), Fixed(n, width)) < 0
    ensures m == n <==> Fixed(m, width) == Fixed(n, width)
    decreases width
  {
    FixedReads(m, width);
    FixedReads(n, width);
    if width > 0 {
      CompareFixed(m / 10, n / 10, width - 1);
      CompareFront(Fixed(m / 10, width - 1), Fixed(n / 10, width - 1), [Digit(m % 10)], [Digit(n % 10)]);
      CompareDigit(m % 10, n % 10);
    }
  }

  /** The order of the fields, one after another. */
  predicate FieldsBefore(a: Fields, b: Fields) {
    Earlier(a.date, b.date)
    || (a.date == b.date
        && (a.hour < b.hour || (a.hour == b.hour
            && (a.minute < b.minute || (a.minute == b.minute
                && (a.second < b.second || (a.second == b.second && a.milli < b.milli)))))))
  }

  lemma DecimalRange()
    ensures Pow10(2) == 100 && Pow10(3) == 1000 && Pow10(4) == 10000
  {
  }

  /** One field of the text: compared first, and only on a tie does the rest count. */
  lemma CompareField(m: int, n: int, width: nat, x: string, y: string)
    requires 0 <= m < Pow10(width) && 0 <= n < Pow10(width)
    ensures var c := CompareId(Fixed(m, width) + x, Fixed(n, width) + y);
      && (m < n ==> c < 0) && (m > n ==> c > 0) && (m == n ==> c == CompareId(x, y))
  {
    hide CompareId;
    CompareFixed(m, n, width);
    CompareFixed(n, m, width);
    CompareFront(Fixed(m, width), Fixed(n, width), x, y);
    IdOrderIsTotal();
  }

  lemma CompareMark(mark: string, x: string, y: string)
    ensures CompareId(mark + x, mark + y) == CompareId(x, y)
  {
    CompareFront(mark, mark, x, y);
  }

  lemma CompareSame(x: string)
    ensures CompareId(x, x) == 0
  {
    IdOrderIsTotal();
  }

  function ClockText(f: Fields): string
    requires 0 <= f.hour && 0 <= f.minute && 0 <= f.second && 0 <= f.milli
  {
    Fixed(f.hour, 2) + (":" + (Fixed(f.minute, 2) + (":" + (Fixed(f.second, 2) + ("." + (Fixed(f.milli, 3) + "Z"))))))
  }

  lemma CompareClocks(a: Fields, b: Fields)
    requires RealTime(a) && RealTime(b)
    ensures CompareId(ClockText(a), ClockText(b)) < 0 <==>
      a.hour < b.hour || (a.hour == b.hour
        && (a.minute < b.minute || (a.minute == b.minute
            && (a.second < b.second || (a.second == b.second && a.milli < b.milli)))))
  {
    hide CompareId, Fixed, Pow10;
    DecimalRange();
    var a3, b3 := Fixed(a.milli, 3) + "Z", Fixed(b.milli, 3) + "Z";
    var a2, b2 := Fixed(a.second, 2) + ("." + a3), Fixed(b.second, 2) + ("." + b3);
    var a1, b1 := Fixed(a.minute, 2) + (":" + a2), Fixed(b.minute, 2) + (":" + b2);
    CompareField(a.hour, b.hour, 2, ":" + a1, ":" + b1);
    CompareMark(":", a1, b1);
    CompareField(a.minute, b.minute, 2, ":" + a2, ":" + b2);
    CompareMark(":", a2, b2);
    CompareField(a.second, b.second, 2, "." + a3, "." + b3);
    CompareMark(".", a3, b3);
    CompareField(a.milli, b.milli, 3, "Z", "Z");
    CompareSame("Z");
  }

  /** On canonical text, string order is the order of the fields. */
  lemma CompareTexts(a: Fields, b: Fields)
    requires Real(a) && Real(b)
    ensures CompareId(Text(a), Text(b)) < 0 <==> FieldsBefore(a, b)
  {
    hide CompareId, Fixed, Pow10, DaysIn;
    DecimalRange();
    var a3, b3 := ClockText(a), ClockText(b);
    var a2, b2 := Fixed(a.date.day, 2) + ("T" + a3), Fixed(b.date.day, 2) + ("T" + b3);
    var a1, b1 := Fixed(a.date.month, 2) + ("-" + a2), Fixed(b.date.month, 2) + ("-" + b2);
    DaysAreFew(a.date);
    DaysAreFew(b.date);
    CompareField(a.date.year, b.date.year, 4, "-" + a1, "-" + b1);
    CompareMark("-", a1, b1);
    CompareField(a.date.month, b.date.month, 2, "-" + a2, "-" + b2);
    CompareMark("-", a2, b2);
    CompareField(a.date.day, b.date.day, 2, "T" + a3, "T" + b3);
    CompareMark("T", a3, b3);
    CompareClocks(a, b);
  }

  lemma DaysAreFew(d: Date)
    requires RealDate(d)
    ensures 1 <= d.day <= 31
  {
  }

  /** The order of the fields is the order of the instants. */
  lemma FieldsBeforeIsEarlier(a: Fields, b: Fields)
    requires Real(a) && Real(b)
    ensures FieldsBefore(a, b) <==> InstantOf(a) < InstantOf(b)
  {
    hide DayNumber, DaysIn;
    if Earlier(a.date, b.date) {
      DayNumberIsMonotone(a.date, b.date);
    } else if a.date != b.date {
      assert Earlier(b.date, a.date);
      DayNumberIsMonotone(b.date, a.date);
    }
  }

  /** Comparing canonical UTC instants as strings is comparing the instants. */
  lemma StringOrderIsInstantOrder(a: Fields, b: Fields)
    requires Real(a) && Real(b)
    ensures CompareId(Text(a), Text(b)) < 0 <==> InstantOf(a) < InstantOf(b)
    ensures Text(a) == Text(b) <==> InstantOf(a) == InstantOf(b)
  {
    hide CompareId, Text, InstantOf, Real, FieldsBefore;
    CompareTexts(a, b);
    CompareTexts(b, a);
    FieldsBeforeIsEarlier(a, b);
    FieldsBeforeIsEarlier(b, a);
    IdOrderIsTotal();
  }

  /* ---- Parsing ---- */

  predicate AllDigits(s: string) { forall c | c in s :: '0' <= c <= '9' }

  /** YYYY-MM-DDTHH:MM:SS, as the first nineteen characters. */
  predicate DateTimeShape(s: string) {
    |s| >= 20
    && AllDigits(s[..4]) && s[4] == '-' && AllDigits(s[5..7]) && s[7] == '-' && AllDigits(s[8..10]) && s[10] == 'T'
    && AllDigits(s[11..13]) && s[13] == ':' && AllDigits(s[14..16]) && s[16] == ':' && AllDigits(s[17..19])
  }

  function LeadingDigits(s: string): (n: nat)
    ensures n <= |s|
  {
    if s == [] || !('0' <= s[0] <= '9') then 0 else 1 + LeadingDigits(s[1..])
  }

  /** The fraction of a second in milliseconds, and what follows it; a fraction has one to three digits. */
  function ParseFraction(s: string): Option<(int, string)> {
    if s == [] || s[0] != '.' then Some((0, s))
    else
      var n := LeadingDigits(s[1..]);
      if n == 0 || n > 3 then None
      else
        var digits := ValueOf(s[1..n + 1]);
        Some((if n == 1 then 100 * digits else if n == 2 then 10 * digits else digits, s[n + 1..]))
  }

  /** Minutes east of UTC: Z, or a sign, hours and minutes. */
  function ParseZone(s: string): Option<int> {
    if s == "Z" then Some(0)
    else if |s| == 6 && (s[0] == '+' || s[0] == '-') && AllDigits(s[1..3]) && s[3] == ':' && AllDigits(s[4..6]) then
      var hours, minutes := ValueOf(s[1..3]), ValueOf(s[4..6]);
      if hours > 23 || minutes > 59 then None
      else Some(if s[0] == '+' then 60 * hours + minutes else -(60 * hours + minutes))
    else None
  }

  /** An instant with an explicit zone and a real calendar date, or nothing. */
  function ParseISOInstant(s: string): Option<int> {
    if !DateTimeShape(s) then None
    else
      var year, month, day := ValueOf(s[..4]), ValueOf(s[5..7]), ValueOf(s[8..10]);
      var hour, minute, second := ValueOf(s[11..13]), ValueOf(s[14..16]), ValueOf(s[17..19]);
      if month < 1 || month > 12 || day < 1 || day > DaysIn(year, month) || hour > 23 || minute > 59 || second > 59
      then None
      else
        match ParseFraction(s[19..])
        case None => None
        case Some(fraction) =>
          match ParseZone(fraction.1)
          case None => None
          case Some(zone) =>
            Some(InstantOf(Fields(Date(year, month, day), hour, minute, second, fraction.0)) - zone * 60_000)
  }

  /** Fields that fit their digits, whether or not they name a real date and time. */
  predicate Printable(f: Fields) {
    0 <= f.date.year <= 9999 && 0 <= f.date.month <= 99 && 0 <= f.date.day <= 99
    && 0 <= f.hour <= 99 && 0 <= f.minute <= 99 && 0 <= f.second <= 99 && 0 <= f.milli <= 999
  }

  /** A date and a time as text, and then the rest. */
  function Written(f: Fields, tail: string): string
    requires Printable(f)
  {
    Fixed(f.date.year, 4) + ("-" + (Fixed(f.date.month, 2) + ("-" + (Fixed(f.date.day, 2) + ("T"
    + (Fixed(f.hour, 2) + (":" + (Fixed(f.minute, 2) + (":" + (Fixed(f.second, 2) + tail))))))))))
  }

  lemma WrittenShape(f: Fields, tail: string)
    requires Printable(f) && tail != []
    ensures var s := Written(f, tail);
      && |s| == 19 + |tail| && DateTimeShape(s)
      && s[..4] == Fixed(f.date.year, 4) && s[5..7] == Fixed(f.date.month, 2) && s[8..10] == Fixed(f.date.day, 2)
      && s[11..13] == Fixed(f.hour, 2) && s[14..16] == Fixed(f.minute, 2) && s[17..19] == Fixed(f.second, 2)
      && s[19..] == tail
  {
    hide Fixed, AllDigits;
    var s := Written(f, tail);
    var time := Fixed(f.hour, 2) + (":" + (Fixed(f.minute, 2) + (":" + (Fixed(f.second, 2) + tail))));
    FixedDigits(f.date.year, 4);
    FixedDigits(f.date.month, 2);
    FixedDigits(f.date.day, 2);
    FixedDigits(f.hour, 2);
    FixedDigits(f.minute, 2);
    FixedDigits(f.second, 2);
    FourFields(s, Fixed(f.date.year, 4), Fixed(f.date.month, 2), Fixed(f.date.day, 2), "T" + time);
    ThreeFields(s, Fixed(f.hour, 2), Fixed(f.minute, 2), Fixed(f.second, 2), tail);
    hide Written;
  }

  lemma FourFields(s: string, year: string, month: string, day: string, rest: string)
    requires |year| == 4 && |month| == |day| == 2 && s == year + ("-" + (month + ("-" + (day + rest))))
    ensures |s| == 10 + |rest| && s[..4] == year && s[4] == '-' && s[5..7] == month && s[7] == '-' && s[8..10] == day
      && s[10..] == rest
  {
    After(s, 0, year, "-" + (month + ("-" + (day + rest))));
    After(s, 4, "-", month + ("-" + (day + rest)));
    After(s, 5, month, "-" + (day + rest));
    After(s, 7, "-", day + rest);
    After(s, 8, day, rest);
  }

  lemma ThreeFields(s: string, hour: string, minute: string, second: string, tail: string)
    requires |hour| == |minute| == |second| == 2
    requires |s| >= 10 && s[10..] == "T" + (hour + (":" + (minute + (":" + (second + tail)))))
    ensures |s| == 19 + |tail| && s[10] == 'T' && s[11..13] == hour && s[13] == ':' && s[14..16] == minute
      && s[16] == ':'
    ensures s[17..19] == second && s[19..] == tail
  {
    After(s, 10, "T", hour + (":" + (minute + (":" + (second + tail)))));
    After(s, 11, hour, ":" + (minute + (":" + (second + tail))));
    After(s, 13, ":", minute + (":" + (second + tail)));
    After(s, 14, minute, ":" + (second + tail));
    After(s, 16, ":", second + tail);
    After(s, 17, second, tail);
  }

  lemma TextShape(f: Fields)
    requires Printable(f)
    ensures var s := Text(f);
      && |s| == 24 && DateTimeShape(s)
      && s[..4] == Fixed(f.date.year, 4) && s[5..7] == Fixed(f.date.month, 2) && s[8..10] == Fixed(f.date.day, 2)
      && s[11..13] == Fixed(f.hour, 2) && s[14..16] == Fixed(f.minute, 2) && s[17..19] == Fixed(f.second, 2)
      && s[19..] == "." + (Fixed(f.milli, 3) + "Z")
  {
    var tail := "." + (Fixed(f.milli, 3) + "Z");
    assert Text(f) == Written(f, tail);
    hide Text, Written, DateTimeShape, Fixed;
    WrittenShape(f, tail);
  }

  lemma FixedDigits(n: int, width: nat)
    requires n >= 0
    ensures AllDigits(Fixed(n, width))
  {
  }

  /** Reading on from a place in a text. */
  lemma After(s: string, n: nat, a: string, rest: string)
    requires n <= |s| && s[n..] == a + rest
    ensures n + |a| <= |s| && s[n..n + |a|] == a && s[n + |a|..] == rest
    ensures |a| == 1 ==> s[n] == a[0]
  {
    assert s[n + |a|..] == s[n..][|a|..];
    if |a| == 1 { assert s[n] == s[n..][0]; }
  }

  lemma {:induction false} LeadingDigitsOf(d: string, rest: string)
    requires AllDigits(d) && (rest == [] || !('0' <= rest[0] <= '9'))
    ensures LeadingDigits(d + rest) == |d|
  {
    if d == [] {
      assert d + rest == rest;
    } else {
      assert d[0] in d && forall c | c in d[1..] :: c in d;
      assert (d + rest)[1..] == d[1..] + rest;
      LeadingDigitsOf(d[1..], rest);
    }
  }

  lemma MilliParses(milli: int)
    requires 0 <= milli <= 999
    ensures ParseFraction("." + (Fixed(milli, 3) + "Z")) == Some((milli, "Z"))
  {
    hide Fixed, ValueOf, LeadingDigits;
    var ms := Fixed(milli, 3);
    var s := "." + (ms + "Z");
    assert s[1..] == ms + "Z" && s[1..4] == ms && s[4..] == "Z";
    LeadingDigitsOf(ms, "Z");
    DecimalRange();
    FixedReads(milli, 3);
  }

  /* Every text of the grammar: a date, a time, perhaps a fraction of one to three digits, and a zone. */

  datatype Fraction = Whole | Part(value: int, digits: nat)
  datatype Zone = Utc | Offset(east: bool, hours: int, minutes: int)
  datatype Stamp = Stamp(date: Date, hour: int, minute: int, second: int, fraction: Fraction, zone: Zone)

  function Milli(f: Fraction): int {
    match f
    case Whole => 0
    case Part(v, n) => if n == 1 then 100 * v else if n == 2 then 10 * v else v
  }

  function FractionText(f: Fraction): string
    requires f.Part? ==> f.value >= 0
  {
    match f case Whole => "" case Part(v, n) => "." + Fixed(v, n)
  }

  function ZoneText(z: Zone): string
    requires z.Offset? ==> z.hours >= 0 && z.minutes >= 0
  {
    match z
    case Utc => "Z"
    case Offset(east, h, m) => (if east then "+" else "-") + (Fixed(h, 2) + (":" + Fixed(m, 2)))
  }

  function FieldsOf(x: Stamp): Fields { Fields(x.date, x.hour, x.minute, x.second, Milli(x.fraction)) }

  /** The digits say what they say, whether or not that is a real date, time or offset. */
  predicate InGrammar(x: Stamp) {
    && Printable(FieldsOf(x))
    && (x.fraction.Part? ==> 1 <= x.fraction.digits <= 3 && 0 <= x.fraction.value < Pow10(x.fraction.digits))
    && (x.zone.Offset? ==> 0 <= x.zone.hours <= 99 && 0 <= x.zone.minutes <= 99)
  }

  function StampText(x: Stamp): string
    requires InGrammar(x)
  {
    Written(FieldsOf(x), FractionText(x.fraction) + ZoneText(x.zone))
  }

  predicate RealStamp(x: Stamp) {
    Real(FieldsOf(x)) && (x.zone.Offset? ==> x.zone.hours <= 23 && x.zone.minutes <= 59)
  }

  /** Local time less the minutes it is east of UTC. */
  function InstantOfStamp(x: Stamp): int
    requires RealStamp(x)
  {
    InstantOf(FieldsOf(x))
    - (match x.zone case Utc => 0 case Offset(east, h, m) => (if east then 1 else -1) * (60 * h + m) * 60_000)
  }

  lemma FractionParses(f: Fraction, rest: string)
    requires f.Part? ==> 1 <= f.digits <= 3 && 0 <= f.value < Pow10(f.digits)
    requires rest != [] && rest[0] != '.' && !('0' <= rest[0] <= '9')
    ensures ParseFraction(FractionText(f) + rest) == Some((Milli(f), rest))
  {
    hide Fixed, ValueOf, LeadingDigits, Pow10;
    match f
    case Whole => assert FractionText(f) + rest == rest;
    case Part(v, n) =>
      var d := Fixed(v, n);
      var s := FractionText(f) + rest;
      assert s == "." + (d + rest) && s[1..] == d + rest && s[1..n + 1] == d && s[n + 1..] == rest;
      FixedDigits(v, n);
      LeadingDigitsOf(d, rest);
      FixedReads(v, n);
  }

  lemma ZoneParses(z: Zone)
    requires z.Offset? ==> 0 <= z.hours <= 99 && 0 <= z.minutes <= 99
    ensures ParseZone(ZoneText(z)) == match z
      case Utc => Some(0)
      case Offset(east, h, m) => if h > 23 || m > 59 then None else Some((if east then 1 else -1) * (60 * h + m))
    ensures ZoneText(z) != [] && ZoneText(z)[0] != '.' && !('0' <= ZoneText(z)[0] <= '9')
  {
    hide Fixed, ValueOf, Pow10, AllDigits;
    if z.Offset? {
      var s, h, m := ZoneText(z), Fixed(z.hours, 2), Fixed(z.minutes, 2);
      assert s[1..3] == h && s[3] == ':' && s[4..6] == m && s[0] != 'Z';
      FixedDigits(z.hours, 2);
      FixedDigits(z.minutes, 2);
      DecimalRange();
      FixedReads(z.hours, 2);
      FixedReads(z.minutes, 2);
    }
  }

  /** Of all text in the grammar, exactly what names a real date, time and offset is parsed, and to its instant. */
  lemma ParsesExactlyRealStamps(x: Stamp)
    requires InGrammar(x)
    ensures ParseISOInstant(StampText(x)) == if RealStamp(x) then Some(InstantOfStamp(x)) else None
  {
    hide Written, Fixed, ValueOf, DateTimeShape, ParseFraction, ParseZone, DaysIn, Pow10, DayNumber, FractionText,
      ZoneText, Milli;
    var f := FieldsOf(x);
    ZoneParses(x.zone);
    FractionParses(x.fraction, ZoneText(x.zone));
    WrittenShape(f, FractionText(x.fraction) + ZoneText(x.zone));
    DecimalRange();
    FixedReads(f.date.year, 4);
    FixedReads(f.date.month, 2);
    FixedReads(f.date.day, 2);
    FixedReads(f.hour, 2);
    FixedReads(f.minute, 2);
    FixedReads(f.second, 2);
  }

  /** Digits are what their value is written as. */
  lemma {:induction false} WrittenBack(d: string)
    requires AllDigits(d)
    ensures 0 <= ValueOf(d) < Pow10(|d|) && Fixed(ValueOf(d), |d|) == d
  {
    if d != [] {
      var n := |d| - 1;
      assert d[n] in d && forall c | c in d[..n] :: c in d;
      WrittenBack(d[..n]);
      LastDigit(ValueOf(d[..n]), d[n], n);
      assert ValueOf(d) == 10 * ValueOf(d[..n]) + (d[n] as int - '0' as int);
      hide Fixed, ValueOf, Pow10, AllDigits;
      assert d == d[..n] + [d[n]];
    }
  }

  /** A digit more. */
  lemma LastDigit(v: int, c: char, n: nat)
    requires 0 <= v < Pow10(n) && '0' <= c <= '9'
    ensures var m := 10 * v + (c as int - '0' as int); 0 <= m < Pow10(n + 1) && Fixed(m, n + 1) == Fixed(v, n) + [c]
  {
    var m := 10 * v + (c as int - '0' as int);
    assert m / 10 == v && Digit(m % 10) == c;
  }

  lemma FractionRead(s: string) returns (f: Fraction)
    requires ParseFraction(s).Some?
    ensures f.Part? ==> 1 <= f.digits <= 3 && 0 <= f.value < Pow10(f.digits)
    ensures ParseFraction(s).value.0 == Milli(f) && s == FractionText(f) + ParseFraction(s).value.1
  {
    hide Fixed, ValueOf, Pow10;
    if s == [] || s[0] != '.' {
      f := Whole;
    } else {
      var n := LeadingDigits(s[1..]);
      LeadingAreDigits(s[1..]);
      var d := s[1..n + 1];
      assert d == s[1..][..n];
      WrittenBack(d);
      f := Part(ValueOf(d), n);
      assert s == "." + (d + s[n + 1..]);
    }
  }

  lemma {:induction false} LeadingAreDigits(s: string)
    ensures AllDigits(s[..LeadingDigits(s)])
  {
    if s != [] && '0' <= s[0] <= '9' {
      LeadingAreDigits(s[1..]);
      assert s[..LeadingDigits(s)] == [s[0]] + s[1..][..LeadingDigits(s[1..])];
    }
  }

  lemma ZoneRead(s: string) returns (z: Zone)
    requires ParseZone(s).Some?
    ensures z.Offset? ==> 0 <= z.hours <= 99 && 0 <= z.minutes <= 99
    ensures s == ZoneText(z)
  {
    hide Fixed, ValueOf, Pow10;
    if s == "Z" {
      z := Utc;
    } else {
      WrittenBack(s[1..3]);
      WrittenBack(s[4..6]);
      DecimalRange();
      z := Offset(s[0] == '+', ValueOf(s[1..3]), ValueOf(s[4..6]));
      assert s == [s[0]] + (s[1..3] + ([s[3]] + s[4..6]));
    }
  }

  /** Nothing outside the grammar is parsed. */
  lemma OnlyStampsParse(s: string) returns (x: Stamp)
    requires ParseISOInstant(s).Some?
    ensures InGrammar(x) && RealStamp(x) && s == StampText(x)
  {
    hide Fixed, ValueOf, ParseFraction, ParseZone, DaysIn, Pow10, DayNumber, FractionText, ZoneText, Milli;
    var fraction := FractionRead(s[19..]);
    var zone := ZoneRead(ParseFraction(s[19..]).value.1);
    DecimalRange();
    WrittenBack(s[..4]);
    WrittenBack(s[5..7]);
    WrittenBack(s[8..10]);
    WrittenBack(s[11..13]);
    WrittenBack(s[14..16]);
    WrittenBack(s[17..19]);
    x := Stamp(Date(ValueOf(s[..4]), ValueOf(s[5..7]), ValueOf(s[8..10])), ValueOf(s[11..13]), ValueOf(s[14..16]),
               ValueOf(s[17..19]), fraction, zone);
    FractionFits(fraction);
    assert s == s[..4] + ("-" + (s[5..7] + ("-" + (s[8..10] + ("T"
      + (s[11..13] + (":" + (s[14..16] + (":" + (s[17..19] + s[19..]))))))))));
    if zone.Offset? { ZoneParses(zone); }
  }

  lemma FractionFits(f: Fraction)
    requires f.Part? ==> 1 <= f.digits <= 3 && 0 <= f.value < Pow10(f.digits)
    ensures 0 <= Milli(f) <= 999
  {
    DecimalRange();
    assert Pow10(1) == 10 && Pow10(2) == 100 && Pow10(3) == 1000;
  }

  /**
   Of all text in the canonical shape, exactly what names a real calendar date and time is parsed, and to its
   instant.
   */
  lemma ParsesExactlyRealInstants(f: Fields)
    requires Printable(f)
    ensures ParseISOInstant(Text(f)) == if Real(f) then Some(InstantOf(f)) else None
  {
    hide Text, Fixed, ValueOf, DateTimeShape, ParseFraction, DaysIn, Pow10, DayNumber;
    TextShape(f);
    DecimalRange();
    FixedReads(f.date.year, 4);
    FixedReads(f.date.month, 2);
    FixedReads(f.date.day, 2);
    FixedReads(f.hour, 2);
    FixedReads(f.minute, 2);
    FixedReads(f.second, 2);
    MilliParses(f.milli);
  }

  /** The months, the leap days, and where the count of days begins. */
  lemma CalendarIsKnown()
    ensures [DaysIn(2023, 1), DaysIn(2023, 2), DaysIn(2023, 3), DaysIn(2023, 4), DaysIn(2023, 5), DaysIn(2023, 6)]
      == [31, 28, 31, 30, 31, 30]
    ensures [DaysIn(2023, 7), DaysIn(2023, 8), DaysIn(2023, 9), DaysIn(2023, 10), DaysIn(2023, 11), DaysIn(2023, 12)]
      == [31, 31, 30, 31, 30, 31]
    ensures DaysIn(2024, 2) == DaysIn(2000, 2) == 29 && DaysIn(1900, 2) == DaysIn(2100, 2) == 28
    ensures DayNumber(Date(1970, 1, 1)) == 0
    ensures InstantOf(Fields(Date(1970, 1, 2), 3, 4, 5, 6)) == 86_400_000 + 3 * 3_600_000 + 4 * 60_000 + 5 * 1000 + 6
  {
  }

  /** The last instant of a day is one, and what would come after it by any field is not. */
  lemma ClockIsKnown(d: Date)
    ensures RealTime(Fields(d, 23, 59, 59, 999)) && RealTime(Fields(d, 0, 0, 0, 0))
    ensures !RealTime(Fields(d, 24, 0, 0, 0)) && !RealTime(Fields(d, 0, 60, 0, 0)) && !RealTime(Fields(d, 0, 0, 60, 0))
    ensures !RealTime(Fields(d, 0, 0, 0, 1000))
  {
  }

  /** What the stores accept as a clock reading: the text an instant is printed as. */
  ghost predicate Canonical(s: string) { exists f :: Real(f) && s == Text(f) }

  /** The stores compare canonical readings as strings, and compare them rightly. */
  lemma CanonicalOrder(s: string, t: string)
    requires Canonical(s) && Canonical(t)
    ensures ParseISOInstant(s).Some? && ParseISOInstant(t).Some?
    ensures CompareId(s, t) < 0 <==> ParseISOInstant(s).value < ParseISOInstant(t).value
  {
    hide Text, InstantOf, ParseISOInstant, CompareId, DaysIn;
    var f :| Real(f) && s == Text(f);
    var g :| Real(g) && t == Text(g);
    DaysAreFew(f.date);
    DaysAreFew(g.date);
    ParsesExactlyRealInstants(f);
    ParsesExactlyRealInstants(g);
    StringOrderIsInstantOrder(f, g);
  }

  /* ---- The parts of the text that the capture store names its slots by ---- */

  /** Characters 0 to 10 name the day and characters 11 to 16 the minute of the day. */
  lemma SlotsAreDaysAndMinutes(a: Fields, b: Fields)
    requires Real(a) && Real(b)
    ensures |Text(a)| == |Text(b)| == 24
    ensures Text(a)[..10] == Text(b)[..10] <==> Store.DayOf(InstantOf(a)) == Store.DayOf(InstantOf(b))
    ensures Text(a)[11..16] == Text(b)[11..16] <==> Store.MinuteOf(InstantOf(a)) == Store.MinuteOf(InstantOf(b))
  {
    hide Text, Fixed, InstantOf, DayNumber, Pow10, DaysIn;
    DaysAreFew(a.date);
    DaysAreFew(b.date);
    DayText(a);
    DayText(b);
    DecimalRange();
    CompareFixed(a.date.year, b.date.year, 4);
    CompareFixed(a.date.month, b.date.month, 2);
    CompareFixed(a.date.day, b.date.day, 2);
    CompareFixed(a.hour, b.hour, 2);
    CompareFixed(a.minute, b.minute, 2);
    DayAndMinute(a);
    DayAndMinute(b);
    if a.date != b.date {
      if Earlier(a.date, b.date) { DayNumberIsMonotone(a.date, b.date); } else { DayNumberIsMonotone(b.date, a.date); }
    }
    SlotText(a, b);
  }

  lemma DayText(f: Fields)
    requires Printable(f)
    ensures var s := Text(f);
      && |s| == 24
      && s[..10] == Fixed(f.date.year, 4) + ("-" + (Fixed(f.date.month, 2) + ("-" + Fixed(f.date.day, 2))))
      && s[11..16] == Fixed(f.hour, 2) + (":" + Fixed(f.minute, 2))
  {
    hide Fixed;
    TextShape(f);
    var s := Text(f);
    assert s[..10] == s[..4] + ([s[4]] + (s[5..7] + ([s[7]] + s[8..10])));
    assert s[11..16] == s[11..13] + ([s[13]] + s[14..16]);
  }

  lemma DayAndMinute(f: Fields)
    requires Real(f)
    ensures Store.DayOf(InstantOf(f)) == DayNumber(f.date) && Store.MinuteOf(InstantOf(f)) == 60 * f.hour + f.minute
  {
    hide DayNumber;
    var rest := ((f.hour * 60 + f.minute) * 60 + f.second) * 1000 + f.milli;
    assert InstantOf(f) == DayNumber(f.date) * 86_400_000 + rest && 0 <= rest < 86_400_000;
  }

  lemma SlotText(a: Fields, b: Fields)
    requires Printable(a) && Printable(b)
    ensures Fixed(a.date.year, 4) + ("-" + (Fixed(a.date.month, 2) + ("-" + Fixed(a.date.day, 2))))
         == Fixed(b.date.year, 4) + ("-" + (Fixed(b.date.month, 2) + ("-" + Fixed(b.date.day, 2))))
      <==> Fixed(a.date.year, 4) == Fixed(b.date.year, 4) && Fixed(a.date.month, 2) == Fixed(b.date.month, 2)
           && Fixed(a.date.day, 2) == Fixed(b.date.day, 2)
    ensures Fixed(a.hour, 2) + (":" + Fixed(a.minute, 2)) == Fixed(b.hour, 2) + (":" + Fixed(b.minute, 2))
      <==> Fixed(a.hour, 2) == Fixed(b.hour, 2) && Fixed(a.minute, 2) == Fixed(b.minute, 2)
  {
    hide Fixed;
    var x := Fixed(a.date.year, 4) + ("-" + (Fixed(a.date.month, 2) + ("-" + Fixed(a.date.day, 2))));
    var y := Fixed(b.date.year, 4) + ("-" + (Fixed(b.date.month, 2) + ("-" + Fixed(b.date.day, 2))));
    assert x[..4] == Fixed(a.date.year, 4) && x[5..7] == Fixed(a.date.month, 2) && x[8..10] == Fixed(a.date.day, 2);
    assert y[..4] == Fixed(b.date.year, 4) && y[5..7] == Fixed(b.date.month, 2) && y[8..10] == Fixed(b.date.day, 2);
    var u, v := Fixed(a.hour, 2) + (":" + Fixed(a.minute, 2)), Fixed(b.hour, 2) + (":" + Fixed(b.minute, 2));
    assert u[..2] == Fixed(a.hour, 2) && u[3..5] == Fixed(a.minute, 2);
    assert v[..2] == Fixed(b.hour, 2) && v[3..5] == Fixed(b.minute, 2);
  }
}
