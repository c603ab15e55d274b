/**
 Stored instants (src/db/debug_sessions.rs). `ended_at` and the cleanup cutoff are kept as the text that
 chrono's `to_rfc3339` produces for a UTC instant and are compared byte by byte, as SQLite compares TEXT.
 The proof covers four-digit years and every count of fractional digits chrono prints.
 */
module Timestamps {
  /** A UTC calendar reading; `nanos` is the sub-second part. */
  datatype DateTime = DateTime(year: nat, month: nat, day: nat, hour: nat, minute: nat, second: nat, nanos: nat)

  const NANOS_PER_SECOND := 1_000_000_000

  predicate IsLeap(year: nat) {
    year % 4 == 0 && (year % 100 != 0 || year % 400 == 0)
  }

  function DaysInMonth(year: nat, month: nat): nat {
    if month == 2 then (if IsLeap(year) then 29 else 28)
    else if month in {4, 6, 9, 11} then 30
    else 31
  }

  function DaysInYear(year: nat): nat {
    if IsLeap(year) then 366 else 365
  }

  predicate Valid(t: DateTime) {
    && t.year < 10000
    && 1 <= t.month <= 12
    && 1 <= t.day <= DaysInMonth(t.year, t.month)
    && t.hour < 24 && t.minute < 60 && t.second < 60
    && t.nanos < NANOS_PER_SECOND
  }

  /** Days from the first of January of year 0 to the first day of `year`. */
  function DaysBeforeYear(year: nat): nat {
    if year == 0 then 0 else DaysBeforeYear(year - 1) + DaysInYear(year - 1)
  }

  /** Days from the first of January to the first day of `month` in the same year. */
  function DaysBeforeMonth(year: nat, month: nat): nat {
    if month <= 1 then 0 else DaysBeforeMonth(year, month - 1) + DaysInMonth(year, month - 1)
  }

  function DayNumber(t: DateTime): int {
    DaysBeforeYear(t.year) + DaysBeforeMonth(t.year, t.month) + t.day - 1
  }

  /** Nanoseconds since the start of year 0: the chronological position of an instant. */
  function Instant(t: DateTime): int {
    (((DayNumber(t) * 24 + t.hour) * 60 + t.minute) * 60 + t.second) * NANOS_PER_SECOND + t.nanos
  }

  /** Fixed-width decimal, most significant digit first, with leading zeros. */
  function Digits(n: nat, width: nat): string {
    if width == 0 then "" else Digits(n / 10, width - 1) + [DigitChar(n % 10)]
  }

  function DigitChar(d: nat): (c: char)
    requires d < 10
    ensures '0' <= c <= '9'
  {
    ['0', '1', '2', '3', '4', '5', '6', '7', '8', '9'][d]
  }

  function Pow10(width: nat): nat {
    if width == 0 then 1 else 10 * Pow10(width - 1)
  }

  /** chrono's automatic precision: 0, 3, 6 or 9 digits, the fewest that lose nothing. */
  function Fraction(nanos: nat): string {
    if nanos == 0 then ""
    else if nanos % 1_000_000 == 0 then "." + Digits(nanos / 1_000_000, 3)
    else if nanos % 1_000 == 0 then "." + Digits(nanos / 1_000, 6)
    else "." + Digits(nanos, 9)
  }

  const UTC_OFFSET := "+00:00"

  function Rfc3339(t: DateTime): string {
    Digits(t.year, 4) + ("-" + (Digits(t.month, 2) + ("-" + (Digits(t.day, 2) + ("T" + (Digits(t.hour, 2)
    + (":" + (Digits(t.minute, 2) + (":" + (Digits(t.second, 2) + (Fraction(t.nanos) + UTC_OFFSET)))))))))))
  }

  /** SQLite's BINARY collation: byte by byte, a proper prefix being the smaller text. */
  predicate TextLess(a: string, b: string) {
    if b == "" then false
    else if a == "" then true
    else if a[0] != b[0] then a[0] < b[0]
    else TextLess(a[1..], b[1..])
  }

  /** One text is smaller at the first place where the two differ, or by ending first. */
  lemma {:induction false} TextLessMeaning(a: string, b: string)
    ensures TextLess(a, b) <==>
            exists i :: 0 <= i <= |a| && i < |b| && a[..i] == b[..i] && (i == |a| || a[i] < b[i])
  {
    if a != [] && b != [] && a[0] == b[0] {
      var x, y := a[1..], b[1..];
      TextLessMeaning(x, y);
      if i :| 0 <= i <= |x| && i < |y| && x[..i] == y[..i] && (i == |x| || x[i] < y[i]) {
        assert a[..i + 1] == [a[0]] + x[..i] && b[..i + 1] == [b[0]] + y[..i];
      }
      if i :| 0 <= i <= |a| && i < |b| && a[..i] == b[..i] && (i == |a| || a[i] < b[i]) {
        assert i > 0 && x[..i - 1] == a[..i][1..] && y[..i - 1] == b[..i][1..];
      }
    } else if a == [] && b != [] {
      assert a[..0] == b[..0];
    } else if a != [] && b != [] {
      assert a[..0] == b[..0];
      DifferentHeads(a, b);
    }
  }

  lemma DifferentHeads(a: string, b: string)
    requires a != [] && b != [] && a[0] != b[0]
    ensures forall i :: 0 < i <= |a| && i <= |b| ==> a[..i] != b[..i]
  {
    forall i | 0 < i <= |a| && i <= |b| ensures a[..i] != b[..i] {
      assert a[..i][0] == a[0] && b[..i][0] == b[0];
    }
  }

  // ---- Comparing concatenations ----

  lemma {:induction false} CommonPrefix(p: string, a: string, b: string)
    ensures TextLess(p + a, p + b) <==> TextLess(a, b)
  {
    if p == "" {
      assert p + a == a && p + b == b;
    } else {
      assert (p + a)[1..] == p[1..] + a && (p + b)[1..] == p[1..] + b;
      CommonPrefix(p[1..], a, b);
    }
  }

  lemma {:induction false} DecidedByPrefix(p: string, q: string, a: string, b: string)
    requires |p| == |q| && p != q
    ensures TextLess(p + a, q + b) <==> TextLess(p, q)
  {
    if p[0] == q[0] {
      assert (p + a)[1..] == p[1..] + a && (q + b)[1..] == q[1..] + b;
      assert p == [p[0]] + p[1..] && q == [q[0]] + q[1..];
      DecidedByPrefix(p[1..], q[1..], a, b);
    }
  }

  lemma LastDigit(p: string, q: string, x: nat, y: nat)
    requires |p| == |q| && x < 10 && y < 10
    ensures TextLess(p + [DigitChar(x)], q + [DigitChar(y)]) <==> TextLess(p, q) || (p == q && x < y)
    ensures p + [DigitChar(x)] == q + [DigitChar(y)] <==> p == q && x == y
  {
    var a, b := [DigitChar(x)], [DigitChar(y)];
    assert (p + a)[..|p|] == p && (q + b)[..|q|] == q;
    assert (p + a)[|p|] == DigitChar(x) && (q + b)[|q|] == DigitChar(y);
    if p == q {
      CommonPrefix(p, a, b);
      assert !TextLess(p, p) by {
        CommonPrefix(p, "", "");
        assert p + "" == p;
      }
    } else {
      DecidedByPrefix(p, q, a, b);
    }
  }

  lemma {:induction false} DigitsOrder(n: nat, m: nat, width: nat)
    requires n < Pow10(width) && m < Pow10(width)
    ensures |Digits(n, width)| == |Digits(m, width)| == width
    ensures Digits(n, width) == Digits(m, width) <==> n == m
    ensures TextLess(Digits(n, width), Digits(m, width)) <==> n < m
  {
    if width > 0 {
      DigitsOrder(n / 10, m / 10, width - 1);
      LastDigit(Digits(n / 10, width - 1), Digits(m / 10, width - 1), n % 10, m % 10);
    }
  }

  /** A fixed-width number decides the comparison unless the two are equal. */
  lemma NumberThenRest(n: nat, m: nat, width: nat, a: string, b: string)
    requires n < Pow10(width) && m < Pow10(width)
    ensures TextLess(Digits(n, width) + a, Digits(m, width) + b) <==> n < m || (n == m && TextLess(a, b))
  {
    DigitsOrder(n, m, width);
    if n == m {
      CommonPrefix(Digits(n, width), a, b);
    } else {
      DecidedByPrefix(Digits(n, width), Digits(m, width), a, b);
    }
  }

  // ---- The fraction and the offset ----

  lemma LastSix(n: nat, width: nat)
    requires width >= 6
    ensures Digits(n, width) == Digits(n / 1_000_000, width - 6) + (Digits(n / 1_000 % 1_000, 3) + Digits(n % 1_000, 3))
  {
    var m := n / 1_000;
    assert m / 1_000 == n / 1_000_000;
    assert Digits(n, width) == Digits(m, width - 3) + Digits(n % 1_000, 3) by {
      LastThree(n, width);
    }
    assert Digits(m, width - 3) == Digits(m / 1_000, width - 6) + Digits(m % 1_000, 3) by {
      LastThree(m, width - 3);
    }
    Reassociate(Digits(m / 1_000, width - 6), Digits(m % 1_000, 3), Digits(n % 1_000, 3));
  }

  lemma Reassociate(a: string, b: string, c: string)
    ensures (a + b) + c == a + (b + c)
  {
  }

  lemma {:induction false} ThousandFacts(n: nat)
    ensures n / 10 / 10 / 10 == n / 1_000
    ensures n % 1_000 % 10 == n % 10
    ensures n % 1_000 / 10 % 10 == n / 10 % 10
    ensures n % 1_000 / 10 / 10 % 10 == n / 10 / 10 % 10
  {
    var q, r := n / 1_000, n % 1_000;
    assert n == 1_000 * q + r;
    assert n / 10 == 100 * q + r / 10;
    assert n / 10 / 10 == 10 * q + r / 10 / 10;
  }

  /** Three steps of the digit recursion. */
  lemma {:induction false} ThreeSteps(n: nat, width: nat)
    requires width >= 3
    ensures Digits(n, width) == Digits(n / 10 / 10 / 10, width - 3)
                                + [DigitChar(n / 10 / 10 % 10), DigitChar(n / 10 % 10), DigitChar(n % 10)]
  {
    var a, b, c := DigitChar(n / 10 / 10 % 10), DigitChar(n / 10 % 10), DigitChar(n % 10);
    var rest := Digits(n / 10 / 10 / 10, width - 3);
    assert Digits(n / 10 / 10, width - 2) == rest + [a];
    assert Digits(n / 10, width - 1) == rest + [a] + [b];
    assert Digits(n, width) == rest + [a] + [b] + [c];
  }

  lemma {:induction false} LastThree(n: nat, width: nat)
    requires width >= 3
    ensures Digits(n, width) == Digits(n / 1_000, width - 3) + Digits(n % 1_000, 3)
  {
    ThreeSteps(n, width);
    ThreeSteps(n % 1_000, 3);
    ThousandFacts(n);
    assert Digits(n % 1_000 / 10 / 10 / 10, 0) == "";
  }

  lemma {:induction false} DigitsShape(n: nat, width: nat)
    ensures |Digits(n, width)| == width
    ensures forall i :: 0 <= i < width ==> '0' <= Digits(n, width)[i] <= '9'
  {
    if width > 0 {
      DigitsShape(n / 10, width - 1);
    }
  }

  /** A further group of digits sorts after the offset that follows a shorter fraction. */
  lemma OffsetBeforeDigits(n: nat, a: string)
    ensures TextLess(UTC_OFFSET, Digits(n, 3) + a) && !TextLess(Digits(n, 3) + a, UTC_OFFSET)
  {
    DigitsShape(n, 3);
    assert (Digits(n, 3) + a)[0] == Digits(n, 3)[0];
  }

  lemma {:induction false} SixDigits(nanos: nat)
    ensures Digits(nanos / 1_000, 6) == Digits(nanos / 1_000_000, 3) + Digits(nanos / 1_000 % 1_000, 3)
  {
    LastThree(nanos / 1_000, 6);
    assert nanos / 1_000 / 1_000 == nanos / 1_000_000;
  }

  /** What follows the decimal point of a nonzero fraction, group by group. */
  lemma {:induction false} FractionInGroups(nanos: nat)
    requires 0 < nanos < NANOS_PER_SECOND
    ensures Fraction(nanos) + UTC_OFFSET == "." + (Digits(nanos / 1_000_000, 3) + AfterMillis(nanos))
  {
    var d1, d2, d3 := Digits(nanos / 1_000_000, 3), Digits(nanos / 1_000 % 1_000, 3), Digits(nanos % 1_000, 3);
    if nanos % 1_000_000 == 0 {
      Reassociate(".", d1, UTC_OFFSET);
    } else if nanos % 1_000 == 0 {
      SixDigits(nanos);
      Reassociate(".", d1 + d2, UTC_OFFSET);
      Reassociate(d1, d2, UTC_OFFSET);
    } else {
      LastSix(nanos, 9);
      Reassociate(".", d1 + (d2 + d3), UTC_OFFSET);
      Reassociate(d1, d2 + d3, UTC_OFFSET);
      Reassociate(d2, d3, UTC_OFFSET);
    }
  }

  function AfterMillis(nanos: nat): string {
    if nanos % 1_000_000 == 0 then UTC_OFFSET else Digits(nanos / 1_000 % 1_000, 3) + AfterMicros(nanos)
  }

  function AfterMicros(nanos: nat): string {
    if nanos % 1_000 == 0 then UTC_OFFSET else Digits(nanos % 1_000, 3) + UTC_OFFSET
  }

  lemma MicrosOrder(n: nat, m: nat)
    ensures TextLess(AfterMicros(n), AfterMicros(m)) <==> n % 1_000 < m % 1_000
  {
    assert Pow10(3) == 1_000;
    CommonPrefix(UTC_OFFSET, "", "");
    assert UTC_OFFSET + "" == UTC_OFFSET;
    NumberThenRest(n % 1_000, m % 1_000, 3, UTC_OFFSET, UTC_OFFSET);
    OffsetBeforeDigits(n % 1_000, UTC_OFFSET);
    OffsetBeforeDigits(m % 1_000, UTC_OFFSET);
  }

  lemma MillisOrder(n: nat, m: nat)
    ensures TextLess(AfterMillis(n), AfterMillis(m)) <==> n % 1_000_000 < m % 1_000_000
  {
    assert Pow10(3) == 1_000;
    CommonPrefix(UTC_OFFSET, "", "");
    assert UTC_OFFSET + "" == UTC_OFFSET;
    MicrosOrder(n, m);
    NumberThenRest(n / 1_000 % 1_000, m / 1_000 % 1_000, 3, AfterMicros(n), AfterMicros(m));
    OffsetBeforeDigits(n / 1_000 % 1_000, AfterMicros(n));
    OffsetBeforeDigits(m / 1_000 % 1_000, AfterMicros(m));
    Split(n);
    Split(m);
  }

  lemma Split(n: nat)
    ensures n % 1_000_000 == n / 1_000 % 1_000 * 1_000 + n % 1_000
  {
  }

  lemma FractionOrder(n: nat, m: nat)
    requires n < NANOS_PER_SECOND && m < NANOS_PER_SECOND
    ensures TextLess(Fraction(n) + UTC_OFFSET, Fraction(m) + UTC_OFFSET) <==> n < m
  {
    if n > 0 {
      FractionInGroups(n);
    }
    if m > 0 {
      FractionInGroups(m);
    }
    if n == 0 || m == 0 {
      assert Fraction(0) + UTC_OFFSET == UTC_OFFSET;
      CommonPrefix(UTC_OFFSET, "", "");
      assert UTC_OFFSET + "" == UTC_OFFSET;
    } else {
      assert Pow10(3) == 1_000;
      NumberThenRest(n / 1_000_000, m / 1_000_000, 3, AfterMillis(n), AfterMillis(m));
      MillisOrder(n, m);
      CommonPrefix(".", Digits(n / 1_000_000, 3) + AfterMillis(n), Digits(m / 1_000_000, 3) + AfterMillis(m));
    }
  }

  // ---- The calendar ----

  lemma {:induction false} MonthStartsGrow(year: nat, m: nat, n: nat)
    requires 1 <= m < n
    ensures DaysBeforeMonth(year, m) + DaysInMonth(year, m) <= DaysBeforeMonth(year, n)
  {
    if n > m + 1 {
      MonthStartsGrow(year, m, n - 1);
    }
  }

  lemma {:induction false} YearStartsGrow(y: nat, z: nat)
    requires y < z
    ensures DaysBeforeYear(y) + DaysInYear(y) <= DaysBeforeYear(z)
  {
    if z > y + 1 {
      YearStartsGrow(y, z - 1);
    }
  }

  lemma FourMonths(year: nat, m: nat)
    requires m >= 5
    ensures DaysBeforeMonth(year, m) == DaysBeforeMonth(year, m - 4) + DaysInMonth(year, m - 4)
              + DaysInMonth(year, m - 3) + DaysInMonth(year, m - 2) + DaysInMonth(year, m - 1)
  {
    assert DaysBeforeMonth(year, m - 1) == DaysBeforeMonth(year, m - 2) + DaysInMonth(year, m - 2);
    assert DaysBeforeMonth(year, m - 2) == DaysBeforeMonth(year, m - 3) + DaysInMonth(year, m - 3);
    assert DaysBeforeMonth(year, m - 3) == DaysBeforeMonth(year, m - 4) + DaysInMonth(year, m - 4);
  }

  lemma YearHoldsItsMonths(year: nat)
    ensures DaysBeforeMonth(year, 13) == DaysInYear(year)
  {
    FourMonths(year, 5);
    FourMonths(year, 9);
    FourMonths(year, 13);
  }

  /** Day numbers grow exactly with (year, month, day) read as a lexicographic triple. */
  lemma DayOrder(a: DateTime, b: DateTime)
    requires Valid(a) && Valid(b)
    ensures DayNumber(a) < DayNumber(b) <==>
            a.year < b.year || (a.year == b.year && (a.month < b.month || (a.month == b.month && a.day < b.day)))
    ensures DayNumber(a) == DayNumber(b) <==> a.year == b.year && a.month == b.month && a.day == b.day
  {
    YearHoldsItsMonths(a.year);
    YearHoldsItsMonths(b.year);
    MonthStartsGrow(a.year, a.month, 13);
    MonthStartsGrow(b.year, b.month, 13);
    if a.year < b.year {
      YearStartsGrow(a.year, b.year);
    } else if b.year < a.year {
      YearStartsGrow(b.year, a.year);
    } else if a.month < b.month {
      MonthStartsGrow(a.year, a.month, b.month);
    } else if b.month < a.month {
      MonthStartsGrow(a.year, b.month, a.month);
    }
  }

  lemma FourthYear(y: nat)
    requires y > 0
    ensures (y + 3) / 4 == (y + 2) / 4 + if (y - 1) % 4 == 0 then 1 else 0
    ensures (y + 403) / 4 == (y + 3) / 4 + 100
  {
  }

  lemma HundredthYear(y: nat)
    requires y > 0
    ensures (y + 99) / 100 == (y + 98) / 100 + if (y - 1) % 100 == 0 then 1 else 0
    ensures (y + 499) / 100 == (y + 99) / 100 + 4
  {
  }

  lemma FourHundredthYear(y: nat)
    requires y > 0
    ensures (y + 399) / 400 == (y + 398) / 400 + if (y - 1) % 400 == 0 then 1 else 0
    ensures (y + 799) / 400 == (y + 399) / 400 + 1
  {
  }

  lemma CenturiesAreFourthYears(y: nat)
    ensures y % 400 == 0 ==> y % 100 == 0
    ensures y % 100 == 0 ==> y % 4 == 0
  {
    assert y % 400 == 0 ==> y == 100 * (4 * (y / 400));
    assert y % 100 == 0 ==> y == 4 * (25 * (y / 100));
  }

  function LeapDays(y: nat): int {
    (y + 3) / 4 - (y + 99) / 100 + (y + 399) / 400
  }

  lemma {:induction false} OneMoreLeap(y: nat)
    requires y > 0
    ensures LeapDays(y) == LeapDays(y - 1) + if IsLeap(y - 1) then 1 else 0
    ensures LeapDays(y + 400) == LeapDays(y) + 97
  {
    FourthYear(y);
    HundredthYear(y);
    FourHundredthYear(y);
    CenturiesAreFourthYears(y - 1);
  }

  /** The closed form of the calendar: a leap day every 4 years, but not every 100, but every 400. */
  lemma {:induction false} DaysInClosedForm(year: nat)
    ensures DaysBeforeYear(year) == 365 * year + LeapDays(year)
  {
    if year > 0 {
      DaysInClosedForm(year - 1);
      OneMoreLeap(year);
    }
  }

  lemma {:induction false} FourHundredYears(year: nat)
    ensures DaysBeforeYear(year + 400) == DaysBeforeYear(year) + 146_097
  {
    DaysInClosedForm(year);
    DaysInClosedForm(year + 400);
    if year > 0 {
      OneMoreLeap(year);
    }
  }

  /** The last day of a month, as calendars have it. */
  predicate IsMonthEnd(t: DateTime) {
    if t.month == 2 then
      t.day == if t.year % 4 == 0 && (t.year % 100 != 0 || t.year % 400 == 0) then 29 else 28
    else t.day == if t.month == 4 || t.month == 6 || t.month == 9 || t.month == 11 then 30 else 31
  }

  function NextDay(t: DateTime): DateTime {
    if !IsMonthEnd(t) then t.(day := t.day + 1)
    else if t.month < 12 then t.(month := t.month + 1, day := 1)
    else t.(year := t.year + 1, month := 1, day := 1)
  }

  /** The next day is a valid date, and its instant is 24 hours of 3600 seconds later. */
  lemma {:induction false} DayLater(t: DateTime)
    requires Valid(t) && t.year < 9999
    ensures Valid(NextDay(t)) && Instant(NextDay(t)) == Instant(t) + 24 * 3600 * 1_000_000_000
  {
    DaysToNextMonth(t.year, t.month);
    YearHoldsItsMonths(t.year);
    assert DayNumber(NextDay(t)) == DayNumber(t) + 1;
  }

  lemma DaysToNextMonth(year: nat, month: nat)
    requires month >= 1
    ensures DaysBeforeMonth(year, month + 1) == DaysBeforeMonth(year, month) + DaysInMonth(year, month)
  {
  }

  /** Within a day, an hour is 3600 seconds, a minute 60, and a second a thousand million nanoseconds. */
  lemma TimeLater(t: DateTime, hours: nat, minutes: nat, seconds: nat, nanos: nat)
    ensures Instant(t.(hour := t.hour + hours, minute := t.minute + minutes, second := t.second + seconds,
                       nanos := t.nanos + nanos))
         == Instant(t) + ((hours * 60 + minutes) * 60 + seconds) * 1_000_000_000 + nanos
  {
  }

  lemma RadixOrder(p: int, q: int, radix: nat, x: nat, y: nat)
    requires x < radix && y < radix
    ensures p * radix + x < q * radix + y <==> p < q || (p == q && x < y)
    ensures p * radix + x == q * radix + y <==> p == q && x == y
  {
    if p < q {
      assert (p + 1) * radix <= q * radix;
    } else if q < p {
      assert (q + 1) * radix <= p * radix;
    }
  }

  /** Text order is time order: byte-wise comparison of stored instants never disagrees with the clock. */
  lemma TextOrderIsTimeOrder(a: DateTime, b: DateTime)
    requires Valid(a) && Valid(b)
    ensures TextLess(Rfc3339(a), Rfc3339(b)) <==> Instant(a) < Instant(b)
  {
    InstantOrder(a, b);
    TextOrder(a, b);
  }

  ghost predicate Earlier(a: DateTime, b: DateTime) {
    a.year < b.year || (a.year == b.year && (a.month < b.month || (a.month == b.month && (
    a.day < b.day || (a.day == b.day && (a.hour < b.hour || (a.hour == b.hour && (
    a.minute < b.minute || (a.minute == b.minute && (a.second < b.second || (a.second == b.second &&
    a.nanos < b.nanos)))))))))))
  }

  lemma InstantOrder(a: DateTime, b: DateTime)
    requires Valid(a) && Valid(b)
    ensures Instant(a) < Instant(b) <==> Earlier(a, b)
  {
    DayOrder(a, b);
    var ah, bh := DayNumber(a) * 24 + a.hour, DayNumber(b) * 24 + b.hour;
    RadixOrder(DayNumber(a), DayNumber(b), 24, a.hour, b.hour);
    RadixOrder(ah, bh, 60, a.minute, b.minute);
    RadixOrder(ah * 60 + a.minute, bh * 60 + b.minute, 60, a.second, b.second);
    RadixOrder((ah * 60 + a.minute) * 60 + a.second, (bh * 60 + b.minute) * 60 + b.second,
               NANOS_PER_SECOND, a.nanos, b.nanos);
  }

  lemma SeparatorThenRest(c: char, a: string, b: string)
    ensures TextLess([c] + a, [c] + b) <==> TextLess(a, b)
  {
  }

  /** The time-of-day part of the text, from the hour on. */
  function TimeText(t: DateTime): string {
    Digits(t.hour, 2) + (":" + (Digits(t.minute, 2) + (":" + (Digits(t.second, 2) + (Fraction(t.nanos) + UTC_OFFSET)))))
  }

  lemma TimeTextOrder(a: DateTime, b: DateTime)
    requires Valid(a) && Valid(b)
    ensures TextLess(TimeText(a), TimeText(b)) <==>
            a.hour < b.hour || (a.hour == b.hour && (a.minute < b.minute || (a.minute == b.minute && (
            a.second < b.second || (a.second == b.second && a.nanos < b.nanos)))))
  {
    assert Pow10(2) == 100;
    var fa, fb := Fraction(a.nanos) + UTC_OFFSET, Fraction(b.nanos) + UTC_OFFSET;
    var sa, sb := Digits(a.second, 2) + fa, Digits(b.second, 2) + fb;
    var ma, mb := Digits(a.minute, 2) + (":" + sa), Digits(b.minute, 2) + (":" + sb);
    FractionOrder(a.nanos, b.nanos);
    NumberThenRest(a.second, b.second, 2, Fraction(a.nanos) + UTC_OFFSET, Fraction(b.nanos) + UTC_OFFSET);
    SeparatorThenRest(':', sa, sb);
    NumberThenRest(a.minute, b.minute, 2, ":" + sa, ":" + sb);
    SeparatorThenRest(':', ma, mb);
    NumberThenRest(a.hour, b.hour, 2, ":" + ma, ":" + mb);
  }

  lemma TwoDigits(n: nat)
    requires n < 100
    ensures Digits(n, 2) == [DigitChar(n / 10), DigitChar(n % 10)]
  {
    assert Digits(n / 10 / 10, 0) == "";
    assert Digits(n / 10, 1) == [DigitChar(n / 10)];
  }

  lemma CenturyAndRest(n: nat)
    ensures n / 10 / 10 == n / 100
    ensures n % 100 / 10 == n / 10 % 10 && n % 100 % 10 == n % 10
  {
  }

  lemma FourDigits(n: nat)
    requires n < 10000
    ensures Digits(n, 4) == [DigitChar(n / 100 / 10), DigitChar(n / 100 % 10), DigitChar(n % 100 / 10),
                             DigitChar(n % 100 % 10)]
  {
    CenturyAndRest(n);
    TwoDigits(n / 100);
    assert Digits(n / 10, 3) == Digits(n / 10 / 10, 2) + [DigitChar(n / 10 % 10)];
  }

  /** Taking a field and its separator off the front of a text. */
  lemma Peel(field: string, c: char, rest: string)
    ensures var r := field + ([c] + rest); r[..|field|] == field && r[|field|] == c && r[|field| + 1..] == rest
  {
  }

  /** The form itself: year, month, day, hour, minute and second with their separators, then fraction and offset. */
  lemma {:induction false} TextForm(t: DateTime)
    requires Valid(t)
    ensures var r := Rfc3339(t);
            && |r| >= 25 && r[..4] == Digits(t.year, 4) && r[4] == '-' && r[5..] == FromMonth(t)
            && r[5..][..2] == Digits(t.month, 2) && r[5..][2] == '-' && r[5..][3..] == FromDay(t)
            && r[5..][3..][..2] == Digits(t.day, 2) && r[5..][3..][2] == 'T' && r[5..][3..][3..] == TimeText(t)
  {
    assert DaysInMonth(t.year, t.month) < 100;
    FourDigits(t.year);
    TwoDigits(t.month);
    TwoDigits(t.day);
    TwoDigits(t.hour);
    TwoDigits(t.minute);
    TwoDigits(t.second);
    Peel(Digits(t.year, 4), '-', FromMonth(t));
    Peel(Digits(t.month, 2), '-', FromDay(t));
    Peel(Digits(t.day, 2), 'T', TimeText(t));
  }

  function FromDay(t: DateTime): string {
    Digits(t.day, 2) + ("T" + TimeText(t))
  }

  function FromMonth(t: DateTime): string {
    Digits(t.month, 2) + ("-" + FromDay(t))
  }

  lemma {:induction false} TimeForm(t: DateTime)
    requires Valid(t)
    ensures var r := TimeText(t);
            && |r| >= 14 && r[..2] == Digits(t.hour, 2) && r[2] == ':'
            && r[3..][..2] == Digits(t.minute, 2) && r[3..][2] == ':'
            && r[3..][3..][..2] == Digits(t.second, 2) && r[3..][3..][2..] == Fraction(t.nanos) + "+00:00"
  {
    TwoDigits(t.hour);
    TwoDigits(t.minute);
    TwoDigits(t.second);
    var last := Digits(t.second, 2) + (Fraction(t.nanos) + UTC_OFFSET);
    Peel(Digits(t.minute, 2), ':', last);
    Peel(Digits(t.hour, 2), ':', Digits(t.minute, 2) + (":" + last));
    assert last[2..] == Fraction(t.nanos) + UTC_OFFSET;
  }

  /** The fraction itself: none, milliseconds, microseconds or nanoseconds, after a point. */
  lemma {:induction false} FractionForm(nanos: nat)
    requires nanos < NANOS_PER_SECOND
    ensures nanos == 0 ==> Fraction(nanos) == ""
    ensures nanos > 0 ==> Fraction(nanos)[..1] == "."
    ensures nanos > 0 ==>
              |Fraction(nanos)| == if nanos % 1_000_000 == 0 then 4 else if nanos % 1_000 == 0 then 7 else 10
  {
    DigitsShape(nanos / 1_000_000, 3);
    DigitsShape(nanos / 1_000, 6);
    DigitsShape(nanos, 9);
  }

  lemma TextOrder(a: DateTime, b: DateTime)
    requires Valid(a) && Valid(b)
    ensures TextLess(Rfc3339(a), Rfc3339(b)) <==> Earlier(a, b)
  {
    assert Pow10(2) == 100;
    assert Pow10(4) == 100 * Pow10(2);
    TimeTextOrder(a, b);
    var da, db := Digits(a.day, 2) + ("T" + TimeText(a)), Digits(b.day, 2) + ("T" + TimeText(b));
    var ma, mb := Digits(a.month, 2) + ("-" + da), Digits(b.month, 2) + ("-" + db);
    SeparatorThenRest('T', TimeText(a), TimeText(b));
    NumberThenRest(a.day, b.day, 2, "T" + TimeText(a), "T" + TimeText(b));
    SeparatorThenRest('-', da, db);
    NumberThenRest(a.month, b.month, 2, "-" + da, "-" + db);
    SeparatorThenRest('-', ma, mb);
    NumberThenRest(a.year, b.year, 4, "-" + ma, "-" + mb);
  }
}
