/** Gregorian calendar dates, their day numbers and their zero-padded text. */
module CivilDates {
  import opened Text

  datatype Date = Date(y: int, m: int, d: int)

  predicate IsLeap(y: int) { y % 4 == 0 && (y % 100 != 0 || y % 400 == 0) }

  function DaysInMonth(y: int, m: int): (n: int)
    requires 1 <= m <= 12
    ensures 28 <= n <= 31
  {
    if m == 2 then (if IsLeap(y) then 29 else 28)
    else if m == 4 || m == 6 || m == 9 || m == 11 then 30
    else 31
  }

  predicate Valid(a: Date) { a.y >= 1 && 1 <= a.m <= 12 && 1 <= a.d <= DaysInMonth(a.y, a.m) }

  /** The days of the year before the first day of month m; m == 13 gives the length of the year. */
  function DaysBeforeMonth(y: int, m: int): (n: int)
    requires 1 <= m <= 13
    ensures n >= 0
  {
    if m == 1 then 0 else DaysBeforeMonth(y, m - 1) + DaysInMonth(y, m - 1)
  }

  function DaysBeforeYear(y: int): (n: int)
    requires y >= 1
    ensures n >= 0
  {
    if y == 1 then 0 else DaysBeforeYear(y - 1) + DaysBeforeMonth(y - 1, 13)
  }

  /** The number of the day, with 1 for the first of January of year 1, a Monday. */
  function Ordinal(a: Date): (n: int)
    requires Valid(a)
    ensures n >= 1
  {
    DaysBeforeYear(a.y) + DaysBeforeMonth(a.y, a.m) + a.d
  }

  predicate Before(a: Date, b: Date) { a.y < b.y || (a.y == b.y && (a.m < b.m || (a.m == b.m && a.d < b.d))) }

  lemma {:induction false} MonthsAscend(y: int, m: int, n: int)
    requires 1 <= m < n <= 13
    ensures DaysBeforeMonth(y, m) + DaysInMonth(y, m) <= DaysBeforeMonth(y, n)
    decreases n
  {
    if m + 1 < n { MonthsAscend(y, m, n - 1); }
  }

  lemma {:induction false} YearsAscend(y: int, z: int)
    requires 1 <= y < z
    ensures DaysBeforeYear(y) + DaysBeforeMonth(y, 13) <= DaysBeforeYear(z)
    decreases z
  {
    if y + 1 < z { YearsAscend(y, z - 1); }
  }

  lemma OrdinalAscends(a: Date, b: Date)
    requires Valid(a) && Valid(b) && Before(a, b)
    ensures Ordinal(a) < Ordinal(b)
  {
    hide DaysBeforeMonth, DaysBeforeYear, IsLeap, DaysInMonth;
    if a.y < b.y {
      YearsAscend(a.y, b.y);
      MonthsAscend(a.y, a.m, 13);
    } else if a.m < b.m {
      MonthsAscend(a.y, a.m, b.m);
    }
  }

  /** Day numbers order dates, and determine them. */
  lemma OrdinalOrder(a: Date, b: Date)
    requires Valid(a) && Valid(b)
    ensures Ordinal(a) < Ordinal(b) <==> Before(a, b)
    ensures Ordinal(a) == Ordinal(b) <==> a == b
  {
    hide Ordinal;
    if Before(a, b) {
      OrdinalAscends(a, b);
    } else if a != b {
      OrdinalAscends(b, a);
    }
  }

  function NextDay(a: Date): (b: Date)
    requires Valid(a)
    ensures Valid(b)
  {
    if a.d < DaysInMonth(a.y, a.m) then Date(a.y, a.m, a.d + 1)
    else if a.m < 12 then Date(a.y, a.m + 1, 1)
    else Date(a.y + 1, 1, 1)
  }

  lemma NextDayOrdinal(a: Date)
    requires Valid(a)
    ensures Ordinal(NextDay(a)) == Ordinal(a) + 1
  {
  }

  /** The date with a given day number. */
  function DateOf(n: int): (a: Date)
    requires n >= 1
    ensures Valid(a) && Ordinal(a) == n
  {
    if n == 1 then Date(1, 1, 1)
    else
      var p := DateOf(n - 1);
      NextDayOrdinal(p);
      NextDay(p)
  }

  lemma DateOfOrdinal(a: Date)
    requires Valid(a)
    ensures DateOf(Ordinal(a)) == a
  {
    OrdinalOrder(DateOf(Ordinal(a)), a);
  }

  // ----- the calendar in closed form -----

  lemma MonthsInDays(y: int)
    ensures DaysBeforeMonth(y, 13) == (if IsLeap(y) then 366 else 365)
  {
    hide IsLeap;
    assert DaysBeforeMonth(y, 2) == 31;
    var leap := if IsLeap(y) then 1 else 0;
    assert DaysBeforeMonth(y, 3) == 59 + leap;
    assert DaysBeforeMonth(y, 4) == 90 + leap;
    assert DaysBeforeMonth(y, 5) == 120 + leap;
    assert DaysBeforeMonth(y, 6) == 151 + leap;
    assert DaysBeforeMonth(y, 7) == 181 + leap;
    assert DaysBeforeMonth(y, 8) == 212 + leap;
    assert DaysBeforeMonth(y, 9) == 243 + leap;
    assert DaysBeforeMonth(y, 10) == 273 + leap;
    assert DaysBeforeMonth(y, 11) == 304 + leap;
    assert DaysBeforeMonth(y, 12) == 334 + leap;
  }

  /** The leap years up to year n, counted by centuries. */
  function LeapYears(n: int): int { n / 4 - n / 100 + n / 400 }

  lemma OneMoreYear(n: int)
    requires n >= 1
    ensures LeapYears(n) == LeapYears(n - 1) + (if IsLeap(n) then 1 else 0)
  {
    Quotient(n, 4);
    Quotient(n, 100);
    Quotient(n, 400);
    assert n % 400 == 0 ==> n % 100 == 0;
    assert n % 100 == 0 ==> n % 4 == 0;
  }

  lemma Quotient(n: int, k: int)
    requires k == 4 || k == 100 || k == 400
    ensures n / k == (n - 1) / k + (if n % k == 0 then 1 else 0)
  {
  }

  /** Every fourth year is a leap year, but of the centuries only every fourth. */
  lemma {:induction false} YearsInDays(y: int)
    requires y >= 1
    ensures DaysBeforeYear(y) == 365 * (y - 1) + LeapYears(y - 1)
  {
    if y > 1 {
      hide DaysBeforeMonth, LeapYears, IsLeap;
      YearsInDays(y - 1);
      MonthsInDays(y - 1);
      OneMoreYear(y - 1);
    } else {
      assert LeapYears(0) == 0;
    }
  }

  lemma SameLeap(y: int)
    ensures IsLeap(y + 400) == IsLeap(y)
    ensures LeapYears(y + 400) == LeapYears(y) + 97
  {
    ByFour(y);
    ByHundred(y);
    ByFourHundred(y);
  }

  lemma ByFour(y: int)
    ensures (y + 400) / 4 == y / 4 + 100 && (y + 400) % 4 == y % 4
  {
    var q, r := y / 4, y % 4;
    assert y + 400 == 4 * (q + 100) + r;
  }

  lemma ByHundred(y: int)
    ensures (y + 400) / 100 == y / 100 + 4 && (y + 400) % 100 == y % 100
  {
    var q, r := y / 100, y % 100;
    assert y + 400 == 100 * (q + 4) + r;
  }

  lemma ByFourHundred(y: int)
    ensures (y + 400) / 400 == y / 400 + 1 && (y + 400) % 400 == y % 400
  {
    var q, r := y / 400, y % 400;
    assert y + 400 == 400 * (q + 1) + r;
  }

  lemma {:induction false} SameMonths(y: int, m: int)
    requires 1 <= m <= 13
    ensures DaysBeforeMonth(y + 400, m) == DaysBeforeMonth(y, m)
    decreases m
  {
    hide IsLeap, LeapYears;
    SameLeap(y);
    if m > 1 { SameMonths(y, m - 1); }
  }

  /** The calendar repeats after 400 years, which are 20871 weeks; and the first of January 1970 was a Thursday. */
  lemma GregorianCycle(a: Date)
    requires Valid(a)
    ensures Valid(a.(y := a.y + 400)) && Ordinal(a.(y := a.y + 400)) == Ordinal(a) + 7 * 20871
    ensures Ordinal(Date(1970, 1, 1)) == 719163 && 719163 % 7 == 4
  {
    hide DaysBeforeYear, IsLeap, LeapYears;
    YearsInDays(a.y);
    YearsInDays(a.y + 400);
    SameLeap(a.y);
    SameLeap(a.y - 1);
    SameMonths(a.y, a.m);
    YearsInDays(1970);
    YearsTo1970();
  }

  lemma YearsTo1970()
    ensures LeapYears(1969) == 477
  {
  }

  // ----- YYYY-MM-DD -----

  function Two(n: nat): (s: string)
    requires n < 100
    ensures |s| == 2
  {
    [DigitChar(n / 10), DigitChar(n % 10)]
  }

  function Four(n: nat): (s: string)
    requires n < 10000
    ensures |s| == 4
  {
    Two(n / 100) + Two(n % 100)
  }

  /** A date with a year of at most four digits. */
  predicate Writable(a: Date) { Valid(a) && a.y <= 9999 }

  /** Format("2006-01-02"), and date::text. */
  function Format(a: Date): string
    requires Writable(a)
  {
    Four(a.y) + ("-" + (Two(a.m) + ("-" + Two(a.d))))
  }

  lemma TwoOrder(m: nat, n: nat)
    requires m < 100 && n < 100
    ensures Leq(Two(m), Two(n)) <==> m <= n
    ensures Two(m) == Two(n) <==> m == n
  {
    LeqConcat([DigitChar(m / 10)], [DigitChar(n / 10)], [DigitChar(m % 10)], [DigitChar(n % 10)]);
    assert Two(m) == [DigitChar(m / 10)] + [DigitChar(m % 10)] && Two(n) == [DigitChar(n / 10)] + [DigitChar(n % 10)];
    if Two(m) == Two(n) { assert Two(m)[0] == Two(n)[0] && Two(m)[1] == Two(n)[1]; }
  }

  lemma FourOrder(m: nat, n: nat)
    requires m < 10000 && n < 10000
    ensures Leq(Four(m), Four(n)) <==> m <= n
    ensures Four(m) == Four(n) <==> m == n
  {
    TwoOrder(m / 100, n / 100);
    TwoOrder(m % 100, n % 100);
    LeqConcat(Two(m / 100), Two(n / 100), Two(m % 100), Two(n % 100));
    hide Two, Leq;
    if Four(m) == Four(n) {
      assert Four(m)[..2] == Two(m / 100) && Four(n)[..2] == Two(n / 100);
      assert Four(m)[2..] == Two(m % 100) && Four(n)[2..] == Two(n % 100);
    }
  }

  /** Comparing the text of two dates compares the dates. */
  lemma FormatOrder(a: Date, b: Date)
    requires Writable(a) && Writable(b)
    ensures Leq(Format(a), Format(b)) <==> Ordinal(a) <= Ordinal(b)
    ensures Format(a) == Format(b) <==> a == b
  {
    OrdinalOrder(a, b);
    FourOrder(a.y, b.y);
    TwoOrder(a.m, b.m);
    TwoOrder(a.d, b.d);
    hide Two, Four, Leq, Ordinal;
    LeqConcat(Four(a.y), Four(b.y), "-" + (Two(a.m) + ("-" + Two(a.d))), "-" + (Two(b.m) + ("-" + Two(b.d))));
    LeqPrefix("-", Two(a.m) + ("-" + Two(a.d)), Two(b.m) + ("-" + Two(b.d)));
    LeqConcat(Two(a.m), Two(b.m), "-" + Two(a.d), "-" + Two(b.d));
    LeqPrefix("-", Two(a.d), Two(b.d));
    FormatInjective(a, b);
  }

  lemma FormatInjective(a: Date, b: Date)
    requires Writable(a) && Writable(b) && (Four(a.y) == Four(b.y) <==> a.y == b.y)
    requires Two(a.m) == Two(b.m) <==> a.m == b.m
    requires Two(a.d) == Two(b.d) <==> a.d == b.d
    ensures Format(a) == Format(b) <==> a == b
  {
    hide Two, Four;
    FormatParts(a);
    FormatParts(b);
  }

  lemma FormatParts(a: Date)
    requires Writable(a)
    ensures var s := Format(a); |s| == 10 && s[..4] == Four(a.y) && s[5..7] == Two(a.m) && s[8..] == Two(a.d)
  {
    hide Two, Four;
    Middle(Four(a.y) + "-", Two(a.m), "-" + Two(a.d));
    Middle(Four(a.y) + "-" + Two(a.m) + "-", Two(a.d), "");
    Middle("", Four(a.y), "-" + Two(a.m) + "-" + Two(a.d));
  }

  lemma Middle(p: string, m: string, t: string)
    ensures (p + m + t)[|p|..|p| + |m|] == m
  {
  }

  // ----- days written as text -----

  /** The text of a day number, for the years 1 to 9999. */
  function DayText(day: int): string
  {
    if day >= 1 && Writable(DateOf(day)) then Format(DateOf(day)) else ""
  }

  /** On the days 1 to last, text is never empty and its order is the order of the days. */
  ghost predicate OrderedText(text: int -> string, last: int)
  {
    forall a, b :: 1 <= a <= last && 1 <= b <= last ==>
      (Leq(text(a), text(b)) <==> a <= b) && (text(a) == text(b) <==> a == b) && text(a) != ""
  }

  /** Zero-padded YYYY-MM-DD text orders as the days do. */
  lemma DayTextOrdered(last: int)
    requires last >= 1 && Writable(DateOf(last))
    ensures OrderedText(DayText, last)
  {
    forall a, b | 1 <= a <= last && 1 <= b <= last
      ensures (Leq(DayText(a), DayText(b)) <==> a <= b) && (DayText(a) == DayText(b) <==> a == b) && DayText(a) != ""
    {
      EarlierWritable(a, last);
      EarlierWritable(b, last);
      FormatOrder(DateOf(a), DateOf(b));
      DateOfInjective(a, b);
      hide DateOf, Leq, Ordinal;
    }
  }

  lemma EarlierWritable(a: int, last: int)
    requires 1 <= a <= last && Writable(DateOf(last))
    ensures Writable(DateOf(a))
  {
    var x, y := DateOf(a), DateOf(last);
    OrdinalOrder(x, y);
    hide Ordinal, DateOf;
  }

  lemma DateOfInjective(a: int, b: int)
    requires a >= 1 && b >= 1
    ensures DateOf(a) == DateOf(b) <==> a == b
    ensures Ordinal(DateOf(a)) == a && Ordinal(DateOf(b)) == b
  {
  }
}
