/** The month grid and the leaderboard windows, in wall-clock days. */
module CalendarGrid {
  import opened Text
  import opened CivilDates

  /** A wall-clock time: the number of its day and the second of that day. */
  datatype Local = Local(day: int, second: int)

  predicate Earlier(a: Local, b: Local) { a.day < b.day || (a.day == b.day && a.second < b.second) }

  datatype Entry = Entry(title: string, url: string, kind: string, startsAt: Local)

  datatype Shown = Shown(title: string, url: string, kind: string)

  datatype Cell = Cell(number: string, muted: bool, today: bool, entries: seq<Shown>)

  datatype Month = Month(year: int, month: int, days: seq<Cell>)

  function Show(e: Entry): Shown { Shown(e.title, e.url, e.kind) }

  /** Days are counted from the first of January of year 1. */
  predicate Dated(entries: seq<Entry>, now: Local) { now.day >= 1 && forall e :: e in entries ==> e.startsAt.day >= 1 }

  // ----- the month shown -----

  /** The earliest start among the entries not before now, else now. */
  function Anchor(entries: seq<Entry>, now: Local): Local
    decreases |entries|
  {
    if entries == [] then now
    else
      var rest, last := Anchor(entries[..|entries| - 1], now), entries[|entries| - 1].startsAt;
      if !Earlier(last, now) && (!HasFuture(entries[..|entries| - 1], now) || Earlier(last, rest)) then last else rest
  }

  predicate HasFuture(entries: seq<Entry>, now: Local) { exists e :: e in entries && !Earlier(e.startsAt, now) }

  /** The anchor is the earliest of the entries still to come; without any it is now. */
  lemma {:induction false} AnchorIsNext(entries: seq<Entry>, now: Local)
    ensures var a := Anchor(entries, now);
            && (!HasFuture(entries, now) ==> a == now)
            && (HasFuture(entries, now) ==> !Earlier(a, now) && exists e :: e in entries && e.startsAt == a)
            && (forall e :: e in entries && !Earlier(e.startsAt, now) ==> !Earlier(e.startsAt, a))
    decreases |entries|
  {
    if entries != [] {
      var rest, last := entries[..|entries| - 1], entries[|entries| - 1];
      assert entries == rest + [last];
      AnchorIsNext(rest, now);
    }
  }

  // ----- the grid -----

  function FirstOfMonth(y: int, m: int): (n: int)
    requires y >= 1 && 1 <= m <= 12
    ensures n >= 1
  {
    Ordinal(Date(y, m, 1))
  }

  /** time.Weekday: Sunday is 0. */
  function Weekday(day: int): int { day % 7 }

  function GridStart(y: int, m: int): (n: int)
    requires y >= 1 && 1 <= m <= 12
    ensures n >= 1
  {
    var first := FirstOfMonth(y, m);
    first - (Weekday(first) + 6) % 7
  }

  /** The grid starts on a Monday, at most six days before the month, and its 42 days reach past the end of the month. */
  lemma GridCoversMonth(y: int, m: int)
    requires y >= 1 && 1 <= m <= 12
    ensures Weekday(GridStart(y, m)) == 1
    ensures GridStart(y, m) <= FirstOfMonth(y, m) <= GridStart(y, m) + 6
    ensures FirstOfMonth(y, m) + DaysInMonth(y, m) <= GridStart(y, m) + 42
  {
    hide Ordinal;
  }

  /** The date so many days into a month, for a day of that month or of the next. */
  lemma DateInMonth(y: int, m: int, k: int)
    requires y >= 1 && 1 <= m <= 12 && 0 <= k < DaysInMonth(y, m)
    ensures DateOf(FirstOfMonth(y, m) + k) == Date(y, m, k + 1)
  {
    assert Ordinal(Date(y, m, k + 1)) == FirstOfMonth(y, m) + k;
    DateOfOrdinal(Date(y, m, k + 1));
    hide DateOf;
  }

  function NextMonth(y: int, m: int): (int, int) { if m == 12 then (y + 1, 1) else (y, m + 1) }

  lemma NextMonthFollows(y: int, m: int)
    requires y >= 1 && 1 <= m <= 12
    ensures FirstOfMonth(NextMonth(y, m).0, NextMonth(y, m).1) == FirstOfMonth(y, m) + DaysInMonth(y, m)
  {
    NextDayOrdinal(Date(y, m, DaysInMonth(y, m)));
  }

  /** A cell of the grid shows a day of another month exactly when it lies outside the month. */
  lemma MutedIff(y: int, m: int, i: int)
    requires y >= 1 && 1 <= m <= 12 && 0 <= i < 42
    ensures var day := GridStart(y, m) + i;
            DateOf(day).m == m <==> FirstOfMonth(y, m) <= day < FirstOfMonth(y, m) + DaysInMonth(y, m)
  {
    GridCoversMonth(y, m);
    var first, day := FirstOfMonth(y, m), GridStart(y, m) + i;
    hide FirstOfMonth, GridStart, DateOf;
    if day < first {
      BeforeMonth(y, m, first - day);
    } else if day < first + DaysInMonth(y, m) {
      DateInMonth(y, m, day - first);
    } else {
      NextMonthFollows(y, m);
      DateInMonth(NextMonth(y, m).0, NextMonth(y, m).1, day - first - DaysInMonth(y, m));
    }
  }

  lemma BeforeMonth(y: int, m: int, k: int)
    requires y >= 1 && 1 <= m <= 12 && 1 <= k <= 6 && FirstOfMonth(y, m) - k >= 1
    ensures DateOf(FirstOfMonth(y, m) - k).m != m
  {
    hide FirstOfMonth, DateOf, NextMonth;
    if y == 1 && m == 1 { FirstDay(y, m); }
    NextMonths(y, m);
    if m > 1 { LastDays(y, m - 1, k); } else { LastDays(y - 1, 12, k); }
  }

  lemma FirstDay(y: int, m: int)
    requires y == 1 && m == 1
    ensures FirstOfMonth(y, m) == 1
  {
  }

  lemma NextMonths(y: int, m: int)
    ensures m > 1 && m <= 12 ==> NextMonth(y, m - 1) == (y, m)
    ensures NextMonth(y - 1, 12) == (y, 1)
  {
  }

  lemma LastDays(y: int, m: int, k: int)
    requires y >= 1 && 1 <= m <= 12 && 1 <= k <= 6
    ensures var next := FirstOfMonth(NextMonth(y, m).0, NextMonth(y, m).1); next - k >= 1 && DateOf(next - k).m == m
  {
    NextMonthFollows(y, m);
    hide FirstOfMonth, DateOf;
    DateInMonth(y, m, DaysInMonth(y, m) - k);
  }

  // ----- the entries of a day -----

  /** What a cell shows: the entries of its day, in input order. */
  function OnDay(entries: seq<Entry>, day: int): seq<Shown>
    decreases |entries|
  {
    if entries == [] then []
    else
      var rest, last := OnDay(entries[..|entries| - 1], day), entries[|entries| - 1];
      if last.startsAt.day == day then rest + [Show(last)] else rest
  }

  predicate InOrder(ps: seq<nat>) { forall i, j :: 0 <= i < j < |ps| ==> ps[i] < ps[j] }

  /** That is: the positions of the day's entries, ascending, with what each of them shows. */
  lemma {:induction false} OnDayInOrder(entries: seq<Entry>, day: int) returns (ps: seq<nat>)
    ensures InOrder(ps) && forall p: nat :: p in ps <==> p < |entries| && entries[p].startsAt.day == day
    ensures |OnDay(entries, day)| == |ps|
    ensures forall i :: 0 <= i < |ps| ==>
              ps[i] < |entries|
              && OnDay(entries, day)[i] == Shown(entries[ps[i]].title, entries[ps[i]].url, entries[ps[i]].kind)
    decreases |entries|
  {
    ps := [];
    if entries != [] {
      var n := |entries| - 1;
      ps := OnDayInOrder(entries[..n], day);
      forall i | 0 <= i < |ps| ensures ps[i] < n { assert ps[i] in ps; }
      if entries[n].startsAt.day == day { ps := ps + [n]; }
    }
  }

  lemma OnDayStep(entries: seq<Entry>, i: nat, day: int)
    requires i < |entries|
    ensures OnDay(entries[..i + 1], day) ==
            OnDay(entries[..i], day) + (if entries[i].startsAt.day == day then [Show(entries[i])] else [])
  {
    assert entries[..i + 1][..i] == entries[..i];
  }

  function YearText(y: int): string
    requires y >= 1
  {
    if y < 10000 then Four(y) else Decimal(y)
  }

  /** The map key, Format("2006-01-02"). */
  function Key(day: int): string
    requires day >= 1
  {
    YearText(DateOf(day).y) + ("-" + Two(DateOf(day).m) + "-" + Two(DateOf(day).d))
  }

  lemma DecimalStep(n: nat)
    requires n >= 10
    ensures |Decimal(n)| == |Decimal(n / 10)| + 1
  {
  }

  lemma DecimalLength(n: nat)
    ensures n >= 10000 ==> |Decimal(n)| >= 5
  {
    if n >= 10000 {
      DecimalStep(n);
      DecimalStep(n / 10);
      DecimalStep(n / 10 / 10);
      DecimalStep(n / 10 / 10 / 10);
      hide Decimal;
      assert n / 10 / 10 / 10 / 10 >= 1;
    }
  }

  lemma YearTextInjective(y: int, z: int)
    requires y >= 1 && z >= 1
    ensures YearText(y) == YearText(z) <==> y == z
  {
    DecimalLength(y);
    DecimalLength(z);
    if y < 10000 && z < 10000 { FourOrder(y, z); }
    if y >= 10000 && z >= 10000 && YearText(y) == YearText(z) { DecimalInjective(y, z); }
    hide Four, Decimal;
  }

  lemma SameTail(a: string, b: string, x: string, y: string)
    requires |x| == |y|
    ensures a + x == b + y <==> a == b && x == y
  {
    if a + x == b + y {
      assert |a| == |b|;
      assert (a + x)[..|a|] == a && (b + y)[..|b|] == b;
      assert (a + x)[|a|..] == x && (b + y)[|b|..] == y;
    }
  }

  /** Different days have different keys. */
  lemma KeyInjective(a: int, b: int)
    requires a >= 1 && b >= 1
    ensures Key(a) == Key(b) <==> a == b
  {
    var x, y := DateOf(a), DateOf(b);
    DateOfInjective(a, b);
    YearTextInjective(x.y, y.y);
    TwoOrder(x.m, y.m);
    TwoOrder(x.d, y.d);
    hide DateOf, Two, YearText, Ordinal;
    SameTail(YearText(x.y), YearText(y.y), "-" + Two(x.m) + "-" + Two(x.d), "-" + Two(y.m) + "-" + Two(y.d));
    SameTail("-" + Two(x.m) + "-", "-" + Two(y.m) + "-", Two(x.d), Two(y.d));
    SameTail("-" + Two(x.m), "-" + Two(y.m), "-", "-");
    SameTail("-", "-", Two(x.m), Two(y.m));
  }

  // ----- the program -----

  function CellOf(entries: seq<Entry>, today: int, month: int, day: int): Cell
    requires day >= 1
  {
    Cell(Decimal(DateOf(day).d), DateOf(day).m != month, day == today, OnDay(entries, day))
  }

  /** basicCalendarMonth. */
  method BasicCalendarMonth(entries: seq<Entry>, now: Local) returns (shown: Month)
    requires Dated(entries, now)
    ensures var a := DateOf(AnchorDay(entries, now));
            && shown.year == a.y && shown.month == a.m && |shown.days| == 42
            && (forall i :: 0 <= i < 42 ==> shown.days[i] == CellOf(entries, now.day, a.m, GridStart(a.y, a.m) + i))
            && forall i :: 0 <= i < 42 ==> (shown.days[i].today <==> GridStart(a.y, a.m) + i == now.day)
  {
    hide DateOf, Key, GridStart, Ordinal, OnDay;
    var anchor := FutureAnchor(entries, now);
    assert AnchorDay(entries, now) == anchor.day;
    var a := DateOf(anchor.day);
    var gridStart := GridStart(a.y, a.m);
    var byDate := ByDate(entries);
    var days := new Cell[42](i => Cell("", false, false, []));
    for i := 0 to 42
      invariant forall k :: 0 <= k < i ==> days[k] == CellOf(entries, now.day, a.m, gridStart + k)
    {
      var day := gridStart + i;
      var key := Key(day);
      days[i] := Cell(Decimal(DateOf(day).d), DateOf(day).m != a.m, day == now.day, if key in byDate then byDate[key] else []);
    }
    shown := Month(a.y, a.m, days[..]);
  }

  function AnchorDay(entries: seq<Entry>, now: Local): (day: int)
    requires Dated(entries, now)
    ensures day >= 1
  {
    AnchorIsNext(entries, now);
    Anchor(entries, now).day
  }

  method FutureAnchor(entries: seq<Entry>, now: Local) returns (anchor: Local)
    ensures anchor == Anchor(entries, now)
  {
    anchor := now;
    var future := None;
    var i := 0;
    assert entries[..0] == [];
    while i < |entries|
      invariant i <= |entries| && anchor == Anchor(entries[..i], now)
      invariant future.Some? == HasFuture(entries[..i], now) && (future.Some? ==> future.value == anchor) && (future.None? ==> anchor == now)
    {
      var local := entries[i].startsAt;
      assert entries[..i + 1] == entries[..i] + [entries[i]];
      assert entries[..i + 1][..i] == entries[..i];
      if !Earlier(local, now) && (future == None || Earlier(local, future.value)) {
        future := Some(local);
        anchor := local;
      }
      i := i + 1;
    }
    assert entries[..i] == entries;
  }

  /** The entries grouped under the text of their day. */
  method ByDate(entries: seq<Entry>) returns (byDate: map<string, seq<Shown>>)
    requires forall e :: e in entries ==> e.startsAt.day >= 1
    ensures forall day :: day >= 1 ==> OnDay(entries, day) == (if Key(day) in byDate then byDate[Key(day)] else [])
  {
    hide Key, Show;
    byDate := map[];
    var i := 0;
    assert entries[..0] == [];
    assert forall day :: OnDay(entries[..0], day) == [];
    hide OnDay;
    while i < |entries|
      invariant i <= |entries|
      invariant forall day :: day >= 1 ==> OnDay(entries[..i], day) == (if Key(day) in byDate then byDate[Key(day)] else [])
    {
      var e := entries[i];
      assert e in entries;
      var key := Key(e.startsAt.day);
      byDate := byDate[key := (if key in byDate then byDate[key] else []) + [Show(e)]];
      forall day | day >= 1 ensures OnDay(entries[..i + 1], day) == (if Key(day) in byDate then byDate[Key(day)] else []) {
        OnDayStep(entries, i, day);
        KeyInjective(day, e.startsAt.day);
      }
      i := i + 1;
    }
    assert entries[..i] == entries;
  }

  // ----- what the grid shows -----

  /** The unmuted cells are the days of the month, numbered 1 to its length, in order and without gaps. */
  lemma UnmutedCellsAreTheMonth(entries: seq<Entry>, today: int, y: int, m: int, i: int)
    requires y >= 1 && 1 <= m <= 12 && 0 <= i < 42
    ensures var cell := CellOf(entries, today, m, GridStart(y, m) + i); var offset := FirstOfMonth(y, m) - GridStart(y, m);
            && 0 <= offset <= 6 && offset + DaysInMonth(y, m) <= 42
            && (!cell.muted <==> offset <= i < offset + DaysInMonth(y, m))
            && (!cell.muted ==> cell.number == Decimal(i - offset + 1))
  {
    MutedIff(y, m, i);
    GridCoversMonth(y, m);
    hide FirstOfMonth, GridStart, DateOf, OnDay, Decimal;
    var k := GridStart(y, m) + i - FirstOfMonth(y, m);
    if 0 <= k < DaysInMonth(y, m) { DateInMonth(y, m, k); }
  }

  function InWindow(entries: seq<Entry>, start: int, end: int): seq<Shown>
    decreases |entries|
  {
    if entries == [] then []
    else
      var rest, last := InWindow(entries[..|entries| - 1], start, end), entries[|entries| - 1];
      if start <= last.startsAt.day < end then rest + [Show(last)] else rest
  }

  /** Everything the cells of a stretch of days show, cell after cell. */
  function Gathered(entries: seq<Entry>, start: int, end: int): seq<Shown>
    requires start <= end
    decreases end - start
  {
    if start == end then [] else Gathered(entries, start, end - 1) + OnDay(entries, end - 1)
  }

  lemma {:induction false} WindowSplits(entries: seq<Entry>, start: int, end: int)
    requires start < end
    ensures multiset(InWindow(entries, start, end)) == multiset(InWindow(entries, start, end - 1)) + multiset(OnDay(entries, end - 1))
    decreases |entries|
  {
    if entries != [] { WindowSplits(entries[..|entries| - 1], start, end); }
  }

  /** Each entry dated inside the grid is shown exactly once, and nothing else is shown. */
  lemma {:induction false} EachEntryOnce(entries: seq<Entry>, start: int, end: int)
    requires start <= end
    ensures multiset(Gathered(entries, start, end)) == multiset(InWindow(entries, start, end))
    decreases end - start
  {
    if start == end {
      EmptyWindow(entries, start);
    } else {
      EachEntryOnce(entries, start, end - 1);
      WindowSplits(entries, start, end);
    }
  }

  lemma {:induction false} EmptyWindow(entries: seq<Entry>, start: int)
    ensures InWindow(entries, start, start) == []
    decreases |entries|
  {
    if entries != [] { EmptyWindow(entries[..|entries| - 1], start); }
  }

  /** The month of the anchor is the month shown, so the entry that chose it is never muted. */
  lemma AnchorIsShown(entries: seq<Entry>, now: Local)
    requires Dated(entries, now)
    ensures var day := AnchorDay(entries, now); var a := DateOf(day); var i := day - GridStart(a.y, a.m);
            0 <= i < 42 && !CellOf(entries, now.day, a.m, GridStart(a.y, a.m) + i).muted
  {
    var day := AnchorDay(entries, now);
    var a := DateOf(day);
    GridCoversMonth(a.y, a.m);
    DayInItsMonth(day);
    hide DateOf, FirstOfMonth, GridStart;
  }

  lemma DayInItsMonth(day: int)
    requires day >= 1
    ensures var a := DateOf(day); day == FirstOfMonth(a.y, a.m) + a.d - 1 && a.d <= DaysInMonth(a.y, a.m)
  {
    hide DateOf, DaysInMonth, DaysBeforeMonth, DaysBeforeYear;
  }

  // ----- leaderboard windows -----

  datatype Period = Week | InMonth | Year | All

  datatype Window = Window(start: int, end: int)

  function MonthWindow(a: Date): (w: Window)
    requires Valid(a)
  {
    Window(FirstOfMonth(a.y, a.m), FirstOfMonth(NextMonth(a.y, a.m).0, NextMonth(a.y, a.m).1))
  }

  function YearWindow(a: Date): (w: Window)
    requires Valid(a)
  {
    Window(FirstOfMonth(a.y, 1), FirstOfMonth(a.y + 1, 1))
  }

  function WeekWindow(day: int): (w: Window)
  {
    var start := day - (Weekday(day) + 6) % 7;
    Window(start, start + 7)
  }

  /** leaderboardPeriodBounds: the days from start up to end, midnight to midnight; no bounds for All. */
  function PeriodBounds(period: Period, day: int): Option<Window>
    requires day >= 1
  {
    match period
    case All => None
    case InMonth => Some(MonthWindow(DateOf(day)))
    case Year => Some(YearWindow(DateOf(day)))
    case Week => Some(WeekWindow(day))
  }

  lemma MonthBounds(day: int)
    requires day >= 1
    ensures var w := MonthWindow(DateOf(day)); 1 <= w.start <= day < w.end
  {
    var a := DateOf(day);
    DayInItsMonth(day);
    NextMonthFollows(a.y, a.m);
    hide DateOf, FirstOfMonth;
  }

  /** A day lies in a year exactly between the first days of that year and of the next. */
  lemma InYear(day: int, y: int)
    requires day >= 1 && y >= 1
    ensures FirstOfMonth(y, 1) <= day < FirstOfMonth(y + 1, 1) <==> DateOf(day).y == y
  {
    var a := DateOf(day);
    assert Valid(a) && Ordinal(a) == day;
    OrdinalOrder(a, Date(y, 1, 1));
    OrdinalOrder(a, Date(y + 1, 1, 1));
    hide Ordinal, DateOf, DaysInMonth;
  }

  lemma YearBounds(day: int)
    requires day >= 1
    ensures var w := YearWindow(DateOf(day)); 1 <= w.start <= day < w.end
  {
    hide DateOf, FirstOfMonth;
    InYear(day, DateOf(day).y);
  }

  lemma WeekBounds(day: int)
    requires day >= 1
    ensures var w := WeekWindow(day); 1 <= w.start <= day < w.end && w.start % 7 == 1 && w.end == w.start + 7
  {
  }

  /** The window contains the day it is taken for. */
  lemma WindowContainsNow(period: Period, day: int)
    requires day >= 1 && period != All
    ensures var w := PeriodBounds(period, day).value; 1 <= w.start <= day < w.end
  {
    MonthBounds(day);
    YearBounds(day);
    WeekBounds(day);
    hide DateOf, MonthWindow, YearWindow, WeekWindow;
  }

  /** A week starts on a Monday and has seven days; a month and a year start on their first day and end on that of the next. */
  lemma WindowShape(period: Period, day: int)
    requires day >= 1 && period != All
    ensures var w, a := PeriodBounds(period, day).value, DateOf(day);
            && w.start >= 1 && w.end >= 1
            && match period
               case Week => w.start % 7 == 1 && w.end == w.start + 7
               case InMonth =>
                 DateOf(w.start) == Date(a.y, a.m, 1) && DateOf(w.end) == (if a.m == 12 then Date(a.y + 1, 1, 1) else Date(a.y, a.m + 1, 1))
               case Year => DateOf(w.start) == Date(a.y, 1, 1) && DateOf(w.end) == Date(a.y + 1, 1, 1)
  {
    hide DateOf, MonthWindow, YearWindow, WeekWindow;
    WindowContainsNow(period, day);
    match period {
      case Week => WeekBounds(day);
      case InMonth => MonthShape(day);
      case Year => YearShape(day);
    }
  }

  lemma MonthShape(day: int)
    requires day >= 1
    ensures var w, a := MonthWindow(DateOf(day)), DateOf(day);
            && w.start >= 1 && w.end >= 1 && DateOf(w.start) == Date(a.y, a.m, 1)
            && DateOf(w.end) == if a.m == 12 then Date(a.y + 1, 1, 1) else Date(a.y, a.m + 1, 1)
  {
    hide DateOf, FirstOfMonth, DaysInMonth;
    var a := DateOf(day);
    FirstDate(a.y, a.m);
    FirstDate(NextMonth(a.y, a.m).0, NextMonth(a.y, a.m).1);
  }

  lemma YearShape(day: int)
    requires day >= 1
    ensures var w, a := YearWindow(DateOf(day)), DateOf(day);
            w.start >= 1 && w.end >= 1 && DateOf(w.start) == Date(a.y, 1, 1) && DateOf(w.end) == Date(a.y + 1, 1, 1)
  {
    hide DateOf, FirstOfMonth, DaysInMonth, Ordinal;
    var y := DateOf(day).y;
    FirstDate(y, 1);
    FirstDate(y + 1, 1);
  }

  lemma FirstDate(y: int, m: int)
    requires y >= 1 && 1 <= m <= 12
    ensures DateOf(FirstOfMonth(y, m)) == Date(y, m, 1)
  {
    hide DateOf, FirstOfMonth;
    DateInMonth(y, m, 0);
    assert FirstOfMonth(y, m) + 0 == FirstOfMonth(y, m);
  }

  lemma SameMonth(day: int, other: int)
    requires day >= 1 && other >= 1 && MonthWindow(DateOf(day)).start <= other < MonthWindow(DateOf(day)).end
    ensures MonthWindow(DateOf(other)) == MonthWindow(DateOf(day))
  {
    hide DateOf, FirstOfMonth, DaysInMonth, NextMonth;
    var a := DateOf(day);
    NextMonthFollows(a.y, a.m);
    DateInMonth(a.y, a.m, other - FirstOfMonth(a.y, a.m));
  }

  lemma SameYear(day: int, other: int)
    requires day >= 1 && other >= 1 && YearWindow(DateOf(day)).start <= other < YearWindow(DateOf(day)).end
    ensures YearWindow(DateOf(other)) == YearWindow(DateOf(day))
  {
    hide DateOf, FirstOfMonth;
    InYear(other, DateOf(day).y);
  }

  lemma SameWeek(day: int, other: int)
    requires day >= 1 && other >= 1 && WeekWindow(day).start <= other < WeekWindow(day).end
    ensures WeekWindow(other) == WeekWindow(day)
  {
    WeekBounds(day);
    WeekBounds(other);
    hide WeekWindow;
  }

  /** Every day of a window has that same window, so two windows are equal or disjoint. */
  lemma WindowsDoNotOverlap(period: Period, day: int, other: int)
    requires day >= 1 && period != All
    requires PeriodBounds(period, day).value.start <= other < PeriodBounds(period, day).value.end
    ensures other >= 1 && PeriodBounds(period, other) == PeriodBounds(period, day)
  {
    WindowContainsNow(period, day);
    match period {
      case InMonth => SameMonth(day, other);
      case Year => SameYear(day, other);
      case Week => SameWeek(day, other);
    }
    hide DateOf, MonthWindow, YearWindow, WeekWindow;
  }

  lemma NextMonthWindow(day: int)
    requires day >= 1
    ensures var w := MonthWindow(DateOf(day)); w.end >= 1 && MonthWindow(DateOf(w.end)).start == w.end
  {
    var a := DateOf(day);
    hide DateOf, FirstOfMonth;
    DateInMonth(NextMonth(a.y, a.m).0, NextMonth(a.y, a.m).1, 0);
  }

  lemma NextYearWindow(day: int)
    requires day >= 1
    ensures var w := YearWindow(DateOf(day)); w.end >= 1 && YearWindow(DateOf(w.end)).start == w.end
  {
    hide DateOf, FirstOfMonth, DaysInMonth;
    var y := DateOf(day).y + 1;
    DateInMonth(y, 1, 0);
    assert FirstOfMonth(y, 1) + 0 == FirstOfMonth(y, 1);
  }

  lemma NextWeekWindow(day: int)
    requires day >= 1
    ensures var w := WeekWindow(day); w.end >= 1 && WeekWindow(w.end).start == w.end
  {
    WeekBounds(day);
    WeekBounds(WeekWindow(day).end);
    hide WeekWindow;
  }

  /** The next window starts where one ends, so the windows leave no gap. */
  lemma WindowsLeaveNoGap(period: Period, day: int)
    requires day >= 1 && period != All
    ensures var w := PeriodBounds(period, day).value; w.end >= 1 && PeriodBounds(period, w.end).value.start == w.end
  {
    hide DateOf, MonthWindow, YearWindow, WeekWindow;
    match period {
      case InMonth => NextMonthWindow(day);
      case Year => NextYearWindow(day);
      case Week => NextWeekWindow(day);
    }
  }
}
