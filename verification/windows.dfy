/** The time windows the service asks for and the periods the demo upstream cuts them into. */
module Windows {
  import opened Calendar
  import opened Sums

  // Instants are nanoseconds since 0001-01-01T00:00:00Z.
  const HOUR := 3_600_000_000_000
  const DAY := 86_400_000_000_000

  function DayOfInstant(t: int): int { t / DAY }

  // ----- the summary's comparison windows -----

  /** A window of whole days, end exclusive. */
  datatype Window = Window(start: int, end: int)

  function Length(w: Window): int { w.end - w.start }

  /** Month to date, and as many days from the start of the previous month. */
  function MonthToDate(now: int): Window {
    var today := DayOfInstant(now);
    Window(MonthStart(MonthOf(today)), today)
  }

  function PreviousWindow(now: int): Window {
    var month := MonthOf(DayOfInstant(now));
    var dayOffset := (now - MonthStart(month) * DAY) / DAY;
    var prevStart := MonthStart(month - 1);
    Window(prevStart, prevStart + dayOffset)
  }

  /** The days two windows share. */
  function SharedDays(a: Window, b: Window): int {
    var from, to := if a.start > b.start then a.start else b.start, if a.end < b.end then a.end else b.end;
    if from < to then to - from else 0
  }

  lemma DayOffset(now: int, day: int)
    ensures (now - day * DAY) / DAY == now / DAY - day
  {
  }

  lemma WindowsInDays(now: int)
    ensures var today := DayOfInstant(now);
      var m := MonthOf(today);
      && MonthToDate(now) == Window(MonthStart(m), today)
      && PreviousWindow(now) == Window(MonthStart(m - 1), MonthStart(m - 1) + (today - MonthStart(m)))
  {
    DayOffset(now, MonthStart(MonthOf(DayOfInstant(now))));
  }

  /** The month before a month, as the calendar names it. */
  lemma PreviousMonth(m: int)
    ensures m % 12 == 2 ==> DaysInMonth(m - 1) == DaysIn(m / 12, 2)
    ensures m % 12 != 2 ==> DaysInMonth(m - 1) >= 30
  {
    if m % 12 == 0 {
      assert (m - 1) % 12 == 11;
    } else {
      assert (m - 1) / 12 == m / 12 && (m - 1) % 12 == m % 12 - 1;
    }
  }

  /** The day lies in the window. */
  predicate Within(day: int, w: Window) {
    w.start <= day < w.end
  }

  lemma {:induction false} RangeCount(lo: int, hi: int)
    ensures |set d: int | lo <= d < hi && Within(d, Window(lo, hi))| == if lo < hi then hi - lo else 0
    decreases hi - lo
  {
    var days := set d: int | lo <= d < hi && Within(d, Window(lo, hi));
    if lo < hi {
      var last := hi - 1;
      RangeCount(lo, last);
      assert days == (set d: int | lo <= d < last && Within(d, Window(lo, last))) + {last};
    } else {
      assert days == {};
    }
  }

  /** The days that lie in both windows. */
  ghost function DaysOfBoth(a: Window, b: Window): set<int> {
    set d: int | a.start <= d < a.end && Within(d, a) && Within(d, b)
  }

  lemma SharedDaysCount(a: Window, b: Window)
    ensures |DaysOfBoth(a, b)| == SharedDays(a, b)
  {
    var from, to := if a.start > b.start then a.start else b.start, if a.end < b.end then a.end else b.end;
    RangeCount(from, to);
    assert DaysOfBoth(a, b) == set d: int | from <= d < to && Within(d, Window(from, to));
  }

  /** The first of a month as a date, and of the month before. */
  lemma FirstsOfMonths(m: int)
    ensures DateOf(MonthStart(m)) == Date(m / 12, m % 12 + 1, 1)
    ensures m % 12 == 0 ==> DateOf(MonthStart(m - 1)) == Date(m / 12 - 1, 12, 1)
    ensures m % 12 != 0 ==> DateOf(MonthStart(m - 1)) == Date(m / 12, m % 12, 1)
  {
    MonthsAbut(m);
    MonthsAbut(m - 1);
    MonthIsUnique(m, MonthStart(m));
    MonthIsUnique(m - 1, MonthStart(m - 1));
    if m % 12 == 0 {
      assert (m - 1) / 12 == m / 12 - 1 && (m - 1) % 12 == 11;
    } else {
      assert (m - 1) / 12 == m / 12 && (m - 1) % 12 == m % 12 - 1;
    }
  }

  /** As many days from the start of each of two months that abut overlap by what exceeds the first month. */
  lemma Overlap(start: int, days: int, length: int)
    requires 0 <= days && 0 <= length
    ensures SharedDays(Window(start + length, start + length + days), Window(start, start + days))
         == if days > length then days - length else 0
  {
  }

  lemma WindowLengths(now: int)
    ensures var d := DateOf(DayOfInstant(now));
      var overlap := SharedDays(MonthToDate(now), PreviousWindow(now));
      && Length(MonthToDate(now)) == Length(PreviousWindow(now)) == d.day - 1
      && (d.month != 3 ==> overlap == 0)
      && (d.month == 3 ==> overlap == if d.day - 1 > DaysIn(d.year, 2) then d.day - 1 - DaysIn(d.year, 2) else 0)
      && overlap <= 2
  {
    var today := DayOfInstant(now);
    var m := MonthOf(today);
    WindowsInDays(now);
    MonthsAbut(m);
    MonthsAbut(m - 1);
    PreviousMonth(m);
    Overlap(MonthStart(m - 1), today - MonthStart(m), DaysInMonth(m - 1));
  }

  /**
   * Comparison windows. Month to date runs from the first of the month up to today, the other
   * window from the first of the month before. On every date the two have the same number of
   * days, the day of the month minus one; and they share days only in March, as many as that
   * exceeds February, which is at most two.
   */
  lemma ComparisonWindows(now: int)
    ensures var d, a, b := DateOf(now / 86_400_000_000_000), MonthToDate(now), PreviousWindow(now);
      && DateOf(a.start) == Date(d.year, d.month, 1) && DateOf(a.end) == d
      && DateOf(b.start) == (if d.month == 1 then Date(d.year - 1, 12, 1) else Date(d.year, d.month - 1, 1))
      && a.end - a.start == b.end - b.start == d.day - 1
    ensures var d, a, b := DateOf(now / 86_400_000_000_000), MonthToDate(now), PreviousWindow(now);
      var shared := |DaysOfBoth(a, b)|;
      && (d.month != 3 ==> shared == 0)
      && (d.month == 3 ==> shared == if d.day - 1 > DaysIn(d.year, 2) then d.day - 1 - DaysIn(d.year, 2) else 0)
      && shared <= 2
  {
    WindowLengths(now);
    WindowsInDays(now);
    FirstsOfMonths(MonthOf(DayOfInstant(now)));
    SharedDaysCount(MonthToDate(now), PreviousWindow(now));
  }

  // ----- the demo upstream's periods -----

  datatype Period = Period(pStart: int, pEnd: int, scale: real)

  function Scale(p: Period): real { p.scale }

  function Days(length: int): real {
    length as real / DAY as real
  }

  /** The part of a month from `lo` to `hi` that lies in [start, end). */
  function Clipped(lo: int, hi: int, start: int, end: int): Period {
    var from := if lo > start then lo else start;
    var to := if hi > end then end else hi;
    Period(from, to, Days(to - from))
  }

  /** The i-th month's part of [start, end). */
  function MonthPart(start: int, end: int, i: nat): Period {
    var month := MonthOf(DayOfInstant(start)) + i;
    Clipped(MonthStart(month) * DAY, MonthStart(month + 1) * DAY, start, end)
  }

  /** As many months as begin before the end. */
  ghost predicate MonthsCover(start: int, end: int, n: nat) {
    var first := MonthOf(DayOfInstant(start));
    && MonthStart(first + n) * DAY >= end
    && (n > 0 ==> MonthStart(first + n - 1) * DAY < end)
  }

  /** What one turn of the monthly loop emits. */
  method EmitMonth(cur: int, start: int, end: int) returns (p: Period)
    ensures p == Clipped(MonthStart(cur) * DAY, MonthStart(cur + 1) * DAY, start, end)
  {
    var curStart, pEnd := MonthStart(cur) * DAY, MonthStart(cur + 1) * DAY;
    if pEnd > end {
      pEnd := end;
    }
    var from := if curStart > start then curStart else start;
    p := Period(from, pEnd, Days(pEnd - from));
  }

  method MonthlyPeriods(start: int, end: int) returns (periods: seq<Period>)
    ensures MonthsCover(start, end, |periods|)
    ensures forall i :: 0 <= i < |periods| ==> periods[i] == MonthPart(start, end, i)
  {
    periods := [];
    var first := MonthOf(DayOfInstant(start));
    var cur := first;
    while MonthStart(cur) * DAY < end
      invariant cur == first + |periods|
      invariant |periods| > 0 ==> MonthStart(cur - 1) * DAY < end
      invariant forall i :: 0 <= i < |periods| ==> periods[i] == MonthPart(start, end, i)
      decreases end - MonthStart(cur) * DAY
    {
      MonthInstants(cur, cur + 1);
      var p := EmitMonth(cur, start, end);
      periods, cur := periods + [p], cur + 1;
    }
  }

  /** Consecutive non-empty periods that start at `start`, end at `end` and are scaled by their length. */
  ghost predicate Partitions(periods: seq<Period>, start: int, end: int) {
    && |periods| > 0 && periods[0].pStart == start && periods[|periods| - 1].pEnd == end
    && (forall i :: 0 <= i < |periods| ==> periods[i].pStart < periods[i].pEnd)
    && (forall i :: 0 < i < |periods| ==> periods[i].pStart == periods[i - 1].pEnd)
    && (forall i :: 0 <= i < |periods| ==> periods[i].scale == Days(periods[i].pEnd - periods[i].pStart))
  }

  lemma StartInFirstMonth(start: int)
    ensures var m := MonthOf(DayOfInstant(start));
      MonthStart(m) * DAY <= start < MonthStart(m + 1) * DAY
  {
  }

  lemma MonthInstants(m: int, n: int)
    requires m <= n
    ensures MonthStart(m) * DAY <= MonthStart(n) * DAY
    ensures m < n ==> MonthStart(m) * DAY < MonthStart(n) * DAY
  {
    if m < n {
      MonthsAscend(m, n);
    }
  }

  /** Months after the first begin after the start. */
  lemma LowerEdge(start: int, first: int, i: nat)
    requires MonthStart(first) * DAY <= start < MonthStart(first + 1) * DAY
    ensures if i == 0 then MonthStart(first + i) * DAY <= start else start < MonthStart(first + i) * DAY
    ensures start < MonthStart(first + i + 1) * DAY
  {
    if i > 0 {
      MonthInstants(first + 1, first + i);
    }
    MonthInstants(first + 1, first + i + 1);
  }

  /** Months before the last end before the end. */
  lemma UpperEdge(end: int, first: int, n: nat, i: nat)
    requires i < n && MonthStart(first + n - 1) * DAY < end <= MonthStart(first + n) * DAY
    ensures MonthStart(first + i) * DAY < end
    ensures if i == n - 1 then end <= MonthStart(first + i + 1) * DAY else MonthStart(first + i + 1) * DAY < end
  {
    MonthInstants(first + i, first + n - 1);
    if i < n - 1 {
      MonthInstants(first + i + 1, first + n - 1);
    }
  }

  lemma ClippedEdges(lo: int, hi: int, start: int, end: int, isFirst: bool, isLast: bool)
    requires lo < hi && lo < end && start < hi && start < end
    requires if isFirst then lo <= start else start < lo
    requires if isLast then end <= hi else hi < end
    ensures var p := Clipped(lo, hi, start, end);
      && p.pStart < p.pEnd
      && p.pStart == (if isFirst then start else lo) && p.pEnd == (if isLast then end else hi)
  {
  }

  /** Where a month that is counted lies in the window. */
  lemma EdgesInWindow(start: int, end: int, first: int, n: nat, i: nat)
    requires MonthStart(first) * DAY <= start < MonthStart(first + 1) * DAY && i < n
    requires MonthStart(first + n - 1) * DAY < end <= MonthStart(first + n) * DAY
    ensures var lo, hi := MonthStart(first + i) * DAY, MonthStart(first + i + 1) * DAY;
      && lo < hi && lo < end && start < hi
      && (if i == 0 then lo <= start else start < lo)
      && (if i == n - 1 then end <= hi else hi < end)
  {
    LowerEdge(start, first, i);
    UpperEdge(end, first, n, i);
    MonthInstants(first + i, first + i + 1);
  }

  /** A month's part of the window, with the first month given. */
  lemma PartFromMonth(first: int, start: int, end: int, n: nat, i: nat)
    requires MonthStart(first) * DAY <= start < MonthStart(first + 1) * DAY && start < end && i < n
    requires MonthStart(first + n - 1) * DAY < end <= MonthStart(first + n) * DAY
    ensures var p := Clipped(MonthStart(first + i) * DAY, MonthStart(first + i + 1) * DAY, start, end);
      && p.pStart < p.pEnd
      && p.pStart == (if i == 0 then start else MonthStart(first + i) * DAY)
      && p.pEnd == (if i == n - 1 then end else MonthStart(first + i + 1) * DAY)
  {
    EdgesInWindow(start, end, first, n, i);
    ClippedEdges(MonthStart(first + i) * DAY, MonthStart(first + i + 1) * DAY, start, end, i == 0, i == n - 1);
  }

  lemma MonthPartsAbut(start: int, end: int, n: nat, i: nat)
    requires start < end && MonthsCover(start, end, n) && i < n
    ensures var p := MonthPart(start, end, i);
      && p.pStart < p.pEnd
      && p.pStart == (if i == 0 then start else MonthStart(MonthOf(DayOfInstant(start)) + i) * DAY)
      && p.pEnd == (if i == n - 1 then end else MonthStart(MonthOf(DayOfInstant(start)) + i + 1) * DAY)
  {
    StartInFirstMonth(start);
    PartFromMonth(MonthOf(DayOfInstant(start)), start, end, n, i);
  }

  lemma SomeMonthCovers(start: int, end: int, n: nat)
    requires start < end && MonthsCover(start, end, n)
    ensures n > 0
  {
    StartInFirstMonth(start);
  }

  /** The first instant of the i-th month from the start's own. */
  function Edge(start: int): int -> int {
    (i: int) => MonthStart(MonthOf(DayOfInstant(start)) + i) * DAY
  }

  /** The i-th of n periods runs between its edges and is scaled by its length. */
  ghost predicate RunsBetween(p: Period, i: int, n: int, start: int, end: int, edge: int -> int) {
    && p.pStart < p.pEnd
    && p.pStart == (if i == 0 then start else edge(i))
    && p.pEnd == (if i == n - 1 then end else edge(i + 1))
    && p.scale == Days(p.pEnd - p.pStart)
  }

  lemma MonthRunsBetween(start: int, end: int, n: nat, i: nat)
    requires start < end && MonthsCover(start, end, n) && i < n
    ensures RunsBetween(MonthPart(start, end, i), i, n, start, end, Edge(start))
  {
    MonthPartsAbut(start, end, n, i);
  }

  lemma EdgesPartition(periods: seq<Period>, start: int, end: int, edge: int -> int)
    requires periods != []
    requires forall i :: 0 <= i < |periods| ==> RunsBetween(periods[i], i, |periods|, start, end, edge)
    ensures Partitions(periods, start, end)
  {
    forall i | 0 < i < |periods|
      ensures periods[i].pStart == periods[i - 1].pEnd
    {
      assert RunsBetween(periods[i], i, |periods|, start, end, edge);
      assert RunsBetween(periods[i - 1], i - 1, |periods|, start, end, edge);
    }
  }

  /**
   * Exact partition by month. For start < end the monthly periods partition the window: they
   * run on from `start` to `end` without gap or overlap, break at firsts of months only, and
   * their scales add up to the window's length in days.
   */
  lemma MonthlyPartition(start: int, end: int, periods: seq<Period>)
    requires start < end && MonthsCover(start, end, |periods|)
    requires forall i :: 0 <= i < |periods| ==> periods[i] == MonthPart(start, end, i)
    ensures Partitions(periods, start, end)
    ensures forall i :: 0 < i < |periods| ==> periods[i].pStart == Edge(start)(i)
    ensures forall i :: 0 < i < |periods| ==> IsFirstMidnight(periods[i].pStart)
    ensures RealSum(periods, Scale) == (end - start) as real / 86_400_000_000_000.0
  {
    SomeMonthCovers(start, end, |periods|);
    forall i | 0 <= i < |periods|
      ensures RunsBetween(periods[i], i, |periods|, start, end, Edge(start))
    {
      MonthRunsBetween(start, end, |periods|, i);
    }
    EdgesPartition(periods, start, end, Edge(start));
    ScalesAddUp(periods, start, end);
    forall i | 0 < i < |periods|
      ensures IsFirstMidnight(periods[i].pStart) && periods[i].pStart == Edge(start)(i)
    {
      EdgeIsFirst(start, i);
    }
  }

  /** Midnight at the start of the first of a month. */
  predicate IsFirstMidnight(t: int) {
    t % 86_400_000_000_000 == 0 && DateOf(t / 86_400_000_000_000).day == 1
  }

  lemma EdgeIsFirst(start: int, i: int)
    ensures IsFirstMidnight(Edge(start)(i))
  {
    var m := MonthOf(DayOfInstant(start)) + i;
    Midnights(MonthStart(m), MonthStart(m));
    FirstsOfMonths(m);
  }

  lemma {:induction false} ScalesAddUp(periods: seq<Period>, start: int, end: int)
    requires Partitions(periods, start, end)
    ensures RealSum(periods, Scale) == (end - start) as real / 86_400_000_000_000.0
    decreases |periods|
  {
    if |periods| == 1 {
      assert periods[1..] == [];
    } else {
      ScalesAddUp(periods[1..], periods[1].pStart, end);
      var a, b := periods[0].pEnd - periods[0].pStart, end - periods[1].pStart;
      assert Days(a) + Days(b) == Days(a + b);
    }
  }

  /**
   * Outside start < end the loop is not always idle: when `end` lies after the first of the
   * month that holds `start`, one period is emitted, running backwards or empty.
   */
  lemma BackwardWindow(start: int, end: int, periods: seq<Period>)
    requires end <= start && MonthsCover(start, end, |periods|)
    requires forall i :: 0 <= i < |periods| ==> periods[i] == MonthPart(start, end, i)
    ensures var first := MonthStart(MonthOf(DayOfInstant(start))) * DAY;
      if end <= first then periods == []
      else |periods| == 1 && periods[0].pStart == start && periods[0].pEnd == end
  {
    var first := MonthOf(DayOfInstant(start));
    StartInFirstMonth(start);
    if |periods| > 1 {
      if |periods| > 2 {
        MonthsAscend(first + 1, first + |periods| - 1);
      }
      assert false;
    }
  }

  /** The hourly and daily loop: steps of one length until the end is reached. */
  method SteppedPeriods(start: int, end: int, step: int) returns (periods: seq<Period>)
    requires step > 0
    ensures forall i :: 0 <= i < |periods| ==> periods[i] == Period(start + i * step, start + (i + 1) * step, 1.0)
    ensures start + |periods| * step >= end
    ensures |periods| > 0 ==> start + (|periods| - 1) * step < end
  {
    periods := [];
    var cur := start;
    while cur < end
      invariant cur == start + |periods| * step
      invariant |periods| > 0 ==> cur - step < end
      invariant forall i :: 0 <= i < |periods| ==> periods[i] == Period(start + i * step, start + (i + 1) * step, 1.0)
      decreases end - cur
    {
      assert (|periods| + 1) * step == |periods| * step + step;
      periods := periods + [Period(cur, cur + step, 1.0)];
      cur := cur + step;
    }
    assert (|periods| - 1) * step == |periods| * step - step;
  }

  // ----- the cost query's windows -----

  datatype Grain = Hourly | Daily | Monthly

  /** The window asked for; `days` counts back, for months in thirties. Dates are midnights. */
  function QueryWindow(grain: Grain, days: int, now: int): Window {
    match grain
    case Hourly =>
      var e := now / HOUR * HOUR;
      Window(e - days * 24 * HOUR, e)
    case Daily =>
      var today := DayNumber(DateOf(DayOfInstant(now)));
      Window(DayNumber(DateOf(DayOfInstant(now)), 0, -days) * DAY, today * DAY)
    case Monthly =>
      var date := DateOf(DayOfInstant(now));
      var first := Date(date.year, date.month, 1);
      Window(DayNumber(first, -(days / 30 - 1)) * DAY, DayNumber(date) * DAY)
  }

  /** The demo upstream on a window: its whole period list. */
  method DemoPeriods(grain: Grain, w: Window) returns (periods: seq<Period>)
    ensures IsDemoSplit(grain, w, periods)
  {
    match grain
    case Monthly => periods := MonthlyPeriods(w.start, w.end);
    case Hourly => periods := SteppedPeriods(w.start, w.end, HOUR);
    case Daily => periods := SteppedPeriods(w.start, w.end, DAY);
  }

  ghost predicate IsStepped(w: Window, step: int, periods: seq<Period>) {
    && (forall i :: 0 <= i < |periods| ==>
          periods[i] == Period(w.start + i * step, w.start + (i + 1) * step, 1.0))
    && w.start + |periods| * step >= w.end
    && (|periods| > 0 ==> w.start + (|periods| - 1) * step < w.end)
  }

  ghost predicate IsDemoSplit(grain: Grain, w: Window, periods: seq<Period>) {
    match grain
    case Monthly =>
      && MonthsCover(w.start, w.end, |periods|)
      && forall i :: 0 <= i < |periods| ==> periods[i] == MonthPart(w.start, w.end, i)
    case Hourly => IsStepped(w, HOUR, periods)
    case Daily => IsStepped(w, DAY, periods)
  }

  /** The window of a monthly query runs from the first of a month to today. */
  lemma MonthlyWindow(now: int, days: int)
    ensures var m, today := MonthOf(DayOfInstant(now)), DayOfInstant(now);
      QueryWindow(Monthly, days, now) == Window(MonthStart(m - (days / 30 - 1)) * DAY, today * DAY)
  {
    var date := DateOf(DayOfInstant(now));
    assert 12 * date.year + date.month - 1 == MonthOf(DayOfInstant(now));
    DayRoundTrip(DayOfInstant(now));
  }

  /** The hourly window ends at the last full hour and spans the days asked for. */
  lemma HourlyWindow(now: int, days: int)
    ensures var w := QueryWindow(Hourly, days, now);
      && w.end % 3_600_000_000_000 == 0 && w.end <= now < w.end + 3_600_000_000_000
      && w.end - w.start == days * 86_400_000_000_000
  {
  }

  /** The daily window ends at the last midnight and spans the days asked for. */
  lemma DailyWindow(now: int, days: int)
    ensures var w := QueryWindow(Daily, days, now);
      && w.end % 86_400_000_000_000 == 0 && w.end <= now < w.end + 86_400_000_000_000
      && w.end - w.start == days * 86_400_000_000_000
  {
    DayRoundTrip(DayOfInstant(now));
    Midnights(DayOfInstant(now), DayOfInstant(now));
  }

  /** The monthly window ends at the last midnight and starts days/30 - 1 months back, on the first. */
  lemma MonthlyWindowExact(now: int, days: int)
    ensures var w := QueryWindow(Monthly, days, now);
      var today, from := DateOf(now / 86_400_000_000_000), DateOf(w.start / 86_400_000_000_000);
      && w.end % 86_400_000_000_000 == 0 && w.end <= now < w.end + 86_400_000_000_000
      && w.start % 86_400_000_000_000 == 0 && from.day == 1
      && 12 * from.year + from.month == 12 * today.year + today.month - (days / 30 - 1)
  {
    var m := MonthOf(DayOfInstant(now));
    var f := m - (days / 30 - 1);
    MonthlyWindow(now, days);
    Midnights(MonthStart(f), DayOfInstant(now));
    Midnights(DayOfInstant(now), DayOfInstant(now));
    FirstsOfMonths(f);
  }

  /** As many months from month `f` as begin before the day. */
  ghost predicate DaysCover(f: int, day: int, n: nat) {
    day <= MonthStart(f + n) && (n > 0 ==> MonthStart(f + n - 1) < day)
  }

  lemma Midnights(a: int, b: int)
    ensures a * DAY <= b * DAY <==> a <= b
    ensures a * DAY < b * DAY <==> a < b
    ensures a * DAY % DAY == 0
    ensures DayOfInstant(a * DAY) == a
  {
  }

  lemma CoverInDays(f: int, day: int, n: nat)
    requires MonthsCover(MonthStart(f) * DAY, day * DAY, n)
    ensures DaysCover(f, day, n)
  {
    Midnights(MonthStart(f), day);
    MonthsAbut(f);
    MonthIsUnique(f, MonthStart(f));
    Midnights(day, MonthStart(f + n));
    Midnights(MonthStart(f + n - 1), day);
  }

  lemma CoverAtMost(f: int, m: int, day: int, n: nat)
    requires DaysCover(f, day, n) && day < MonthStart(m + 1) && f <= m
    ensures f + n <= m + 1
  {
    if m + 1 < f + n {
      MonthsInOrder(m + 1, f + n - 1);
    }
  }

  lemma CoverAtLeast(f: int, m: int, day: int, n: nat)
    requires DaysCover(f, day, n) && MonthStart(m) <= day
    ensures m <= f + n && (MonthStart(m) < day ==> m < f + n)
  {
    if f + n < m {
      MonthsAscend(f + n, m);
    }
  }

  lemma CountMonths(m: int, k: int, day: int, n: nat)
    requires k >= 1 && DaysCover(m - (k - 1), day, n) && MonthStart(m) <= day < MonthStart(m + 1)
    ensures n == k - if day == MonthStart(m) then 1 else 0
  {
    CoverAtMost(m - (k - 1), m, day, n);
    CoverAtLeast(m - (k - 1), m, day, n);
  }

  lemma FirstOfMonth(day: int)
    ensures DateOf(day).day == 1 <==> day == MonthStart(MonthOf(day))
  {
  }

  lemma MonthlyCount(now: int, days: int, n: nat)
    requires days >= 30
    requires var w := QueryWindow(Monthly, days, now); MonthsCover(w.start, w.end, n)
    ensures n == days / 30 - if DateOf(DayOfInstant(now)).day == 1 then 1 else 0
  {
    var today, k := DayOfInstant(now), days / 30;
    MonthlyWindow(now, days);
    CoverInDays(MonthOf(today) - (k - 1), today, n);
    CountMonths(MonthOf(today), k, today, n);
    FirstOfMonth(today);
  }

  /**
   * How many periods a query yields on the demo upstream: one per day asked for, 24 per day
   * when hourly, and one per thirty days when monthly, one fewer on the first of a month.
   */
  lemma PeriodCounts(grain: Grain, days: int, now: int, periods: seq<Period>)
    requires days >= 1 && (grain.Monthly? ==> days >= 30)
    requires IsDemoSplit(grain, QueryWindow(grain, days, now), periods)
    ensures |periods| ==
      match grain
      case Hourly => 24 * days
      case Daily => days
      case Monthly => days / 30 - if DateOf(DayOfInstant(now)).day == 1 then 1 else 0
    ensures !grain.Monthly? ==> periods[|periods| - 1].pEnd == QueryWindow(grain, days, now).end
    ensures grain.Hourly? ==> forall i :: 0 <= i < |periods| ==>
      periods[i].pEnd - periods[i].pStart == 3_600_000_000_000 && periods[i].scale == 1.0
    ensures grain.Daily? ==> forall i :: 0 <= i < |periods| ==>
      periods[i].pEnd - periods[i].pStart == 86_400_000_000_000 && periods[i].scale == 1.0
    ensures !grain.Monthly? ==> periods[0].pStart == QueryWindow(grain, days, now).start
    ensures !grain.Monthly? ==> forall i :: 0 < i < |periods| ==> periods[i].pStart == periods[i - 1].pEnd
  {
    match grain
    case Monthly => MonthlyCount(now, days, |periods|);
    case Hourly =>
    case Daily =>
      DayRoundTrip(DayOfInstant(now));
  }
}
