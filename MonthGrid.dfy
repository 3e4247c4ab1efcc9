/**
 * The month view shared by the tasks page, the calendar and the household
 * screen: a list of cells (blanks before day 1 so that day 1 sits under its
 * weekday, the days 1..n, blanks up to a whole number of weeks), cut into
 * rows of seven, and the day -> tasks index the calendar marks its days with.
 */
module MonthGrid {
  import opened Dates
  import opened Recurrence

  /** A grid cell: `null` or a day of the month. */
  datatype Cell = Blank | Day(day: int)

  /** What every month grid is: `lead` blanks, days 1..n, then fewer than seven blanks closing the last week. */
  predicate IsMonthGrid(cells: seq<Cell>, lead: nat, n: nat) {
    && lead + n <= |cells|
    && |cells| % 7 == 0
    && |cells| - (lead + n) < 7
    && (forall k :: 0 <= k < lead ==> cells[k] == Blank)
    && (forall d :: 1 <= d <= n ==> cells[lead + d - 1] == Day(d))
    && (forall k :: lead + n <= k < |cells| ==> cells[k] == Blank)
  }

  /**
   * The cells of `monthData` on the tasks page and the calendar: start with
   * `getDay()` of the first blanks, push each day, then push blanks while
   * the length is not a multiple of 7.
   */
  method MonthCells(year: int, month: int) returns (cells: seq<Cell>)
    requires 1 <= month <= 12
    ensures IsMonthGrid(cells, Weekday(Date(year, month, 1)), DaysInMonth(year, month))
  {
    var startDay := Weekday(Date(year, month, 1));
    var daysInMonth := DaysInMonth(year, month);
    cells := seq(startDay, _ => Blank);
    var d := 1;
    while d <= daysInMonth
      invariant 1 <= d <= daysInMonth + 1
      invariant |cells| == startDay + d - 1
      invariant forall k :: 0 <= k < startDay ==> cells[k] == Blank
      invariant forall e :: 1 <= e < d ==> cells[startDay + e - 1] == Day(e)
    {
      cells := cells + [Day(d)];
      d := d + 1;
    }
    while |cells| % 7 != 0
      invariant startDay + daysInMonth <= |cells|
      invariant (startDay + daysInMonth) % 7 == 0 ==> |cells| == startDay + daysInMonth
      invariant (startDay + daysInMonth) % 7 != 0 ==> (startDay + daysInMonth) % 7 + |cells| - (startDay + daysInMonth) <= 7
      invariant forall k :: 0 <= k < startDay ==> cells[k] == Blank
      invariant forall e :: 1 <= e <= daysInMonth ==> cells[startDay + e - 1] == Day(e)
      invariant forall k :: startDay + daysInMonth <= k < |cells| ==> cells[k] == Blank
      decreases 7 - (|cells| - (startDay + daysInMonth))
    {
      cells := cells + [Blank];
    }
  }

  /**
   * The household screen's cells: the leading blanks and the days are
   * spread into one list, which is then padded with blanks in a loop.
   */
  method HouseholdCells(year: int, month: int) returns (cells: seq<Cell>)
    requires 1 <= month <= 12
    ensures IsMonthGrid(cells, Weekday(Date(year, month, 1)), DaysInMonth(year, month))
  {
    var startDay := Weekday(Date(year, month, 1));
    var daysInMonth := DaysInMonth(year, month);
    var leadingBlanks := seq(startDay, _ => Blank);
    var monthDays := seq(daysInMonth, i => Day(i + 1));
    cells := leadingBlanks + monthDays;
    while |cells| % 7 != 0
      invariant startDay + daysInMonth <= |cells|
      invariant (startDay + daysInMonth) % 7 == 0 ==> |cells| == startDay + daysInMonth
      invariant (startDay + daysInMonth) % 7 != 0 ==> (startDay + daysInMonth) % 7 + |cells| - (startDay + daysInMonth) <= 7
      invariant forall k :: 0 <= k < startDay ==> cells[k] == Blank
      invariant forall e :: 1 <= e <= daysInMonth ==> cells[startDay + e - 1] == Day(e)
      invariant forall k :: startDay + daysInMonth <= k < |cells| ==> cells[k] == Blank
      decreases 7 - (|cells| - (startDay + daysInMonth))
    {
      cells := cells + [Blank];
    }
  }

  /** The rows laid end to end. */
  function Concat(rows: seq<seq<Cell>>): seq<Cell> {
    if rows == [] then [] else Concat(rows[..|rows| - 1]) + rows[|rows| - 1]
  }

  /**
   * `for (i = 0; i < cells.length; i += 7) weeks.push(cells.slice(i, i + 7))`:
   * consecutive slices of seven (the last one shorter when the length is not
   * a multiple of seven) that put back together give the cells.
   */
  method ChunkWeeks(cells: seq<Cell>) returns (weeks: seq<seq<Cell>>)
    ensures Concat(weeks) == cells
    ensures forall w :: 0 <= w < |weeks| ==> 1 <= |weeks[w]| <= 7
    ensures forall w :: 0 <= w < |weeks| - 1 ==> |weeks[w]| == 7
    ensures |cells| % 7 == 0 ==> forall w :: 0 <= w < |weeks| ==> |weeks[w]| == 7
    ensures |weeks| == (|cells| + 6) / 7
  {
    weeks := [];
    var i := 0;
    while i < |cells|
      invariant 0 <= i <= |cells|
      invariant i < |cells| ==> i == 7 * |weeks|
      invariant i == |cells| ==> |weeks| == (|cells| + 6) / 7
      invariant Concat(weeks) == cells[..i]
      invariant forall w :: 0 <= w < |weeks| ==> 1 <= |weeks[w]| <= 7
      invariant forall w :: 0 <= w < |weeks| - 1 ==> |weeks[w]| == 7
      invariant i < |cells| ==> forall w :: 0 <= w < |weeks| ==> |weeks[w]| == 7
      invariant |cells| % 7 == 0 ==> forall w :: 0 <= w < |weeks| ==> |weeks[w]| == 7
    {
      var j := if i + 7 <= |cells| then i + 7 else |cells|;
      var week := cells[i..j];
      assert cells[..j] == cells[..i] + week;
      assert (weeks + [week])[..|weeks|] == weeks;
      weeks := weeks + [week];
      i := j;
    }
    assert cells[..i] == cells;
  }

  /**
   * `daysWithTasks`: for each day 1..n of the month, every task that occurs
   * on it is pushed onto that day's list, in task-list order. A day is a key
   * exactly when some task occurs on it.
   */
  method DaysWithTasks(year: int, month: int, tasks: seq<Task>) returns (index: map<int, seq<Task>>)
    requires 1 <= month <= 12
    ensures forall d :: d in index <==>
      1 <= d <= DaysInMonth(year, month) && exists t :: t in tasks && OccursOnDate(t, Date(year, month, d))
    ensures forall d :: d in index ==> index[d] == TasksOn(tasks, Date(year, month, d))
  {
    index := map[];
    var n := DaysInMonth(year, month);
    var d := 1;
    while d <= n
      invariant 1 <= d <= n + 1
      invariant forall e :: e in index ==> 1 <= e < d
      invariant forall e :: 1 <= e < d ==> (e in index <==> TasksOn(tasks, Date(year, month, e)) != [])
      invariant forall e :: e in index ==> index[e] == TasksOn(tasks, Date(year, month, e))
    {
      index := CollectDay(index, d, Date(year, month, d), tasks);
      d := d + 1;
    }
    forall e | 1 <= e <= n
      ensures TasksOn(tasks, Date(year, month, e)) != [] <==> exists t :: t in tasks && OccursOnDate(t, Date(year, month, e))
    {
      var r := TasksOn(tasks, Date(year, month, e));
      TasksOnMembers(tasks, Date(year, month, e));
      if r != [] {
        assert r[0] in r;
      }
    }
  }

  /**
   * The inner `tasks.forEach` of `daysWithTasks` for day `d`: each task that
   * occurs on `date` is pushed onto `index.get(d) ?? []`, which is set back.
   */
  method CollectDay(index: map<int, seq<Task>>, d: int, date: Date, tasks: seq<Task>)
    returns (next: map<int, seq<Task>>)
    requires Valid(date) && d !in index
    ensures TasksOn(tasks, date) == [] ==> next == index
    ensures TasksOn(tasks, date) != [] ==> next == index[d := TasksOn(tasks, date)]
  {
    next := index;
    var j := 0;
    while j < |tasks|
      invariant 0 <= j <= |tasks|
      invariant next - {d} == index
      invariant d in next <==> TasksOn(tasks[..j], date) != []
      invariant d in next ==> next[d] == TasksOn(tasks[..j], date)
    {
      var hit := OccursOnDate(tasks[j], date);
      TasksOnPrefixStep(tasks, j, date);
      if hit {
        var list := if d in next then next[d] else [];
        list := list + [tasks[j]];
        next := next[d := list];
      }
      j := j + 1;
    }
    assert tasks[..j] == tasks;
  }

  /** Filtering one more task of the list extends the filtered prefix by that task exactly when it occurs. */
  lemma TasksOnPrefixStep(tasks: seq<Task>, j: nat, date: Date)
    requires Valid(date) && j < |tasks|
    ensures TasksOn(tasks[..j + 1], date) == TasksOn(tasks[..j], date) + if OccursOnDate(tasks[j], date) then [tasks[j]] else []
  {
    TasksOnAppend(tasks[..j], [tasks[j]], date);
    TasksOnSingle(tasks[j], date);
    assert tasks[..j + 1] == tasks[..j] + [tasks[j]];
  }
}
