/**
 * Which tasks fall on a calendar day. The home screen, the tasks page and
 * the calendar each carry an identical copy of `occursOnDate`; this module
 * holds it once, with the filters built on it: the home screen's
 * `todaysTasks` (tasks paired with their list position) and the calendar's
 * `tasksForSelectedDay`.
 */
module Recurrence {
  import opened Wrappers
  import opened Dates
  import Text

  /** A stored task. Its identity is its position in the task list. */
  datatype Task = Task(name: string, dueDate: string, recurrence: string, category: string)

  /**
   * `occursOnDate(task, target)`: the due date is the anchor day; "Weekly"
   * repeats on the anchor's weekday, "Monthly" on the anchor's day of the
   * month (never clamped to a shorter month), "Daily" every day, all from
   * the anchor day on; any other recurrence (including "Once") is the
   * anchor day alone. An empty or unreadable due date never occurs, and no
   * task occurs before its anchor day.
   */
  function OccursOnDate(task: Task, target: Date): (r: bool)
    requires Valid(target)
    ensures task.dueDate == [] || ParseDate(task.dueDate).None? ==> !r
    ensures r ==> OnOrBefore(ParseDate(task.dueDate).value, target)
  {
    if task.dueDate == [] then false
    else
      match ParseDate(task.dueDate)
      case None => false
      case Some(start) =>
        DayNumberOrder(start, target);
        var sameOrAfter := DayNumber(target) >= DayNumber(start);
        var sameDay := target.year == start.year && target.month == start.month && target.day == start.day;
        if task.recurrence == "Weekly" then sameOrAfter && Weekday(target) == Weekday(start)
        else if task.recurrence == "Monthly" then sameOrAfter && target.day == start.day
        else if task.recurrence == "Daily" then sameOrAfter
        else sameDay
  }

  /** Weekly: from the anchor day on (inclusive), exactly the days sharing its weekday. */
  lemma WeeklyOccursIff(task: Task, start: Date, target: Date)
    requires Valid(target) && task.recurrence == "Weekly" && ParseDate(task.dueDate) == Some(start)
    ensures OccursOnDate(task, target) <==> OnOrBefore(start, target) && Weekday(target) == Weekday(start)
  {
    DayNumberOrder(start, target);
  }

  /** Monthly: from the anchor day on, exactly the days with the anchor's day of the month. */
  lemma MonthlyOccursIff(task: Task, start: Date, target: Date)
    requires Valid(target) && task.recurrence == "Monthly" && ParseDate(task.dueDate) == Some(start)
    ensures OccursOnDate(task, target) <==> OnOrBefore(start, target) && target.day == start.day
  {
    DayNumberOrder(start, target);
  }

  /** Monthly is not clamped: an anchor on a day a month does not have never matches in that month. */
  lemma MonthlyNeverInShorterMonth(task: Task, start: Date, target: Date)
    requires Valid(target) && task.recurrence == "Monthly" && ParseDate(task.dueDate) == Some(start)
    requires DaysInMonth(target.year, target.month) < start.day
    ensures !OccursOnDate(task, target)
  {
    MonthlyOccursIff(task, start, target);
  }

  /** Daily (the legacy kind): every day from the anchor day on. */
  lemma DailyOccursIff(task: Task, start: Date, target: Date)
    requires Valid(target) && task.recurrence == "Daily" && ParseDate(task.dueDate) == Some(start)
    ensures OccursOnDate(task, target) <==> OnOrBefore(start, target)
  {
    DayNumberOrder(start, target);
  }

  /** "Once" and every unrecognised recurrence: the anchor day and no other. */
  lemma OnceOccursIff(task: Task, start: Date, target: Date)
    requires Valid(target) && ParseDate(task.dueDate) == Some(start)
    requires task.recurrence != "Weekly" && task.recurrence != "Monthly" && task.recurrence != "Daily"
    ensures OccursOnDate(task, target) <==> target == start
  {
  }

  /** The stored string "2024-01-01" reads as the first of January 2024. */
  lemma NewYear2024Parses()
    ensures ParseDate("2024-01-01") == Some(Date(2024, 1, 1))
  {
    var start := Date(2024, 1, 1);
    ParseFormatRoundTrip(start);
    assert Text.NatToString(20) == "20";
    assert Text.NatToString(202) == "202";
    assert Text.NatToString(2024) == "2024";
    assert Pad2(1) == "01";
    assert FormatDate(start) == "2024-01-01";
  }

  /** A weekly task anchored on Monday 2024-01-01 is due on Monday 2024-01-08 and not on Tuesday 2024-01-09. */
  lemma WeeklyExample(category: string)
    ensures OccursOnDate(Task("Water plants", "2024-01-01", "Weekly", category), Date(2024, 1, 8))
    ensures !OccursOnDate(Task("Water plants", "2024-01-01", "Weekly", category), Date(2024, 1, 9))
  {
    NewYear2024Parses();
    var task := Task("Water plants", "2024-01-01", "Weekly", category);
    WeeklyOccursIff(task, Date(2024, 1, 1), Date(2024, 1, 8));
    WeeklyOccursIff(task, Date(2024, 1, 1), Date(2024, 1, 9));
  }

  /** A task paired with its position in the task list. */
  datatype Indexed = Indexed(task: Task, index: nat)

  /**
   * `tasks.map((task, index) => ({ task, index })).filter(...)` from position
   * `from` on, where `keep[i]` is the filter's verdict on position i.
   */
  function KeptFrom(tasks: seq<Task>, keep: seq<bool>, from: nat): (r: seq<Indexed>)
    requires |keep| == |tasks| && from <= |tasks|
    ensures forall k :: 0 <= k < |r| ==>
      from <= r[k].index < |tasks| && r[k].task == tasks[r[k].index] && keep[r[k].index]
    ensures forall k1, k2 :: 0 <= k1 < k2 < |r| ==> r[k1].index < r[k2].index
    decreases |tasks| - from
  {
    if from == |tasks| then []
    else
      var rest := KeptFrom(tasks, keep, from + 1);
      if keep[from] then [Indexed(tasks[from], from)] + rest else rest
  }

  /** Nothing the filter accepts is lost. */
  lemma {:induction false} KeptFromComplete(tasks: seq<Task>, keep: seq<bool>, from: nat, i: nat)
    requires |keep| == |tasks| && from <= i < |tasks| && keep[i]
    ensures exists k :: 0 <= k < |KeptFrom(tasks, keep, from)| && KeptFrom(tasks, keep, from)[k].index == i
    decreases i - from
  {
    var r := KeptFrom(tasks, keep, from);
    if i == from {
      assert r[0].index == i;
    } else {
      KeptFromComplete(tasks, keep, from + 1, i);
      var rest := KeptFrom(tasks, keep, from + 1);
      var k :| 0 <= k < |rest| && rest[k].index == i;
      if keep[from] {
        assert r[k + 1].index == i;
      } else {
        assert r[k].index == i;
      }
    }
  }

  /** Every position the filter accepts appears in the result. */
  lemma KeptAll(tasks: seq<Task>, keep: seq<bool>)
    requires |keep| == |tasks|
    ensures var r := KeptFrom(tasks, keep, 0);
      forall i :: 0 <= i < |tasks| && keep[i] ==> exists k :: 0 <= k < |r| && r[k].index == i
  {
    var r := KeptFrom(tasks, keep, 0);
    forall i | 0 <= i < |tasks| && keep[i]
      ensures exists k :: 0 <= k < |r| && r[k].index == i
    {
      KeptFromComplete(tasks, keep, 0, i);
      assert exists k :: 0 <= k < |r| && r[k].index == i;
    }
    assert forall i :: 0 <= i < |tasks| && keep[i] ==> exists k :: 0 <= k < |r| && r[k].index == i;
  }

  /**
   * The home screen's `todaysTasks`: every task due `today` paired with
   * its position, each exactly once, in list order.
   */
  function TodaysTasks(tasks: seq<Task>, today: Date): (r: seq<Indexed>)
    requires Valid(today)
    ensures forall k :: 0 <= k < |r| ==>
      r[k].index < |tasks| && r[k].task == tasks[r[k].index] && OccursOnDate(r[k].task, today)
    ensures forall i :: 0 <= i < |tasks| && OccursOnDate(tasks[i], today) ==>
      exists k :: 0 <= k < |r| && r[k].index == i
    ensures forall k1, k2 :: 0 <= k1 < k2 < |r| ==> r[k1].index < r[k2].index
  {
    var keep := seq(|tasks|, i requires 0 <= i < |tasks| => OccursOnDate(tasks[i], today));
    assert forall i :: 0 <= i < |tasks| ==> keep[i] == OccursOnDate(tasks[i], today);
    KeptAll(tasks, keep);
    KeptFrom(tasks, keep, 0)
  }

  /** `tasks.filter((t) => occursOnDate(t, day))`. */
  function TasksOn(tasks: seq<Task>, day: Date): (r: seq<Task>)
    requires Valid(day)
    ensures |r| <= |tasks|
  {
    if tasks == [] then []
    else
      var init := TasksOn(tasks[..|tasks| - 1], day);
      var last := tasks[|tasks| - 1];
      if OccursOnDate(last, day) then init + [last] else init
  }

  /** The filter keeps exactly the tasks that occur on the day. */
  lemma {:induction false} TasksOnMembers(tasks: seq<Task>, day: Date)
    requires Valid(day)
    ensures forall t :: t in TasksOn(tasks, day) <==> t in tasks && OccursOnDate(t, day)
    decreases |tasks|
  {
    if tasks != [] {
      var init := tasks[..|tasks| - 1];
      TasksOnMembers(init, day);
      assert tasks == init + [tasks[|tasks| - 1]];
    }
  }

  /** The filter keeps order: filtering a concatenation is concatenating the filtered parts. */
  lemma {:induction false} TasksOnAppend(a: seq<Task>, b: seq<Task>, day: Date)
    requires Valid(day)
    ensures TasksOn(a + b, day) == TasksOn(a, day) + TasksOn(b, day)
    decreases |b|
  {
    if b == [] {
      assert a + b == a;
    } else {
      var b' := b[..|b| - 1];
      assert (a + b)[..|a + b| - 1] == a + b';
      TasksOnAppend(a, b', day);
    }
  }

  /** A single task is kept exactly when it occurs on the day. */
  lemma TasksOnSingle(t: Task, day: Date)
    requires Valid(day)
    ensures TasksOn([t], day) == if OccursOnDate(t, day) then [t] else []
  {
    assert [t][..0] == [];
  }

  /**
   * The calendar's `tasksForSelectedDay`: nothing when no day is selected
   * or the selection does not read as a date; otherwise the tasks that
   * occur on the selected day, in list order.
   */
  function TasksForSelectedDay(selected: Option<string>, tasks: seq<Task>): (r: seq<Task>)
    ensures selected.None? || selected == Some("") ==> r == []
    ensures selected.Some? && ParseDate(selected.value).None? ==> r == []
    ensures selected.Some? && ParseDate(selected.value).Some? ==> r == TasksOn(tasks, ParseDate(selected.value).value)
  {
    if selected.None? || selected.value == "" then []
    else
      match ParseDate(selected.value)
      case None => []
      case Some(day) => TasksOn(tasks, day)
  }
}
