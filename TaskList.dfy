/**
 * The tasks page and the calendar: reading the stored task list back (the
 * tasks page accepts bare strings and fills in defaults; the calendar and
 * the home screen keep only entries with a string name and due date), the
 * add/remove editor with its month cursor, and the tasks page's per-task
 * note mapping read from the home screen's slot storage.
 */
module TaskList {
  import opened Wrappers
  import opened Json
  import opened Dates
  import opened Recurrence
  import Text
  import Lists
  import Slots

  /** The recurrence and category pickers' options; the first and the last are the defaults. */
  const RecurrenceOptions: seq<string> := ["Once", "Weekly", "Monthly"]
  const CategoryOptions: seq<string> := ["Household", "Hobby", "Education", "Personal"]

  /** A task as `JSON.stringify` writes it into the stored list. */
  function TaskToJson(t: Task): Json {
    JObj(map["name" := JStr(t.name), "dueDate" := JStr(t.dueDate),
             "recurrence" := JStr(t.recurrence), "category" := JStr(t.category)])
  }

  function TasksToJson(ts: seq<Task>): (r: seq<Json>)
    ensures |r| == |ts|
  {
    if ts == [] then [] else [TaskToJson(ts[0])] + TasksToJson(ts[1..])
  }

  /** `typeof v === 'string' ? v : fallback`. */
  function StringOr(v: Option<Json>, fallback: string): (s: string)
    ensures AsString(v).Some? ==> s == AsString(v).value
    ensures AsString(v).None? ==> s == fallback
  {
    match AsString(v)
    case Some(x) => x
    case None => fallback
  }

  /**
   * The tasks page's cleaning of one stored entry: a bare string is a task
   * of that name due on the default date, "Once" and "Personal"; an object
   * with a string name keeps its fields, a missing or empty due date and a
   * non-string recurrence or category taking the defaults; anything else
   * is dropped.
   */
  function PageTask(t: Json, defaultDate: string): (r: Option<Task>)
    ensures t.JStr? ==> r == Some(Task(t.s, defaultDate, RecurrenceOptions[0], CategoryOptions[3]))
    ensures !t.JStr? ==> (r.Some? <==> AsString(Prop(t, "name")).Some?)
    ensures !t.JStr? && r.Some? ==> r.value.name == AsString(Prop(t, "name")).value
    ensures r.Some? && !t.JStr? ==>
      (if AsString(Prop(t, "dueDate")).Some? && AsString(Prop(t, "dueDate")).value != []
       then r.value.dueDate == AsString(Prop(t, "dueDate")).value
       else r.value.dueDate == defaultDate)
    ensures r.Some? && !t.JStr? ==>
      r.value.recurrence == StringOr(Prop(t, "recurrence"), "Once") && r.value.category == StringOr(Prop(t, "category"), "Personal")
  {
    if t.JStr? then Some(Task(t.s, defaultDate, RecurrenceOptions[0], CategoryOptions[3]))
    else
      match AsString(Prop(t, "name"))
      case None => None
      case Some(name) =>
        var due := StringOr(Prop(t, "dueDate"), "");
        Some(Task(name, if due != [] then due else defaultDate,
          StringOr(Prop(t, "recurrence"), RecurrenceOptions[0]), StringOr(Prop(t, "category"), CategoryOptions[3])))
  }

  /** `parsed.map(clean).filter(Boolean)` on the tasks page: with a non-empty default no task is left without a due date. */
  function PageTasks(items: seq<Json>, defaultDate: string): (r: seq<Task>)
    ensures |r| <= |items|
    ensures defaultDate != [] ==> forall k :: 0 <= k < |r| ==> r[k].dueDate != []
  {
    if items == [] then []
    else
      var rest := PageTasks(items[1..], defaultDate);
      match PageTask(items[0], defaultDate)
      case Some(t) => [t] + rest
      case None => rest
  }

  /** The calendar's and the home screen's cleaning of one entry: a string name and a string due date are required. */
  function ListedTask(t: Json): (r: Option<Task>)
    ensures r.Some? <==> AsString(Prop(t, "name")).Some? && AsString(Prop(t, "dueDate")).Some?
    ensures r.Some? ==> r.value.name == AsString(Prop(t, "name")).value && r.value.dueDate == AsString(Prop(t, "dueDate")).value
    ensures r.Some? ==> r.value.recurrence == StringOr(Prop(t, "recurrence"), "Once")
    ensures r.Some? ==> r.value.category == StringOr(Prop(t, "category"), "Personal")
  {
    match (AsString(Prop(t, "name")), AsString(Prop(t, "dueDate")))
    case (Some(name), Some(due)) =>
      Some(Task(name, due, StringOr(Prop(t, "recurrence"), "Once"), StringOr(Prop(t, "category"), "Personal")))
    case _ => None
  }

  function ListedTasks(items: seq<Json>): (r: seq<Task>)
    ensures |r| <= |items|
  {
    if items == [] then []
    else
      var rest := ListedTasks(items[1..]);
      match ListedTask(items[0])
      case Some(t) => [t] + rest
      case None => rest
  }

  /** The tasks page's `load`: only a stored array replaces the list. */
  function LoadPageTasks(parsed: Json, defaultDate: string): (r: Option<seq<Task>>)
    ensures r.Some? <==> parsed.JArr?
    ensures r.Some? ==> |r.value| <= |parsed.items|
  {
    if parsed.JArr? then Some(PageTasks(parsed.items, defaultDate)) else None
  }

  /** The calendar's and the home screen's `loadTasks`: only a stored array replaces the list. */
  function LoadListedTasks(parsed: Json): (r: Option<seq<Task>>)
    ensures r.Some? <==> parsed.JArr?
    ensures r.Some? ==> |r.value| <= |parsed.items|
  {
    if parsed.JArr? then Some(ListedTasks(parsed.items)) else None
  }

  /** One stored task with a due date reads back unchanged on the tasks page. */
  lemma PageTaskOfJson(t: Task, defaultDate: string)
    requires t.dueDate != []
    ensures PageTask(TaskToJson(t), defaultDate) == Some(t)
  {
    var j := TaskToJson(t);
    assert Prop(j, "name") == Some(JStr(t.name)) && Prop(j, "dueDate") == Some(JStr(t.dueDate));
    assert Prop(j, "recurrence") == Some(JStr(t.recurrence)) && Prop(j, "category") == Some(JStr(t.category));
  }

  /** One stored task reads back unchanged on the calendar and the home screen. */
  lemma ListedTaskOfJson(t: Task)
    ensures ListedTask(TaskToJson(t)) == Some(t)
  {
    var j := TaskToJson(t);
    assert Prop(j, "name") == Some(JStr(t.name)) && Prop(j, "dueDate") == Some(JStr(t.dueDate));
    assert Prop(j, "recurrence") == Some(JStr(t.recurrence)) && Prop(j, "category") == Some(JStr(t.category));
  }

  /** A stored task list whose due dates are all non-empty reads back unchanged on the tasks page. */
  lemma {:induction false} PageTasksRoundTrip(ts: seq<Task>, defaultDate: string)
    requires forall k :: 0 <= k < |ts| ==> ts[k].dueDate != []
    ensures PageTasks(TasksToJson(ts), defaultDate) == ts
  {
    if ts != [] {
      var js := TasksToJson(ts);
      assert js[0] == TaskToJson(ts[0]) && js[1..] == TasksToJson(ts[1..]);
      PageTasksRoundTrip(ts[1..], defaultDate);
      PageTaskOfJson(ts[0], defaultDate);
      assert ts == [ts[0]] + ts[1..];
    }
  }

  /** Every stored task list reads back unchanged on the calendar and the home screen. */
  lemma {:induction false} ListedTasksRoundTrip(ts: seq<Task>)
    ensures ListedTasks(TasksToJson(ts)) == ts
  {
    if ts != [] {
      var js := TasksToJson(ts);
      assert js[0] == TaskToJson(ts[0]) && js[1..] == TasksToJson(ts[1..]);
      ListedTasksRoundTrip(ts[1..]);
      ListedTaskOfJson(ts[0]);
      assert ts == [ts[0]] + ts[1..];
    }
  }

  /** A legacy list of bare names loads on the tasks page as default tasks of those names, in order. */
  lemma {:induction false} LegacyNamesLoad(names: seq<string>, defaultDate: string)
    ensures PageTasks(seq(|names|, k requires 0 <= k < |names| => JStr(names[k])), defaultDate)
         == seq(|names|, k requires 0 <= k < |names| => Task(names[k], defaultDate, "Once", "Personal"))
  {
    var js := seq(|names|, k requires 0 <= k < |names| => JStr(names[k]));
    if names != [] {
      assert js[1..] == seq(|names[1..]|, k requires 0 <= k < |names[1..]| => JStr(names[1..][k]));
      LegacyNamesLoad(names[1..], defaultDate);
    }
  }

  /**
   * The two loaders agree on a list where every entry is an object whose
   * string name, when present, comes with a non-empty string due date;
   * they differ only on bare strings (kept by the tasks page alone) and on
   * missing or empty due dates (filled in by the tasks page alone).
   */
  lemma {:induction false} LoadersAgree(items: seq<Json>, defaultDate: string)
    requires forall k :: 0 <= k < |items| ==> !items[k].JStr?
    requires forall k :: 0 <= k < |items| && AsString(Prop(items[k], "name")).Some? ==>
      AsString(Prop(items[k], "dueDate")).Some? && AsString(Prop(items[k], "dueDate")).value != []
    ensures PageTasks(items, defaultDate) == ListedTasks(items)
  {
    if items != [] {
      LoadersAgree(items[1..], defaultDate);
      assert PageTask(items[0], defaultDate) == ListedTask(items[0]);
    }
  }

  /** A bare string is kept by the tasks page and dropped by the calendar. */
  lemma BareStringOnlyOnTasksPage(name: string, defaultDate: string)
    ensures PageTasks([JStr(name)], defaultDate) == [Task(name, defaultDate, "Once", "Personal")]
    ensures ListedTasks([JStr(name)]) == []
  {
    assert [JStr(name)][1..] == [];
  }

  /** The status line `persistTasks` shows once the list is written. */
  const SavedStatus := "Saved locally on this device."

  /**
   * The tasks page's editor: the stored list, the add form's fields, its
   * status line and visibility, and the month the date picker shows.
   */
  class TaskEditor {
    var tasks: seq<Task>
    var name: string
    var dueDate: string
    var recurrence: string
    var category: string
    var status: string
    var showForm: bool
    var cursor: Date

    ghost predicate Valid()
      reads this
    {
      Dates.Valid(cursor) && cursor.day == 1
    }

    /** The form starts empty, due on the given day (or today), "Once", "Personal"; the picker on this month. */
    constructor (today: Date, initialDueDate: string, autoShowForm: bool)
      requires Dates.Valid(today) && today.year >= 0
      ensures Valid() && tasks == [] && name == [] && status == [] && showForm == autoShowForm
      ensures dueDate == if initialDueDate != [] then initialDueDate else FormatDate(today)
      ensures recurrence == "Once" && category == "Personal"
      ensures cursor == Date(today.year, today.month, 1)
    {
      tasks, name, status, showForm := [], [], [], autoShowForm;
      dueDate := if initialDueDate != [] then initialDueDate else FormatDate(today);
      recurrence, category := RecurrenceOptions[0], CategoryOptions[3];
      cursor := Date(today.year, today.month, 1);
    }

    /**
     * `handleAdd`: a blank name or due date only sets the status line.
     * Otherwise exactly one task (trimmed name and date, the chosen
     * recurrence and category) is appended at the end, the status line says
     * the list was saved, and the form is reset to an empty name due today,
     * "Once", "Personal", and hidden.
     */
    method Add(todayText: string) returns (added: bool)
      requires Valid()
      modifies this
      ensures Valid() && cursor == old(cursor)
      ensures added <==> !Text.IsBlank(old(name)) && !Text.IsBlank(old(dueDate))
      ensures added ==> tasks == old(tasks) + [Task(Text.Trim(old(name)), Text.Trim(old(dueDate)), old(recurrence), old(category))]
      ensures added ==> tasks[|tasks| - 1].name != [] && Text.IsTrimmed(tasks[|tasks| - 1].name)
      ensures added ==> name == [] && dueDate == todayText && recurrence == "Once" && category == "Personal" && !showForm
      ensures added ==> status == SavedStatus
      ensures !added ==> (tasks == old(tasks) && status == "Enter a name and due date." && name == old(name)
        && dueDate == old(dueDate) && recurrence == old(recurrence) && category == old(category) && showForm == old(showForm))
    {
      var trimmedName := Text.Trim(name);
      var trimmedDate := Text.Trim(dueDate);
      if trimmedName == [] || trimmedDate == [] {
        status := "Enter a name and due date.";
        return false;
      }
      tasks := tasks + [Task(trimmedName, trimmedDate, recurrence, category)];
      name := [];
      dueDate := todayText;
      recurrence := RecurrenceOptions[0];
      category := CategoryOptions[3];
      showForm := false;
      status := SavedStatus;
      added := true;
    }

    /**
     * `handleRemove(index)`: exactly the task at `index` leaves the list, the
     * rest keep their order, and the status line says the list was saved.
     */
    method Remove(index: int)
      modifies this`tasks, this`status
      ensures tasks == Lists.DropIndex(old(tasks), index)
      ensures status == SavedStatus
    {
      tasks := Lists.DropIndex(tasks, index);
      status := SavedStatus;
    }

    /** `goMonth(delta)`: the picker shows the first day of the month `delta` months away. */
    method GoMonth(delta: int)
      requires Valid()
      modifies this`cursor
      ensures Valid()
      ensures cursor == ShiftMonth(old(cursor).year, old(cursor).month, delta)
      ensures cursor.year * 12 + cursor.month == old(cursor).year * 12 + old(cursor).month + delta
    {
      cursor := ShiftMonth(cursor.year, cursor.month, delta);
    }
  }

  /** A note as the tasks page lists it: the timestamp may be missing. */
  datatype ListedNote = ListedNote(text: Option<string>, voice: Option<string>, timestamp: Option<string>)

  /** What every listed note is: text or voice present, text trimmed and non-empty, voice non-empty. */
  predicate CleanListed(n: ListedNote) {
    && (n.text.Some? || n.voice.Some?)
    && (n.text.Some? ==> n.text.value != [] && Text.IsTrimmed(n.text.value))
    && (n.voice.Some? ==> n.voice.value != [])
  }

  /** One stored note entry on the tasks page: trimmed text and voice, nothing when both are empty. */
  function ListedNoteFromJson(e: Json): (r: Option<ListedNote>)
    ensures r.Some? ==> CleanListed(r.value)
    ensures r.Some? ==> IsObjectLike(e)
    ensures r.Some? ==> r.value.timestamp == AsString(Prop(e, "timestamp"))
  {
    if !IsObjectLike(e) then None
    else
      var text := Slots.TextValue(e);
      var voice := Slots.VoiceValue(e);
      if text == [] && voice == [] then None
      else Some(ListedNote(if text == [] then None else Some(text), if voice == [] then None else Some(voice),
        AsString(Prop(e, "timestamp"))))
  }

  function ListedNotesFromJson(items: seq<Json>): (r: seq<ListedNote>)
    ensures |r| <= |items|
    ensures forall k :: 0 <= k < |r| ==> CleanListed(r[k])
  {
    if items == [] then []
    else
      var rest := ListedNotesFromJson(items[1..]);
      match ListedNoteFromJson(items[0])
      case Some(n) => [n] + rest
      case None => rest
  }

  /** The single legacy note: the slot's entry of the stored text array, when it is non-blank text. */
  function LegacyNote(slotNotes: Json, slot: nat): (r: Option<seq<ListedNote>>)
    ensures r.Some? <==> (slotNotes.JArr? && AsString(Elem(slotNotes, slot)).Some?
      && !Text.IsBlank(AsString(Elem(slotNotes, slot)).value))
    ensures r.Some? ==> r.value == [ListedNote(Some(Text.Trim(AsString(Elem(slotNotes, slot)).value)), None, None)]
    ensures r.Some? ==> CleanListed(r.value[0])
  {
    if !slotNotes.JArr? then None
    else
      match AsString(Elem(slotNotes, slot))
      case Some(text) =>
        var t := Text.Trim(text);
        if t != [] then Some([ListedNote(Some(t), None, None)]) else None
      case None => None
  }

  /**
   * The notes the tasks page shows for task `idx`: only a task whose
   * stored slot is a number >= 0 gets any; it gets that slot's cleaned note
   * list when that is non-empty, else the legacy text note when there is
   * one. A task that gets notes gets at least one, and all are clean.
   */
  function TaskNotesFor(slotState: Json, slotNotes: Json, slotList: Json, idx: nat): (r: Option<seq<ListedNote>>)
    ensures r.Some? ==> AsNumber(Elem(slotState, idx)).Some? && AsNumber(Elem(slotState, idx)).value >= 0
    ensures r.Some? ==> r.value != [] && forall k :: 0 <= k < |r.value| ==> CleanListed(r.value[k])
  {
    match AsNumber(Elem(slotState, idx))
    case Some(slot) =>
      if slot < 0 then None
      else
        var listed := match AsArray(Elem(slotList, slot)) case Some(items) => ListedNotesFromJson(items) case None => [];
        if listed != [] then Some(listed) else LegacyNote(slotNotes, slot)
    case None => None
  }

  /** One step of `loadNotes`' walk: task `idx` gets its notes, when it has any. */
  method MapOneTask(m: map<nat, seq<ListedNote>>, idx: nat, slotState: Json, slotNotes: Json, slotList: Json)
    returns (next: map<nat, seq<ListedNote>>)
    ensures TaskNotesFor(slotState, slotNotes, slotList, idx).Some? ==>
      next == m[idx := TaskNotesFor(slotState, slotNotes, slotList, idx).value]
    ensures TaskNotesFor(slotState, slotNotes, slotList, idx).None? ==> next == m
    ensures m.Keys <= next.Keys
  {
    var notes := TaskNotesFor(slotState, slotNotes, slotList, idx);
    next := if notes.Some? then m[idx := notes.value] else m;
  }

  /**
   * `loadNotes`' mapping: nothing when the stored slot state is not an
   * array; otherwise, walking the task positions, each task that gets
   * notes is a key with those notes, and no other key is set.
   */
  method MapTaskNotes(taskCount: nat, slotState: Json, slotNotes: Json, slotList: Json)
    returns (mapping: Option<map<nat, seq<ListedNote>>>)
    ensures mapping.Some? <==> slotState.JArr?
    ensures mapping.Some? ==> forall idx: nat :: idx in mapping.value <==>
      idx < taskCount && TaskNotesFor(slotState, slotNotes, slotList, idx).Some?
    ensures mapping.Some? ==> forall idx: nat :: idx in mapping.value ==>
      mapping.value[idx] == TaskNotesFor(slotState, slotNotes, slotList, idx).value
  {
    if !slotState.JArr? {
      return None;
    }
    var m: map<nat, seq<ListedNote>> := map[];
    var idx: nat := 0;
    while idx < taskCount
      invariant idx <= taskCount
      invariant forall i: nat :: i in m ==> i < idx
      invariant forall i: nat :: i < idx && TaskNotesFor(slotState, slotNotes, slotList, i).Some? ==> i in m
      invariant forall i: nat :: i in m ==>
        TaskNotesFor(slotState, slotNotes, slotList, i).Some? && m[i] == TaskNotesFor(slotState, slotNotes, slotList, i).value
    {
      ghost var before := m;
      m := MapOneTask(m, idx, slotState, slotNotes, slotList);
      forall i: nat | i <= idx && TaskNotesFor(slotState, slotNotes, slotList, i).Some?
        ensures i in m
      {
        if i < idx {
          assert i in before;
        }
      }
      idx := idx + 1;
    }
    mapping := Some(m);
  }

  /** How a note the home screen stored appears on the tasks page. */
  function AsListed(n: Slots.NoteEntry): ListedNote {
    ListedNote(n.text, n.voice, Some(n.timestamp))
  }

  function ListedLog(ns: seq<Slots.NoteEntry>): (r: seq<ListedNote>)
    ensures |r| == |ns|
  {
    if ns == [] then [] else [AsListed(ns[0])] + ListedLog(ns[1..])
  }

  /** A clean note the home screen wrote is listed with the same text, voice and timestamp. */
  lemma ListedNoteRoundTrip(n: Slots.NoteEntry)
    requires Slots.CleanNote(n)
    ensures ListedNoteFromJson(Slots.NoteToJson(n)) == Some(AsListed(n))
  {
    var j := Slots.NoteToJson(n);
    assert "timestamp" in j.fields && j.fields["timestamp"] == JStr(n.timestamp);
    if n.text.Some? {
      assert j.fields["text"] == JStr(n.text.value);
      Text.TrimOfTrimmed(n.text.value);
    } else {
      assert "text" !in j.fields;
    }
    if n.voice.Some? {
      assert j.fields["voice"] == JStr(n.voice.value);
    } else {
      assert "voice" !in j.fields;
    }
  }

  /** A clean note log the home screen wrote is listed entry for entry, in order. */
  lemma {:induction false} ListedLogRoundTrip(ns: seq<Slots.NoteEntry>)
    requires Slots.CleanLog(ns)
    ensures ListedNotesFromJson(Slots.NotesToJson(ns)) == ListedLog(ns)
  {
    if ns != [] {
      var js := Slots.NotesToJson(ns);
      assert js[0] == Slots.NoteToJson(ns[0]) && js[1..] == Slots.NotesToJson(ns[1..]);
      ListedNoteRoundTrip(ns[0]);
      ListedLogRoundTrip(ns[1..]);
      assert ListedNotesFromJson(js) == [AsListed(ns[0])] + ListedNotesFromJson(js[1..]);
    }
  }

  /**
   * The home screen's note logs reach the tasks page: a task stored as held
   * by slot `s` is shown exactly that slot's log when the log is non-empty.
   */
  lemma SlotLogShownForTask(slotState: Json, slotNotes: Json, l0: seq<Slots.NoteEntry>, l1: seq<Slots.NoteEntry>,
                            l2: seq<Slots.NoteEntry>, idx: nat, s: nat)
    requires Elem(slotState, idx) == Some(JNum(s)) && s < 3
    requires Slots.CleanLog(l0) && Slots.CleanLog(l1) && Slots.CleanLog(l2)
    requires [l0, l1, l2][s] != []
    ensures TaskNotesFor(slotState, slotNotes, Slots.NoteListsJson(l0, l1, l2), idx) == Some(ListedLog([l0, l1, l2][s]))
  {
    var log := [l0, l1, l2][s];
    var stored := Slots.NoteListsJson(l0, l1, l2);
    assert Elem(stored, s) == Some(JArr(Slots.NotesToJson(log)));
    ListedLogRoundTrip(log);
  }
}
