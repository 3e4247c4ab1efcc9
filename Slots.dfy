/**
 * The home screen's three-slot daily scheduler: three slots, each holding
 * the position of a task in the task list or -1, a note log per slot, the
 * positional encoding the slots are persisted in ("for each task, which
 * slot holds it"), and the restore path that reads both back.
 */
module Slots {
  import opened Wrappers
  import opened Json
  import Text
  import opened Lists
  import opened Recurrence

  /** A note: trimmed text or a voice-memo uri (or both), stamped with an ISO time string. */
  datatype NoteEntry = NoteEntry(text: Option<string>, voice: Option<string>, timestamp: string)

  /** No task position sits in two slots (-1, the empty slot, may repeat). */
  predicate Distinct(slots: seq<int>) {
    forall a, b :: 0 <= a < |slots| && 0 <= b < |slots| && a != b && slots[a] >= 0 ==> slots[a] != slots[b]
  }

  /** What the scheduler keeps: three slots, each empty or naming one of `taskCount` tasks, none named twice. */
  predicate WellFormedSlots(slots: seq<int>, taskCount: nat) {
    |slots| == 3 && Distinct(slots) && forall k :: 0 <= k < 3 ==> -1 <= slots[k] < taskCount
  }

  /** `s.indexOf(x)`: the first position holding `x`, or -1. */
  function IndexOf(s: seq<int>, x: int): (r: int)
    ensures -1 <= r < |s|
    ensures r == -1 <==> x !in s
    ensures r >= 0 ==> s[r] == x && forall j :: 0 <= j < r ==> s[j] != x
  {
    if s == [] then -1
    else if s[0] == x then 0
    else
      var k := IndexOf(s[1..], x);
      if k < 0 then -1 else k + 1
  }

  /**
   * `persistActiveSlots`: for each task position, the first slot holding
   * it, else -1.
   */
  function EncodeSlots(slots: seq<int>, taskCount: nat): (r: seq<int>)
    ensures |r| == taskCount
    ensures forall i :: 0 <= i < taskCount ==> (r[i] == -1 <==> i !in slots)
    ensures forall i :: 0 <= i < taskCount && r[i] != -1 ==>
      0 <= r[i] < |slots| && slots[r[i]] == i && forall j :: 0 <= j < r[i] ==> slots[j] != i
  {
    seq(taskCount, i => IndexOf(slots, i))
  }

  /** The stored slot state as `JSON.stringify` writes it: an array of numbers. */
  function NumbersJson(xs: seq<int>): (r: seq<Json>)
    ensures |r| == |xs| && forall i :: 0 <= i < |xs| ==> r[i] == JNum(xs[i])
  {
    seq(|xs|, i requires 0 <= i < |xs| => JNum(xs[i]))
  }

  /**
   * `restoreSlots`: start from three empty slots and walk the stored array;
   * an entry at task position i that is a number k in 0..2 puts i into slot
   * k, provided i is a position of the current task list. Later entries win.
   * So a slot holds the last position that names it, or -1 when none does,
   * and stale or malformed entries are ignored.
   */
  function DecodeSlots(stored: seq<Json>, taskCount: int): (r: seq<int>)
    ensures |r| == 3
    ensures forall k :: 0 <= k < 3 ==>
      r[k] == -1 || (0 <= r[k] < |stored| && r[k] < taskCount && stored[r[k]] == JNum(k))
    ensures Distinct(r)
    decreases |stored|
  {
    if stored == [] then [-1, -1, -1]
    else
      var prev := DecodeSlots(stored[..|stored| - 1], taskCount);
      var taskIdx := |stored| - 1;
      match stored[taskIdx]
      case JNum(slotIdx) =>
        if 0 <= slotIdx < 3 && taskIdx < taskCount then prev[slotIdx := taskIdx] else prev
      case _ => prev
  }

  /** A slot holds the last position (below `taskCount`) whose stored entry names it. */
  lemma {:induction false} DecodeSlotsKeepsLast(stored: seq<Json>, taskCount: int)
    ensures var r := DecodeSlots(stored, taskCount);
      forall k, i :: 0 <= k < 3 && 0 <= i < |stored| && i < taskCount && stored[i] == JNum(k) ==> i <= r[k]
    decreases |stored|
  {
    if stored != [] {
      var init := stored[..|stored| - 1];
      DecodeSlotsKeepsLast(init, taskCount);
      assert forall i :: 0 <= i < |init| ==> init[i] == stored[i];
    }
  }

  /** Slots that were persisted read back as the same slots. */
  lemma SlotsRoundTrip(slots: seq<int>, taskCount: nat)
    requires WellFormedSlots(slots, taskCount)
    ensures DecodeSlots(NumbersJson(EncodeSlots(slots, taskCount)), taskCount) == slots
  {
    var enc := EncodeSlots(slots, taskCount);
    var stored := NumbersJson(enc);
    var r := DecodeSlots(stored, taskCount);
    DecodeSlotsKeepsLast(stored, taskCount);
    forall k | 0 <= k < 3
      ensures r[k] == slots[k]
    {
      if slots[k] >= 0 {
        var i := slots[k];
        assert slots[IndexOf(slots, i)] == i;
        assert enc[i] == k;
        assert stored[i] == JNum(k);
      }
      if r[k] >= 0 {
        assert enc[r[k]] == k;
      }
    }
  }

  /** `typeof e.text === 'string' ? e.text.trim() : ''`: already in trimmed form. */
  function TextValue(e: Json): (t: string)
    ensures Text.IsTrimmed(t)
  {
    match AsString(Prop(e, "text"))
    case Some(raw) => Text.Trim(raw)
    case None => ""
  }

  /** `typeof e.voice === 'string' ? e.voice : ''`. */
  function VoiceValue(e: Json): string {
    match AsString(Prop(e, "voice"))
    case Some(v) => v
    case None => ""
  }

  /** `restoreNotes` for one stored entry: trimmed text and voice; nothing when both are empty. */
  function NoteFromJson(e: Json, now: string): (r: Option<NoteEntry>)
    ensures r.Some? ==> CleanNote(r.value)
  {
    if !e.JObj? then None
    else
      var text := TextValue(e);
      var voice := VoiceValue(e);
      if text == [] && voice == [] then None
      else
        var stamp := match AsString(Prop(e, "timestamp")) case Some(t) => t case None => now;
        Some(NoteEntry(if text == [] then None else Some(text), if voice == [] then None else Some(voice), stamp))
  }

  /** What a restored note always is: text or voice present, text trimmed and non-empty, voice non-empty. */
  predicate CleanNote(n: NoteEntry) {
    && (n.text.Some? || n.voice.Some?)
    && (n.text.Some? ==> n.text.value != [] && Text.IsTrimmed(n.text.value))
    && (n.voice.Some? ==> n.voice.value != [])
  }

  /** `arr.map(...).filter(Boolean)` over one stored note list. */
  function NotesFromJson(items: seq<Json>, now: string): (r: seq<NoteEntry>)
    ensures |r| <= |items|
    ensures forall k :: 0 <= k < |r| ==> CleanNote(r[k])
  {
    if items == [] then []
    else
      var rest := NotesFromJson(items[1..], now);
      match NoteFromJson(items[0], now)
      case Some(n) => [n] + rest
      case None => rest
  }

  /** `parsed[k] ?? []`, then `Array.isArray(arr) ? ... : []`. */
  function SlotNotesFromJson(v: Option<Json>, now: string): (r: seq<NoteEntry>)
    ensures forall k :: 0 <= k < |r| ==> CleanNote(r[k])
  {
    match AsArray(v)
    case Some(items) => NotesFromJson(items, now)
    case None => []
  }

  /**
   * `restoreNotes`: a stored array gives exactly three cleaned lists (from
   * its elements 0, 1 and 2); anything else leaves the lists as they are.
   */
  function RestoreNoteLists(parsed: Json, now: string): (r: Option<seq<seq<NoteEntry>>>)
    ensures r.Some? <==> parsed.JArr?
    ensures r.Some? ==> |r.value| == 3
    ensures r.Some? ==> forall s, k :: 0 <= s < 3 && 0 <= k < |r.value[s]| ==> CleanNote(r.value[s][k])
  {
    if parsed.JArr? then
      Some([SlotNotesFromJson(Elem(parsed, 0), now), SlotNotesFromJson(Elem(parsed, 1), now), SlotNotesFromJson(Elem(parsed, 2), now)])
    else None
  }

  /** A note as `JSON.stringify` writes it: absent fields are omitted. */
  function NoteToJson(n: NoteEntry): Json {
    JObj((if n.text.Some? then map["text" := JStr(n.text.value)] else map[])
      + (if n.voice.Some? then map["voice" := JStr(n.voice.value)] else map[])
      + map["timestamp" := JStr(n.timestamp)])
  }

  function NotesToJson(ns: seq<NoteEntry>): (r: seq<Json>)
    ensures |r| == |ns|
  {
    if ns == [] then [] else [NoteToJson(ns[0])] + NotesToJson(ns[1..])
  }

  /** A clean note survives being written and read back. */
  lemma NoteRoundTrip(n: NoteEntry, now: string)
    requires CleanNote(n)
    ensures NoteFromJson(NoteToJson(n), now) == Some(n)
  {
    var j := NoteToJson(n);
    assert "timestamp" in j.fields && j.fields["timestamp"] == JStr(n.timestamp);
    if n.text.Some? {
      assert j.fields["text"] == JStr(n.text.value);
      Text.TrimOfTrimmed(n.text.value);
    } else {
      assert "text" !in j.fields;
    }
    if n.voice.Some? {
      assert j.fields["voice"] == JStr(n.voice.value);
    } else {
      assert "voice" !in j.fields;
    }
  }

  /** A list of clean notes survives being written and read back, in order. */
  lemma {:induction false} NotesRoundTrip(ns: seq<NoteEntry>, now: string)
    requires CleanLog(ns)
    ensures NotesFromJson(NotesToJson(ns), now) == ns
  {
    if ns != [] {
      var js := NotesToJson(ns);
      assert js[0] == NoteToJson(ns[0]) && js[1..] == NotesToJson(ns[1..]);
      assert CleanNote(ns[0]);
      NoteRoundTrip(ns[0], now);
      assert CleanLog(ns[1..]) by {
        forall k | 0 <= k < |ns| - 1
          ensures CleanNote(ns[1..][k])
        {
          assert ns[1..][k] == ns[k + 1];
        }
      }
      NotesRoundTrip(ns[1..], now);
      assert NotesFromJson(js, now) == [ns[0]] + NotesFromJson(js[1..], now);
      assert ns == [ns[0]] + ns[1..];
    }
  }

  /** Every note of a log is clean. */
  predicate CleanLog(log: seq<NoteEntry>) {
    forall k :: 0 <= k < |log| ==> CleanNote(log[k])
  }

  /** The three logs as `saveSlotNoteList` stores them: an array of three arrays of notes. */
  function NoteListsJson(l0: seq<NoteEntry>, l1: seq<NoteEntry>, l2: seq<NoteEntry>): Json {
    JArr([JArr(NotesToJson(l0)), JArr(NotesToJson(l1)), JArr(NotesToJson(l2))])
  }

  /** Three logs of clean notes read back as the same three logs. */
  lemma NoteListsRoundTrip(l0: seq<NoteEntry>, l1: seq<NoteEntry>, l2: seq<NoteEntry>, now: string)
    requires CleanLog(l0) && CleanLog(l1) && CleanLog(l2)
    ensures RestoreNoteLists(NoteListsJson(l0, l1, l2), now) == Some([l0, l1, l2])
  {
    NotesRoundTrip(l0, now);
    NotesRoundTrip(l1, now);
    NotesRoundTrip(l2, now);
  }

  /**
   * Finishing a task does not renumber the other slots: a slot that held a
   * later position now names the task that followed its own, and a slot that
   * held the last position names no task at all.
   */
  lemma FinishLeavesLaterSlotsShifted(tasks: seq<Task>, finished: nat, held: nat)
    requires finished < held < |tasks|
    ensures held + 1 < |tasks| ==> DropIndex(tasks, finished)[held] == tasks[held + 1]
    ensures held + 1 == |tasks| ==> held >= |DropIndex(tasks, finished)|
  {
  }

  /**
   * The home screen's scheduler state: the task list, the three slots
   * (`activeIndices`) and the three note logs (`slotNoteList`).
   */
  class SlotBoard {
    var tasks: seq<Task>
    const slots: array<int>
    const notes: array<seq<NoteEntry>>

    ghost predicate Valid()
      reads this, slots
    {
      slots.Length == 3 && notes.Length == 3 && Distinct(slots[..])
    }

    /** The initial state: all three slots empty, no notes. */
    constructor (tasks: seq<Task>)
      ensures Valid() && fresh(slots) && fresh(notes)
      ensures this.tasks == tasks && slots[..] == [-1, -1, -1] && notes[..] == [[], [], []]
    {
      this.tasks := tasks;
      slots := new int[3](_ => -1);
      notes := new seq<NoteEntry>[3](_ => []);
      new;
      assert slots[..] == [-1, -1, -1];
      assert notes[..] == [[], [], []];
    }

    /**
     * `pickTask`: with a slot chosen in the picker and the task not held by
     * another slot, the slot takes the task and its notes are emptied;
     * otherwise nothing changes.
     */
    method PickTask(pickerSlot: Option<int>, taskIndex: int) returns (picked: bool)
      requires Valid() && (pickerSlot.Some? ==> 0 <= pickerSlot.value < 3)
      modifies slots, notes
      ensures Valid()
      ensures picked <==> pickerSlot.Some? && forall i :: 0 <= i < 3 && i != pickerSlot.value ==> old(slots[i]) != taskIndex
      ensures picked ==> slots[..] == old(slots[..])[pickerSlot.value := taskIndex]
      ensures picked ==> notes[..] == old(notes[..])[pickerSlot.value := []]
      ensures !picked ==> slots[..] == old(slots[..]) && notes[..] == old(notes[..])
    {
      if pickerSlot.None? {
        return false;
      }
      var slot := pickerSlot.value;
      if exists i :: 0 <= i < 3 && i != slot && slots[i] == taskIndex {
        return false;
      }
      slots[slot] := taskIndex;
      notes[slot] := [];
      picked := true;
    }

    /** `clearSlot`: only that slot becomes empty and only its notes are cleared. */
    method ClearSlot(slot: int)
      requires Valid() && 0 <= slot < 3
      modifies slots, notes
      ensures Valid()
      ensures slots[..] == old(slots[..])[slot := -1]
      ensures notes[..] == old(notes[..])[slot := []]
    {
      slots[slot] := -1;
      notes[slot] := [];
    }

    /**
     * `finishTask`: an empty slot does nothing. Otherwise the slot's task is
     * filtered out of the task list, every slot naming it is emptied, the
     * other slots keep their numbers (they are not shifted down), and only
     * the finished slot's notes are cleared.
     */
    method FinishTask(slot: int)
      requires Valid() && 0 <= slot < 3
      modifies this, slots, notes
      ensures Valid()
      ensures old(slots[slot]) < 0 ==>
        tasks == old(tasks) && slots[..] == old(slots[..]) && notes[..] == old(notes[..])
      ensures old(slots[slot]) >= 0 ==> tasks == DropIndex(old(tasks), old(slots[slot]))
      ensures old(slots[slot]) >= 0 ==>
        forall i :: 0 <= i < 3 ==> slots[i] == if old(slots[i]) == old(slots[slot]) then -1 else old(slots[i])
      ensures old(slots[slot]) >= 0 ==> notes[..] == old(notes[..])[slot := []]
    {
      var taskIndex := slots[slot];
      if taskIndex < 0 {
        return;
      }
      tasks := DropIndex(tasks, taskIndex);
      for i := 0 to 3
        invariant forall j :: 0 <= j < i ==> slots[j] == if old(slots[j]) == taskIndex then -1 else old(slots[j])
        invariant forall j :: i <= j < 3 ==> slots[j] == old(slots[j])
        invariant tasks == DropIndex(old(tasks), taskIndex) && notes[..] == old(notes[..])
      {
        if slots[i] == taskIndex {
          slots[i] := -1;
        }
      }
      notes[slot] := [];
    }

    /**
     * Saving a typed note into the slot whose note editor is open: blank
     * text (after trimming) or no open editor appends nothing; otherwise
     * exactly one entry with the trimmed text is appended to that slot's
     * log alone.
     */
    method SaveTextNote(noteModalSlot: Option<int>, draft: string, now: string) returns (saved: bool)
      requires Valid() && (noteModalSlot.Some? ==> 0 <= noteModalSlot.value < 3)
      modifies notes
      ensures Valid()
      ensures saved <==> noteModalSlot.Some? && !Text.IsBlank(draft)
      ensures saved ==> notes[..] == old(notes[..])[noteModalSlot.value :=
        old(notes[noteModalSlot.value]) + [NoteEntry(Some(Text.Trim(draft)), None, now)]]
      ensures !saved ==> notes[..] == old(notes[..])
    {
      if noteModalSlot.None? {
        return false;
      }
      var trimmed := Text.Trim(draft);
      if trimmed == [] {
        return false;
      }
      var slot := noteModalSlot.value;
      var list := notes[slot];
      list := list + [NoteEntry(Some(trimmed), None, now)];
      notes[slot] := list;
      saved := true;
    }

    /**
     * Saving a recorded voice memo: without a recording (no uri, or an
     * empty one) or an open editor nothing is appended; otherwise exactly
     * one voice entry is appended to that slot's log alone.
     */
    method SaveVoiceNote(noteModalSlot: Option<int>, recordedUri: Option<string>, now: string) returns (saved: bool)
      requires Valid() && (noteModalSlot.Some? ==> 0 <= noteModalSlot.value < 3)
      modifies notes
      ensures Valid()
      ensures saved <==> noteModalSlot.Some? && recordedUri.Some? && recordedUri.value != []
      ensures saved ==> notes[..] == old(notes[..])[noteModalSlot.value :=
        old(notes[noteModalSlot.value]) + [NoteEntry(None, recordedUri, now)]]
      ensures !saved ==> notes[..] == old(notes[..])
    {
      if recordedUri.None? || recordedUri.value == [] || noteModalSlot.None? {
        return false;
      }
      var slot := noteModalSlot.value;
      var list := notes[slot];
      list := list + [NoteEntry(None, recordedUri, now)];
      notes[slot] := list;
      saved := true;
    }

    /**
     * `restoreSlots`: a stored array replaces the slots with its decoding
     * against the current task count; anything else leaves them alone.
     */
    method RestoreSlots(saved: Option<Json>)
      requires Valid()
      modifies slots
      ensures Valid()
      ensures saved.Some? && saved.value.JArr? ==> slots[..] == DecodeSlots(saved.value.items, |tasks|)
      ensures !(saved.Some? && saved.value.JArr?) ==> slots[..] == old(slots[..])
    {
      if saved.None? || !saved.value.JArr? {
        return;
      }
      var parsed := saved.value.items;
      var next := [-1, -1, -1];
      var taskIdx := 0;
      while taskIdx < |parsed|
        invariant 0 <= taskIdx <= |parsed|
        invariant next == DecodeSlots(parsed[..taskIdx], |tasks|)
      {
        assert parsed[..taskIdx + 1][..taskIdx] == parsed[..taskIdx];
        var slotIdx := parsed[taskIdx];
        if slotIdx.JNum? && 0 <= slotIdx.n < 3 {
          if taskIdx < |tasks| {
            next := next[slotIdx.n := taskIdx];
          }
        }
        taskIdx := taskIdx + 1;
      }
      assert parsed[..taskIdx] == parsed;
      slots[0], slots[1], slots[2] := next[0], next[1], next[2];
      assert slots[..] == next;
    }

    /**
     * `restoreNotes`: a stored array replaces the three logs with its
     * cleaned lists; anything else leaves them alone. `now` stamps stored
     * notes that lack a timestamp.
     */
    method RestoreNotes(saved: Option<Json>, now: string)
      requires Valid()
      modifies notes
      ensures Valid()
      ensures saved.Some? && saved.value.JArr? ==> notes[..] == RestoreNoteLists(saved.value, now).value
      ensures !(saved.Some? && saved.value.JArr?) ==> notes[..] == old(notes[..])
    {
      if saved.None? {
        return;
      }
      var normalized := RestoreNoteLists(saved.value, now);
      if normalized.Some? {
        notes[0], notes[1], notes[2] := normalized.value[0], normalized.value[1], normalized.value[2];
        assert notes[..] == normalized.value;
      }
    }

    /** Both restores run only once the task list has loaded and is non-empty. */
    method Restore(tasksLoaded: bool, savedSlots: Option<Json>, savedNotes: Option<Json>, now: string)
      requires Valid()
      modifies slots, notes
      ensures Valid()
      ensures !(tasksLoaded && |tasks| > 0) ==> slots[..] == old(slots[..]) && notes[..] == old(notes[..])
      ensures tasksLoaded && |tasks| > 0 && savedSlots.Some? && savedSlots.value.JArr?
        ==> slots[..] == DecodeSlots(savedSlots.value.items, |tasks|)
      ensures tasksLoaded && |tasks| > 0 && savedNotes.Some? && savedNotes.value.JArr?
        ==> notes[..] == RestoreNoteLists(savedNotes.value, now).value
    {
      if tasksLoaded && |tasks| > 0 {
        RestoreSlots(savedSlots);
        RestoreNotes(savedNotes, now);
      }
    }
  }
}
