/**
 * The tasks page's "Listen to Notes" inbox: the home screen's note logs
 * flattened into one list of items, one per text note of a task that holds
 * a slot (or one legacy text note), each with an id built from the task's
 * name, due date and position and the note's position, and a viewed flag
 * read from the stored viewed record. Marking an item viewed, or all of
 * them, writes the record and flips the flags.
 */
module TasksPage {
  import opened Wrappers
  import opened Json
  import Text

  /** One listed note with the task it belongs to. */
  datatype NoteItem = NoteItem(id: string, taskName: string, dueDate: string, note: string, viewed: bool)

  /**
   * A value as a template string shows it; `undefined` and `null` are
   * handled by the callers. An array shows its elements joined by commas.
   */
  function JsText(v: Json): string
    decreases v
  {
    match v
    case JNull => "null"
    case JBool(b) => if b then "true" else "false"
    case JNum(n) => Text.IntToString(n)
    case JStr(s) => s
    case JObj(_) => "[object Object]"
    case JArr(items) => ElementsText(items)
  }

  /** `items.join(',')`: a `null` element shows as nothing. */
  function ElementsText(items: seq<Json>): string
    decreases items
  {
    if items == [] then ""
    else
      var first := if items[0].JNull? then "" else JsText(items[0]);
      if |items| == 1 then first else first + "," + ElementsText(items[1..])
  }

  /** `t?.[key] ?? fallback`, as text. */
  function FieldText(t: Json, key: string, fallback: string): (s: string)
    ensures AsString(Prop(t, key)).Some? ==> s == AsString(Prop(t, key)).value
    ensures Prop(t, key).None? || Prop(t, key) == Some(JNull) ==> s == fallback
  {
    match Prop(t, key)
    case None => fallback
    case Some(JNull) => fallback
    case Some(v) => JsText(v)
  }

  /** The id of a slot note: `name|dueDate|taskIndex|noteIndex`. */
  function NoteId(t: Json, taskIndex: nat, noteIndex: nat): string {
    FieldText(t, "name", "") + "|" + FieldText(t, "dueDate", "") + "|" + Text.NatToString(taskIndex) + "|" + Text.NatToString(noteIndex)
  }

  /** The id of a legacy note: `name|dueDate|taskIndex`. */
  function LegacyId(t: Json, taskIndex: nat): string {
    FieldText(t, "name", "") + "|" + FieldText(t, "dueDate", "") + "|" + Text.NatToString(taskIndex)
  }

  /** A legacy id starts with the task's name and a bar, and ends with a bar and the task's position. */
  lemma LegacyIdShape(t: Json, taskIndex: nat)
    ensures AsString(Prop(t, "name")).Some? ==> AsString(Prop(t, "name")).value + "|" <= LegacyId(t, taskIndex)
    ensures var id, tail := LegacyId(t, taskIndex), "|" + Text.NatToString(taskIndex);
      |tail| <= |id| && id[|id| - |tail|..] == tail
  {
    var head := FieldText(t, "name", "") + "|";
    var tail := "|" + Text.NatToString(taskIndex);
    var id := head + FieldText(t, "dueDate", "") + tail;
    assert id == LegacyId(t, taskIndex);
    assert id[..|head|] == head && id[|id| - |tail|..] == tail;
  }

  /** A slot note's id extends its task's legacy id by a bar and the note's position, so the two never coincide. */
  lemma NoteIdExtendsLegacyId(t: Json, taskIndex: nat, noteIndex: nat)
    ensures NoteId(t, taskIndex, noteIndex) == LegacyId(t, taskIndex) + "|" + Text.NatToString(noteIndex)
    ensures NoteId(t, taskIndex, noteIndex) != LegacyId(t, taskIndex)
  {
    assert |NoteId(t, taskIndex, noteIndex)| > |LegacyId(t, taskIndex)|;
  }

  /** `Boolean(viewedMap?.[id])`. */
  predicate Viewed(viewedMap: map<string, Json>, id: string) {
    id in viewedMap && Truthy(Some(viewedMap[id]))
  }

  /** Only a recorded id is viewed; a recorded `true` is viewed, and a recorded falsy value is not. */
  lemma ViewedMeaning(viewedMap: map<string, Json>, id: string)
    ensures Viewed(viewedMap, id) ==> id in viewedMap
    ensures id in viewedMap && viewedMap[id] == JBool(true) ==> Viewed(viewedMap, id)
    ensures id in viewedMap && viewedMap[id] in {JNull, JBool(false), JNum(0), JStr("")} ==> !Viewed(viewedMap, id)
  {
  }

  /**
   * The item for note `noteIndex` of a slot's list: only an object whose
   * text is a string that is not blank gives one, with the text trimmed;
   * voice-only entries give none.
   */
  function EntryItem(t: Json, taskIndex: nat, entry: Json, noteIndex: nat, viewedMap: map<string, Json>): (r: Option<NoteItem>)
    ensures r.Some? <==> (IsObjectLike(entry) && AsString(Prop(entry, "text")).Some?
      && !Text.IsBlank(AsString(Prop(entry, "text")).value))
    ensures r.Some? ==> r.value.id == NoteId(t, taskIndex, noteIndex)
    ensures r.Some? ==> r.value.note == Text.Trim(AsString(Prop(entry, "text")).value)
    ensures r.Some? ==> r.value.note != [] && Text.IsTrimmed(r.value.note)
    ensures r.Some? ==> r.value.taskName == FieldText(t, "name", "Task") && r.value.dueDate == FieldText(t, "dueDate", "")
    ensures r.Some? ==> (r.value.viewed <==> Viewed(viewedMap, r.value.id))
  {
    if !IsObjectLike(entry) then None
    else
      match AsString(Prop(entry, "text"))
      case None => None
      case Some(text) =>
        var trimmed := Text.Trim(text);
        if trimmed == [] then None
        else
          var id := NoteId(t, taskIndex, noteIndex);
          Some(NoteItem(id, FieldText(t, "name", "Task"), FieldText(t, "dueDate", ""), trimmed, Viewed(viewedMap, id)))
  }

  /** What every listed item carries: a non-empty note and the flag the viewed record gives its id. */
  predicate Listed(item: NoteItem, viewedMap: map<string, Json>) {
    item.note != [] && (item.viewed <==> Viewed(viewedMap, item.id))
  }

  /** Every item of a list is `Listed`. */
  predicate AllListed(items: seq<NoteItem>, viewedMap: map<string, Json>) {
    forall k :: 0 <= k < |items| ==> Listed(items[k], viewedMap)
  }

  /** The items of the first `n` entries of a slot's list, in list order. */
  function SlotItems(t: Json, taskIndex: nat, entries: seq<Json>, n: nat, viewedMap: map<string, Json>): (r: seq<NoteItem>)
    requires n <= |entries|
    ensures |r| <= n
  {
    if n == 0 then []
    else
      var before := SlotItems(t, taskIndex, entries, n - 1, viewedMap);
      match EntryItem(t, taskIndex, entries[n - 1], n - 1, viewedMap)
      case Some(item) => before + [item]
      case None => before
  }

  /** The legacy note of a slot: the stored text array's entry, kept as written when it is not blank. */
  function LegacyItem(t: Json, taskIndex: nat, slotNotes: Json, slot: nat, viewedMap: map<string, Json>): (r: seq<NoteItem>)
    ensures |r| <= 1
    ensures |r| == 1 <==> (slotNotes.JArr? && AsString(Elem(slotNotes, slot)).Some?
      && !Text.IsBlank(AsString(Elem(slotNotes, slot)).value))
    ensures |r| == 1 ==> r[0].id == LegacyId(t, taskIndex) && r[0].note == AsString(Elem(slotNotes, slot)).value
    ensures |r| == 1 ==> Listed(r[0], viewedMap)
  {
    if !slotNotes.JArr? then []
    else
      match AsString(Elem(slotNotes, slot))
      case None => []
      case Some(text) =>
        if Text.IsBlank(text) then []
        else
          var id := LegacyId(t, taskIndex);
          [NoteItem(id, FieldText(t, "name", "Task"), FieldText(t, "dueDate", ""), text, Viewed(viewedMap, id))]
  }

  /**
   * The items of task `taskIndex`: none unless its stored slot is a number
   * >= 0; then the slot's text notes when its stored list is a non-empty
   * array, else the legacy note.
   */
  function TaskItems(t: Json, taskIndex: nat, slotState: Json, slotNotes: Json, slotList: Json,
                     viewedMap: map<string, Json>): (r: seq<NoteItem>)
    ensures r != [] ==> AsNumber(Elem(slotState, taskIndex)).Some? && AsNumber(Elem(slotState, taskIndex)).value >= 0
  {
    match AsNumber(Elem(slotState, taskIndex))
    case None => []
    case Some(slot) =>
      if slot < 0 then []
      else
        match AsArray(Elem(slotList, slot))
        case Some(entries) =>
          if entries != [] then SlotItems(t, taskIndex, entries, |entries|, viewedMap)
          else LegacyItem(t, taskIndex, slotNotes, slot, viewedMap)
        case None => LegacyItem(t, taskIndex, slotNotes, slot, viewedMap)
  }

  /** The items of the first `n` tasks, task by task. */
  function ItemsUpTo(tasks: seq<Json>, n: nat, slotState: Json, slotNotes: Json, slotList: Json,
                     viewedMap: map<string, Json>): seq<NoteItem>
    requires n <= |tasks|
  {
    if n == 0 then []
    else
      ItemsUpTo(tasks, n - 1, slotState, slotNotes, slotList, viewedMap)
      + TaskItems(tasks[n - 1], n - 1, slotState, slotNotes, slotList, viewedMap)
  }

  /** The whole inbox: empty unless the stored tasks and slot state are both arrays. */
  function Inbox(tasks: Json, slotState: Json, slotNotes: Json, slotList: Json, viewedMap: map<string, Json>): (r: seq<NoteItem>)
    ensures r != [] ==> tasks.JArr? && slotState.JArr?
  {
    if tasks.JArr? && slotState.JArr? then ItemsUpTo(tasks.items, |tasks.items|, slotState, slotNotes, slotList, viewedMap)
    else []
  }

  /** Every item of a slot has a non-empty note and the viewed flag its id has in the record. */
  lemma {:induction false} SlotItemsListed(t: Json, taskIndex: nat, entries: seq<Json>, n: nat, viewedMap: map<string, Json>)
    requires n <= |entries|
    ensures AllListed(SlotItems(t, taskIndex, entries, n, viewedMap), viewedMap)
  {
    if n > 0 {
      var before := SlotItems(t, taskIndex, entries, n - 1, viewedMap);
      SlotItemsListed(t, taskIndex, entries, n - 1, viewedMap);
      var item := EntryItem(t, taskIndex, entries[n - 1], n - 1, viewedMap);
      if item.Some? {
        var r := before + [item.value];
        assert SlotItems(t, taskIndex, entries, n, viewedMap) == r;
        forall k | 0 <= k < |r|
          ensures Listed(r[k], viewedMap)
        {
          if k < |before| {
            assert r[k] == before[k];
          } else {
            assert r[k] == item.value;
          }
        }
      }
    }
  }

  /** Every item of one task is listed with a non-empty note and its recorded viewed flag. */
  lemma TaskItemsListed(t: Json, taskIndex: nat, slotState: Json, slotNotes: Json, slotList: Json,
                        viewedMap: map<string, Json>)
    ensures AllListed(TaskItems(t, taskIndex, slotState, slotNotes, slotList, viewedMap), viewedMap)
  {
    var r := TaskItems(t, taskIndex, slotState, slotNotes, slotList, viewedMap);
    var number := AsNumber(Elem(slotState, taskIndex));
    if number.Some? && number.value >= 0 {
      var slot: nat := number.value;
      var list := AsArray(Elem(slotList, slot));
      if list.Some? && list.value != [] {
        SlotItemsListed(t, taskIndex, list.value, |list.value|, viewedMap);
        assert r == SlotItems(t, taskIndex, list.value, |list.value|, viewedMap);
      } else {
        var legacy := LegacyItem(t, taskIndex, slotNotes, slot, viewedMap);
        assert r == legacy;
      }
    }
  }

  lemma ListedAppend(a: seq<NoteItem>, b: seq<NoteItem>, viewedMap: map<string, Json>)
    requires AllListed(a, viewedMap) && AllListed(b, viewedMap)
    ensures AllListed(a + b, viewedMap)
  {
    forall k | 0 <= k < |a + b|
      ensures Listed((a + b)[k], viewedMap)
    {
      if k < |a| {
        assert (a + b)[k] == a[k];
      } else {
        assert (a + b)[k] == b[k - |a|];
      }
    }
  }

  /** The items of the first `n` tasks are those of the first `n - 1` followed by task `n - 1`'s. */
  lemma ItemsUpToStep(tasks: seq<Json>, n: nat, slotState: Json, slotNotes: Json, slotList: Json,
                      viewedMap: map<string, Json>)
    requires 0 < n <= |tasks|
    ensures ItemsUpTo(tasks, n, slotState, slotNotes, slotList, viewedMap)
         == ItemsUpTo(tasks, n - 1, slotState, slotNotes, slotList, viewedMap)
          + TaskItems(tasks[n - 1], n - 1, slotState, slotNotes, slotList, viewedMap)
  {
  }

  /** Every item of the first `n` tasks is listed with a non-empty note and its recorded viewed flag. */
  lemma {:induction false} ItemsListed(tasks: seq<Json>, n: nat, slotState: Json, slotNotes: Json, slotList: Json,
                                      viewedMap: map<string, Json>)
    requires n <= |tasks|
    ensures AllListed(ItemsUpTo(tasks, n, slotState, slotNotes, slotList, viewedMap), viewedMap)
  {
    if n > 0 {
      var before := ItemsUpTo(tasks, n - 1, slotState, slotNotes, slotList, viewedMap);
      var mine := TaskItems(tasks[n - 1], n - 1, slotState, slotNotes, slotList, viewedMap);
      ItemsListed(tasks, n - 1, slotState, slotNotes, slotList, viewedMap);
      TaskItemsListed(tasks[n - 1], n - 1, slotState, slotNotes, slotList, viewedMap);
      ListedAppend(before, mine, viewedMap);
      ItemsUpToStep(tasks, n, slotState, slotNotes, slotList, viewedMap);
    }
  }

  /** Every item in the inbox has a non-empty note and is viewed exactly when its id is recorded as viewed. */
  lemma InboxListed(tasks: Json, slotState: Json, slotNotes: Json, slotList: Json, viewedMap: map<string, Json>)
    ensures AllListed(Inbox(tasks, slotState, slotNotes, slotList, viewedMap), viewedMap)
  {
    if tasks.JArr? && slotState.JArr? {
      ItemsListed(tasks.items, |tasks.items|, slotState, slotNotes, slotList, viewedMap);
    }
  }

  /** `prev.map((n) => (n.id === id ? { ...n, viewed: true } : n))`. */
  function MarkedOne(items: seq<NoteItem>, id: string): (r: seq<NoteItem>)
    ensures |r| == |items|
    ensures forall k :: 0 <= k < |r| ==> r[k] == (if items[k].id == id then items[k].(viewed := true) else items[k])
  {
    seq(|items|, k requires 0 <= k < |items| => if items[k].id == id then items[k].(viewed := true) else items[k])
  }

  /** `prev.map((n) => ({ ...n, viewed: true }))`. */
  function MarkedAll(items: seq<NoteItem>): (r: seq<NoteItem>)
    ensures |r| == |items|
    ensures forall k :: 0 <= k < |r| ==> r[k] == items[k].(viewed := true)
  {
    seq(|items|, k requires 0 <= k < |items| => items[k].(viewed := true))
  }

  /** `notes.filter((n) => !n.viewed)`: the items still to be listened to, in order. */
  function Unviewed(items: seq<NoteItem>): (r: seq<NoteItem>)
    ensures |r| <= |items|
    ensures forall x :: x in r <==> x in items && !x.viewed
  {
    if items == [] then []
    else if items[0].viewed then Unviewed(items[1..])
    else [items[0]] + Unviewed(items[1..])
  }

  /** `Unviewed` with the items of one id removed. */
  function WithoutId(items: seq<NoteItem>, id: string): (r: seq<NoteItem>)
    ensures forall x :: x in r <==> x in items && x.id != id
  {
    if items == [] then []
    else if items[0].id == id then WithoutId(items[1..], id)
    else [items[0]] + WithoutId(items[1..], id)
  }

  /** Marking one id viewed takes exactly that id's items off the unviewed list and keeps the rest in order. */
  lemma {:induction false} UnviewedAfterMark(items: seq<NoteItem>, id: string)
    ensures Unviewed(MarkedOne(items, id)) == WithoutId(Unviewed(items), id)
  {
    if items != [] {
      UnviewedAfterMark(items[1..], id);
      assert MarkedOne(items, id)[1..] == MarkedOne(items[1..], id);
    }
  }

  /** After marking all, nothing is left unviewed. */
  lemma {:induction false} UnviewedAfterMarkAll(items: seq<NoteItem>)
    ensures Unviewed(MarkedAll(items)) == []
  {
    if items != [] {
      UnviewedAfterMarkAll(items[1..]);
      assert MarkedAll(items)[1..] == MarkedAll(items[1..]);
    }
  }

  /** Marking the same id twice is marking it once. */
  lemma MarkIdempotent(items: seq<NoteItem>, id: string)
    ensures MarkedOne(MarkedOne(items, id), id) == MarkedOne(items, id)
  {
  }

  lemma MarkedOneAppend(a: seq<NoteItem>, b: seq<NoteItem>, id: string)
    ensures MarkedOne(a + b, id) == MarkedOne(a, id) + MarkedOne(b, id)
  {
  }

  /** An entry's item read with `id` recorded as viewed is the same item, marked when it has that id. */
  lemma EntryItemReloaded(t: Json, taskIndex: nat, entry: Json, noteIndex: nat, viewedMap: map<string, Json>, id: string)
    ensures EntryItem(t, taskIndex, entry, noteIndex, viewedMap[id := JBool(true)]).Some?
        == EntryItem(t, taskIndex, entry, noteIndex, viewedMap).Some?
    ensures EntryItem(t, taskIndex, entry, noteIndex, viewedMap).Some? ==>
      [EntryItem(t, taskIndex, entry, noteIndex, viewedMap[id := JBool(true)]).value]
        == MarkedOne([EntryItem(t, taskIndex, entry, noteIndex, viewedMap).value], id)
  {
  }

  /** A slot's items read with `id` recorded as viewed are its items with `id` marked. */
  lemma {:induction false} SlotItemsReloaded(t: Json, taskIndex: nat, entries: seq<Json>, n: nat,
                                            viewedMap: map<string, Json>, id: string)
    requires n <= |entries|
    ensures SlotItems(t, taskIndex, entries, n, viewedMap[id := JBool(true)])
         == MarkedOne(SlotItems(t, taskIndex, entries, n, viewedMap), id)
  {
    if n > 0 {
      var marked := viewedMap[id := JBool(true)];
      SlotItemsReloaded(t, taskIndex, entries, n - 1, viewedMap, id);
      var before := SlotItems(t, taskIndex, entries, n - 1, viewedMap);
      EntryItemReloaded(t, taskIndex, entries[n - 1], n - 1, viewedMap, id);
      var item := EntryItem(t, taskIndex, entries[n - 1], n - 1, viewedMap);
      var again := EntryItem(t, taskIndex, entries[n - 1], n - 1, marked);
      if item.Some? {
        MarkedOneAppend(before, [item.value], id);
        assert SlotItems(t, taskIndex, entries, n, viewedMap) == before + [item.value];
        assert SlotItems(t, taskIndex, entries, n, marked)
            == SlotItems(t, taskIndex, entries, n - 1, marked) + [again.value];
      } else {
        assert SlotItems(t, taskIndex, entries, n, viewedMap) == before;
        assert SlotItems(t, taskIndex, entries, n, marked) == SlotItems(t, taskIndex, entries, n - 1, marked);
      }
    }
  }

  /** The legacy note read with `id` recorded as viewed is the legacy note with `id` marked. */
  lemma LegacyItemReloaded(t: Json, taskIndex: nat, slotNotes: Json, slot: nat, viewedMap: map<string, Json>, id: string)
    ensures LegacyItem(t, taskIndex, slotNotes, slot, viewedMap[id := JBool(true)])
         == MarkedOne(LegacyItem(t, taskIndex, slotNotes, slot, viewedMap), id)
  {
    var r := LegacyItem(t, taskIndex, slotNotes, slot, viewedMap);
    if |r| == 1 {
      assert MarkedOne(r, id) == [MarkedOne(r, id)[0]];
    }
  }

  /** One task's items read with `id` recorded as viewed are its items with `id` marked. */
  lemma TaskItemsReloaded(t: Json, taskIndex: nat, slotState: Json, slotNotes: Json, slotList: Json,
                          viewedMap: map<string, Json>, id: string)
    ensures TaskItems(t, taskIndex, slotState, slotNotes, slotList, viewedMap[id := JBool(true)])
         == MarkedOne(TaskItems(t, taskIndex, slotState, slotNotes, slotList, viewedMap), id)
  {
    var marked := viewedMap[id := JBool(true)];
    var number := AsNumber(Elem(slotState, taskIndex));
    if number.Some? && number.value >= 0 {
      var slot: nat := number.value;
      var list := AsArray(Elem(slotList, slot));
      if list.Some? && list.value != [] {
        SlotItemsReloaded(t, taskIndex, list.value, |list.value|, viewedMap, id);
        assert TaskItems(t, taskIndex, slotState, slotNotes, slotList, viewedMap)
            == SlotItems(t, taskIndex, list.value, |list.value|, viewedMap);
        assert TaskItems(t, taskIndex, slotState, slotNotes, slotList, marked)
            == SlotItems(t, taskIndex, list.value, |list.value|, marked);
      } else {
        LegacyItemReloaded(t, taskIndex, slotNotes, slot, viewedMap, id);
        assert TaskItems(t, taskIndex, slotState, slotNotes, slotList, viewedMap)
            == LegacyItem(t, taskIndex, slotNotes, slot, viewedMap);
        assert TaskItems(t, taskIndex, slotState, slotNotes, slotList, marked)
            == LegacyItem(t, taskIndex, slotNotes, slot, marked);
      }
    } else {
      assert TaskItems(t, taskIndex, slotState, slotNotes, slotList, viewedMap) == [];
      assert TaskItems(t, taskIndex, slotState, slotNotes, slotList, marked) == [];
    }
  }

  /**
   * The stored viewed record and the inbox agree: reading the inbox again
   * after `id` was recorded as viewed gives the inbox with `id`'s items marked.
   */
  lemma {:induction false} InboxReloaded(tasks: seq<Json>, n: nat, slotState: Json, slotNotes: Json, slotList: Json,
                                        viewedMap: map<string, Json>, id: string)
    requires n <= |tasks|
    ensures ItemsUpTo(tasks, n, slotState, slotNotes, slotList, viewedMap[id := JBool(true)])
         == MarkedOne(ItemsUpTo(tasks, n, slotState, slotNotes, slotList, viewedMap), id)
  {
    if n > 0 {
      var t := tasks[n - 1];
      var marked := viewedMap[id := JBool(true)];
      InboxReloaded(tasks, n - 1, slotState, slotNotes, slotList, viewedMap, id);
      var before := ItemsUpTo(tasks, n - 1, slotState, slotNotes, slotList, viewedMap);
      var mine := TaskItems(t, n - 1, slotState, slotNotes, slotList, viewedMap);
      TaskItemsReloaded(t, n - 1, slotState, slotNotes, slotList, viewedMap, id);
      MarkedOneAppend(before, mine, id);
      assert ItemsUpTo(tasks, n, slotState, slotNotes, slotList, viewedMap) == before + mine;
      assert ItemsUpTo(tasks, n, slotState, slotNotes, slotList, marked)
          == ItemsUpTo(tasks, n - 1, slotState, slotNotes, slotList, marked)
           + TaskItems(t, n - 1, slotState, slotNotes, slotList, marked);
    }
  }

  /** The inbox of the tasks page, with the viewed record it reads and writes. */
  class NotesInbox {
    var notes: seq<NoteItem>
    var viewedMap: map<string, Json>

    constructor (viewedMap: map<string, Json>)
      ensures notes == [] && this.viewedMap == viewedMap
    {
      notes := [];
      this.viewedMap := viewedMap;
    }

    /**
     * `loadNotes`: walking the stored tasks, and for a task holding a slot
     * the entries of that slot's list, one item is pushed per text note
     * (or the one legacy note), with its flag read from the viewed record.
     */
    method Load(tasks: Json, slotState: Json, slotNotes: Json, slotList: Json)
      modifies this`notes
      ensures notes == Inbox(tasks, slotState, slotNotes, slotList, viewedMap)
    {
      var list: seq<NoteItem> := [];
      if tasks.JArr? && slotState.JArr? {
        var items := tasks.items;
        var taskIndex: nat := 0;
        while taskIndex < |items|
          invariant taskIndex <= |items|
          invariant list == ItemsUpTo(items, taskIndex, slotState, slotNotes, slotList, viewedMap)
        {
          var mine := CollectTask(items[taskIndex], taskIndex, slotState, slotNotes, slotList);
          list := list + mine;
          taskIndex := taskIndex + 1;
        }
      }
      notes := list;
    }

    /**
     * The body of `loadNotes`' walk for one task: the entries of its slot's
     * list when that is a non-empty array, each text note giving an item,
     * else its legacy note.
     */
    method CollectTask(t: Json, taskIndex: nat, slotState: Json, slotNotes: Json, slotList: Json)
      returns (mine: seq<NoteItem>)
      ensures mine == TaskItems(t, taskIndex, slotState, slotNotes, slotList, viewedMap)
    {
      mine := [];
      var slotIdx := AsNumber(Elem(slotState, taskIndex));
      if slotIdx.Some? && slotIdx.value >= 0 {
        var slot: nat := slotIdx.value;
        var notesForSlot := AsArray(Elem(slotList, slot));
        if notesForSlot.Some? && |notesForSlot.value| > 0 {
          var entries := notesForSlot.value;
          var idxNote: nat := 0;
          while idxNote < |entries|
            invariant idxNote <= |entries|
            invariant mine == SlotItems(t, taskIndex, entries, idxNote, viewedMap)
          {
            var item := EntryItem(t, taskIndex, entries[idxNote], idxNote, viewedMap);
            if item.Some? {
              mine := mine + [item.value];
            }
            idxNote := idxNote + 1;
          }
        } else {
          mine := LegacyItem(t, taskIndex, slotNotes, slot, viewedMap);
        }
      }
    }

    /**
     * `markViewed(id)`: the record gains `id: true` (every other entry kept)
     * and exactly the items with that id become viewed, which takes them
     * off the unviewed list.
     */
    method MarkViewed(id: string)
      modifies this
      ensures viewedMap == old(viewedMap)[id := JBool(true)]
      ensures notes == MarkedOne(old(notes), id)
      ensures Unviewed(notes) == WithoutId(Unviewed(old(notes)), id)
    {
      viewedMap := viewedMap[id := JBool(true)];
      UnviewedAfterMark(notes, id);
      notes := MarkedOne(notes, id);
    }

    /**
     * `markAllViewed`: every listed id is recorded as viewed, entries for
     * other ids are kept, and every item becomes viewed.
     */
    method MarkAllViewed()
      modifies this
      ensures forall k :: 0 <= k < |old(notes)| ==> old(notes)[k].id in viewedMap && viewedMap[old(notes)[k].id] == JBool(true)
      ensures forall id :: id in viewedMap <==> id in old(viewedMap) || exists k :: 0 <= k < |old(notes)| && old(notes)[k].id == id
      ensures forall id :: (id in old(viewedMap) && forall k :: 0 <= k < |old(notes)| ==> old(notes)[k].id != id) ==>
        viewedMap[id] == old(viewedMap)[id]
      ensures notes == MarkedAll(old(notes)) && Unviewed(notes) == []
    {
      var k := 0;
      while k < |notes|
        invariant k <= |notes|
        invariant notes == old(notes)
        invariant forall j :: 0 <= j < k ==> notes[j].id in viewedMap && viewedMap[notes[j].id] == JBool(true)
        invariant forall id :: id in viewedMap <==> id in old(viewedMap) || exists j :: 0 <= j < k && notes[j].id == id
        invariant forall id :: (id in old(viewedMap) && forall j :: 0 <= j < k ==> notes[j].id != id) ==>
          viewedMap[id] == old(viewedMap)[id]
      {
        viewedMap := viewedMap[notes[k].id := JBool(true)];
        k := k + 1;
      }
      UnviewedAfterMarkAll(notes);
      notes := MarkedAll(notes);
    }
  }
}
