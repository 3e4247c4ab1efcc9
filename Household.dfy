/**
 * The household screen: the task types (four built-in ones followed by the
 * user's own), adding a household task (which may add its name as a new
 * type), deleting a custom type, the laundry days chosen by weekday, and
 * which calendar cells are marked as laundry days.
 */
module Household {
  import opened Wrappers
  import opened Dates
  import Text
  import MonthGrid

  /** The built-in types; they can never be deleted. */
  const BaseTypes: seq<string> := ["Laundry", "Dusting", "Vacuum", "Dishes"]

  /** The weekday labels, indexed by `getDay()`. */
  const DayLabels: seq<string> := ["Sun", "Mon", "Tue", "Wed", "Thu", "Fri", "Sat"]

  /** A saved household task: its name and the type label it was filed under. */
  datatype HouseholdTask = HouseholdTask(name: string, taskType: string)

  predicate NoDuplicates(s: seq<string>) {
    forall i, j :: 0 <= i < j < |s| ==> s[i] != s[j]
  }

  /** `list.filter((t) => t !== x)`: every occurrence of `x` goes, the rest keep their order. */
  function Without(s: seq<string>, x: string): (r: seq<string>)
    ensures |r| <= |s|
    ensures forall y :: y in r <==> y in s && y != x
  {
    if s == [] then []
    else if s[0] == x then Without(s[1..], x)
    else [s[0]] + Without(s[1..], x)
  }

  /** A list joined to another has no duplicates exactly when neither has and they share nothing. */
  lemma DistinctConcat(a: seq<string>, b: seq<string>)
    ensures NoDuplicates(a + b) <==> NoDuplicates(a) && NoDuplicates(b) && forall y :: y in a ==> y !in b
  {
    var ab := a + b;
    if NoDuplicates(ab) {
      forall i, j | 0 <= i < j < |a| ensures a[i] != a[j] {
        assert ab[i] == a[i] && ab[j] == a[j];
      }
      forall i, j | 0 <= i < j < |b| ensures b[i] != b[j] {
        assert ab[|a| + i] == b[i] && ab[|a| + j] == b[j];
      }
      forall i, j | 0 <= i < |a| && 0 <= j < |b| ensures a[i] != b[j] {
        assert ab[i] == a[i] && ab[|a| + j] == b[j];
      }
    }
    if NoDuplicates(a) && NoDuplicates(b) && forall y :: y in a ==> y !in b {
      forall i, j | 0 <= i < j < |ab| ensures ab[i] != ab[j] {
        if j < |a| {
          assert ab[i] == a[i] && ab[j] == a[j];
        } else if i >= |a| {
          assert ab[i] == b[i - |a|] && ab[j] == b[j - |a|];
        } else {
          assert ab[i] in a && ab[j] in b;
        }
      }
    }
  }

  /** Filtering keeps a list free of duplicates. */
  lemma {:induction false} WithoutDistinct(s: seq<string>, x: string)
    requires NoDuplicates(s)
    ensures NoDuplicates(Without(s, x))
  {
    if s != [] {
      DistinctConcat([s[0]], s[1..]);
      assert s == [s[0]] + s[1..];
      WithoutDistinct(s[1..], x);
      if s[0] != x {
        DistinctConcat([s[0]], Without(s[1..], x));
      }
    }
  }

  /** The custom types after adding `name`: unchanged when it already is a type, else with it at the end. */
  function AddedTypes(customTypes: seq<string>, name: string): (r: seq<string>)
    ensures name in BaseTypes + r
    ensures name in BaseTypes || name in customTypes ==> r == customTypes
    ensures !(name in BaseTypes || name in customTypes) ==> r == customTypes + [name]
  {
    if name in BaseTypes || name in customTypes then customTypes else customTypes + [name]
  }

  /** Adding a type never creates a duplicate type. */
  lemma AddedTypesDistinct(customTypes: seq<string>, name: string)
    requires NoDuplicates(BaseTypes + customTypes)
    ensures NoDuplicates(BaseTypes + AddedTypes(customTypes, name))
  {
    if !(name in BaseTypes || name in customTypes) {
      assert BaseTypes + (customTypes + [name]) == (BaseTypes + customTypes) + [name];
      DistinctConcat(BaseTypes + customTypes, [name]);
    }
  }

  /** Deleting a custom type never creates a duplicate type. */
  lemma WithoutTypeDistinct(customTypes: seq<string>, kind: string)
    requires NoDuplicates(BaseTypes + customTypes)
    ensures NoDuplicates(BaseTypes + Without(customTypes, kind))
  {
    DistinctConcat(BaseTypes, customTypes);
    WithoutDistinct(customTypes, kind);
    DistinctConcat(BaseTypes, Without(customTypes, kind));
  }

  /** Removing a type that is not in the list leaves the list as it was. */
  lemma {:induction false} WithoutAbsent(s: seq<string>, x: string)
    requires x !in s
    ensures Without(s, x) == s
  {
    if s != [] {
      WithoutAbsent(s[1..], x);
      assert s == [s[0]] + s[1..];
    }
  }

  /** The membership of `day` flipped; every other label kept. */
  function Toggle(days: set<string>, day: string): (r: set<string>)
    ensures day in r <==> day !in days
    ensures forall d :: d != day ==> (d in r <==> d in days)
  {
    if day in days then days - {day} else days + {day}
  }

  /** Toggling a day twice gives back the days chosen before. */
  lemma ToggleTwice(days: set<string>, day: string)
    ensures Toggle(Toggle(days, day), day) == days
  {
  }

  /** The type label a new task is saved with: `Rooms - <room>` while a room is chosen under Rooms, else its name. */
  function TypeLabel(selectedType: string, selectedRoom: Option<string>, name: string): (text: string)
    ensures selectedType == "Rooms" && selectedRoom.Some? && selectedRoom.value != [] ==> text == "Rooms - " + selectedRoom.value
    ensures !(selectedType == "Rooms" && selectedRoom.Some? && selectedRoom.value != []) ==> text == name
  {
    if selectedType == "Rooms" && selectedRoom.Some? && selectedRoom.value != [] then "Rooms - " + selectedRoom.value else name
  }

  /** The household screen's state. */
  class HouseholdPlanner {
    var customTypes: seq<string>
    var savedTasks: seq<HouseholdTask>
    var selectedType: string
    var selectedRoom: Option<string>
    var roomsOpen: bool
    var addingTask: bool
    var deleteMode: bool
    var newTaskName: string
    var laundryDays: set<string>
    var doAllLaundry: bool
    var showLaundryDays: bool
    var showLaundryOnCalendar: bool
    var cursor: Date

    ghost predicate Valid()
      reads this`cursor
    {
      Dates.Valid(cursor) && cursor.day == 1
    }

    /** Nothing saved, "Laundry" selected, no laundry days; the calendar on the given month. */
    constructor (year: int, month: int)
      requires 1 <= month <= 12
      ensures Valid() && customTypes == [] && savedTasks == [] && selectedType == "Laundry" && selectedRoom == None
      ensures laundryDays == {} && !doAllLaundry && !addingTask && !deleteMode && newTaskName == []
      ensures cursor == Date(year, month, 1)
    {
      customTypes, savedTasks, selectedType, selectedRoom := [], [], "Laundry", None;
      roomsOpen, addingTask, deleteMode, newTaskName := false, false, false, [];
      laundryDays, doAllLaundry, showLaundryDays, showLaundryOnCalendar := {}, false, false, false;
      cursor := Date(year, month, 1);
    }

    /** `allTypes`: the built-in types followed by the user's own. */
    function AllTypes(): (types: seq<string>)
      reads this`customTypes
      ensures |types| == 4 + |customTypes|
      ensures types[..4] == BaseTypes && types[4..] == customTypes
    {
      BaseTypes + customTypes
    }

    /**
     * Saving a new household task: a blank trimmed name changes nothing.
     * Otherwise the task (trimmed name, type label) is appended to the saved
     * tasks; the name becomes a custom type unless it already is a type, so
     * a type list without duplicates stays without; the name becomes the
     * selected type, the room is cleared, the laundry picker shows exactly
     * for "Laundry", and the add form closes empty.
     */
    method AddTask() returns (added: bool)
      modifies this`savedTasks, this`customTypes, this`selectedType, this`selectedRoom, this`roomsOpen
      modifies this`showLaundryDays, this`addingTask, this`newTaskName
      ensures added <==> !Text.IsBlank(old(newTaskName))
      ensures added ==> (var name := Text.Trim(old(newTaskName));
        && customTypes == AddedTypes(old(customTypes), name)
        && savedTasks == old(savedTasks) + [HouseholdTask(name, TypeLabel(old(selectedType), old(selectedRoom), name))]
        && selectedType == name && selectedRoom == None && !roomsOpen
        && showLaundryDays == (name == "Laundry"))
      ensures added ==> !addingTask && newTaskName == []
      ensures !added ==> (customTypes == old(customTypes) && savedTasks == old(savedTasks) && selectedType == old(selectedType)
        && selectedRoom == old(selectedRoom) && roomsOpen == old(roomsOpen) && addingTask == old(addingTask)
        && newTaskName == old(newTaskName) && showLaundryDays == old(showLaundryDays))
    {
      var trimmed := Text.Trim(newTaskName);
      if trimmed == [] {
        return false;
      }
      SaveTask(trimmed);
      added := true;
    }

    /** Saving the task named `name`: the state change `AddTask` makes once the name is known. */
    method SaveTask(name: string)
      modifies this`savedTasks, this`customTypes, this`selectedType, this`selectedRoom, this`roomsOpen
      modifies this`showLaundryDays, this`addingTask, this`newTaskName
      ensures customTypes == AddedTypes(old(customTypes), name)
      ensures savedTasks == old(savedTasks) + [HouseholdTask(name, TypeLabel(old(selectedType), old(selectedRoom), name))]
      ensures selectedType == name && selectedRoom == None && !roomsOpen && showLaundryDays == (name == "Laundry")
      ensures !addingTask && newTaskName == []
    {
      var nextTypes := AddedTypes(customTypes, name);
      savedTasks, customTypes := savedTasks + [HouseholdTask(name, TypeLabel(selectedType, selectedRoom, name))], nextTypes;
      selectedType, selectedRoom, roomsOpen, showLaundryDays := name, None, false, name == BaseTypes[0];
      addingTask, newTaskName := false, [];
    }

    /**
     * Deleting a type: a built-in type is never removed and nothing
     * changes. Otherwise every occurrence leaves the custom types (the rest
     * keep their order); if it was the selected type, the selection falls
     * back to the first remaining custom type, else "Laundry"; delete mode
     * and the laundry views close.
     */
    method DeleteType(kind: string)
      modifies this`customTypes, this`selectedType, this`deleteMode, this`showLaundryDays, this`showLaundryOnCalendar
      ensures kind in BaseTypes ==> (customTypes == old(customTypes) && selectedType == old(selectedType)
        && deleteMode == old(deleteMode) && showLaundryDays == old(showLaundryDays)
        && showLaundryOnCalendar == old(showLaundryOnCalendar))
      ensures kind !in BaseTypes ==> (customTypes == Without(old(customTypes), kind) && kind !in AllTypes()
        && !deleteMode && !showLaundryDays && !showLaundryOnCalendar)
      ensures kind !in BaseTypes && old(selectedType) == kind ==>
        selectedType == (if customTypes != [] then customTypes[0] else "Laundry")
      ensures old(selectedType) != kind ==> selectedType == old(selectedType)
      ensures AllTypes()[..4] == BaseTypes
      ensures NoDuplicates(old(AllTypes())) ==> NoDuplicates(AllTypes())
    {
      if kind in BaseTypes {
        return;
      }
      var nextTypes := Without(customTypes, kind);
      if NoDuplicates(BaseTypes + customTypes) {
        WithoutTypeDistinct(customTypes, kind);
      }
      customTypes := nextTypes;
      if selectedType == kind {
        selectedType := if nextTypes != [] then nextTypes[0] else BaseTypes[0];
      }
      deleteMode := false;
      showLaundryDays := false;
      showLaundryOnCalendar := false;
    }

    /** The "do all laundry" checkbox: pressing it flips the setting and nothing else. */
    method ToggleDoAllLaundry()
      modifies this`doAllLaundry
      ensures doAllLaundry == !old(doAllLaundry)
    {
      doAllLaundry := !doAllLaundry;
    }

    /** Pressing a weekday in the laundry picker: with "doing all laundry" on nothing changes, else that day flips. */
    method ToggleLaundryDay(day: string)
      modifies this`laundryDays
      ensures doAllLaundry ==> laundryDays == old(laundryDays)
      ensures !doAllLaundry ==> laundryDays == Toggle(old(laundryDays), day)
    {
      if doAllLaundry {
        return;
      }
      laundryDays := Toggle(laundryDays, day);
    }

    /**
     * `isLaundry` for a calendar cell of the month on show: the overlay is
     * on, the cell is a day, and either all laundry is done or the day's
     * weekday label is one of the chosen days.
     */
    predicate IsLaundry(cell: MonthGrid.Cell)
      reads this
      requires Valid()
      requires cell.Day? ==> 1 <= cell.day <= DaysInMonth(cursor.year, cursor.month)
      ensures IsLaundry(cell) ==> showLaundryOnCalendar && cell.Day?
      ensures !doAllLaundry && laundryDays == {} ==> !IsLaundry(cell)
      ensures showLaundryOnCalendar && doAllLaundry && cell.Day? ==> IsLaundry(cell)
    {
      && showLaundryOnCalendar
      && cell.Day? && cell.day != 0
      && (doAllLaundry || DayLabels[Weekday(Date(cursor.year, cursor.month, cell.day))] in laundryDays)
    }

    /** Laundry marks repeat weekly: a day and the day a week later are marked alike. */
    lemma LaundryRepeatsWeekly(day: int)
      requires Valid() && 1 <= day && day + 7 <= DaysInMonth(cursor.year, cursor.month)
      ensures IsLaundry(MonthGrid.Day(day)) == IsLaundry(MonthGrid.Day(day + 7))
    {
      WeekLaterSameWeekday(Date(cursor.year, cursor.month, day));
    }

    /** With the overlay on and all laundry done, every day of the month is marked, and no blank cell ever is. */
    lemma AllLaundryMarksEveryDay(day: int)
      requires Valid() && showLaundryOnCalendar && doAllLaundry
      requires 1 <= day <= DaysInMonth(cursor.year, cursor.month)
      ensures IsLaundry(MonthGrid.Day(day)) && !IsLaundry(MonthGrid.Blank)
    {
    }
  }
}
