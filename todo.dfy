/**
 * The VibrantTodo list: tasks kept in display order, persisted as a JSON
 * array under one storage key, with add, edit, delete, toggle, filter and a
 * drag reorder that renumbers every task's `order`.
 */
module Todo {
  import opened JsBuiltins
  import opened Wrappers

  /** A task: `order` is the creation time, or the position after a reorder. */
  datatype Task = Task(id: string, text: string, completed: bool, order: int)

  /** A task record as parsed from storage: `completed` and `order` may be absent. */
  datatype StoredTask = StoredTask(id: string, text: string, completed: Option<bool>, order: Option<int>)

  /** The value under the storage key: missing or empty, not a JSON array of records, or the records. */
  datatype Stored = Absent | Unparseable | Parsed(records: seq<StoredTask>)

  function OrderOf(t: Task): int { t.order }

  function HasId(id: string): Task -> bool { (t: Task) => t.id == id }

  /** `new Task(obj.id, obj.text, obj.completed, obj.order)`: an absent flag defaults to false, an absent order to the current time. */
  function FromStored(r: StoredTask, now: int): Task {
    Task(r.id, r.text,
         if r.completed.Some? then r.completed.value else false,
         if r.order.Some? then r.order.value else now)
  }

  function Decode(records: seq<StoredTask>, now: int): seq<Task> {
    seq(|records|, i requires 0 <= i < |records| => FromStored(records[i], now))
  }

  /** `JSON.stringify(tasks)`: every field written. */
  function Encode(tasks: seq<Task>): seq<StoredTask> {
    seq(|tasks|, i requires 0 <= i < |tasks| => StoredTask(tasks[i].id, tasks[i].text, Some(tasks[i].completed), Some(tasks[i].order)))
  }

  /** `loadTasks()`: the stored tasks sorted by `order`, or none when nothing usable is stored. */
  function LoadTasks(raw: Stored, now: int): (r: seq<Task>)
    ensures raw.Parsed? ==> SortedBy(r, OrderOf) && multiset(r) == multiset(Decode(raw.records, now))
    ensures !raw.Parsed? ==> r == []
  {
    match raw
    case Parsed(records) => SortBy(Decode(records, now), OrderOf)
    case _ => []
  }

  /** What `loadTasks` reads back after `saveTasks` wrote a list already in `order`, is that list. */
  lemma SaveThenLoad(tasks: seq<Task>, now: int)
    requires SortedBy(tasks, OrderOf)
    ensures LoadTasks(Parsed(Encode(tasks)), now) == tasks
  {
    assert Decode(Encode(tasks), now) == tasks;
    SortByOfSorted(tasks, OrderOf);
  }

  /** The list filter: `'active'` keeps the open tasks, `'completed'` the done ones, anything else keeps all. */
  predicate Shown(filter: string, t: Task) {
    if filter == "active" then !t.completed
    else if filter == "completed" then t.completed
    else true
  }

  function ShownBy(filter: string): Task -> bool { (t: Task) => Shown(filter, t) }

  /** The `filter` call of `renderTasks`: the tasks the filter shows, in list order. */
  function FilterTasks(tasks: seq<Task>, filter: string): (r: seq<Task>)
    ensures forall t :: t in r <==> t in tasks && Shown(filter, t)
    ensures multiset(r) <= multiset(tasks)
  {
    FilterPartition(tasks, ShownBy(filter));
    Filter(tasks, ShownBy(filter))
  }

  /** The "active" and "completed" views split the list between them. */
  lemma FilterViewsSplit(tasks: seq<Task>)
    ensures multiset(FilterTasks(tasks, "active")) + multiset(FilterTasks(tasks, "completed")) == multiset(tasks)
  {
    var active := ShownBy("active");
    var done := ShownBy("completed");
    FilterPartition(tasks, active);
    FilterSame(tasks, Not(active), done);
  }

  /** Any filter other than "active" and "completed" shows the whole list. */
  lemma FilterOtherShowsAll(tasks: seq<Task>, filter: string)
    requires filter != "active" && filter != "completed"
    ensures FilterTasks(tasks, filter) == tasks
  {
    FilterAll(tasks, ShownBy(filter));
  }

  /** `editTask`: the text of the first task with the id is replaced; nothing else changes. */
  function Edited(tasks: seq<Task>, id: string, text: string): (r: seq<Task>)
    ensures |r| == |tasks|
    ensures forall k :: 0 <= k < |r| ==>
              r[k].id == tasks[k].id && r[k].completed == tasks[k].completed && r[k].order == tasks[k].order
    ensures forall k :: 0 <= k < |r| && r[k] != tasks[k] ==>
              tasks[k].id == id && forall j :: 0 <= j < k ==> tasks[j].id != id
    ensures forall k :: 0 <= k < |r| && tasks[k].id == id && (forall j :: 0 <= j < k ==> tasks[j].id != id) ==>
              r[k].text == text
  {
    var i := FirstIndex(tasks, HasId(id));
    if i < 0 then tasks else tasks[i := tasks[i].(text := text)]
  }

  /** `toggleComplete`: the completion flag of the first task with the id flips; nothing else changes. */
  function Toggled(tasks: seq<Task>, id: string): (r: seq<Task>)
    ensures |r| == |tasks|
    ensures forall k :: 0 <= k < |r| ==>
              r[k].id == tasks[k].id && r[k].text == tasks[k].text && r[k].order == tasks[k].order
    ensures forall k :: 0 <= k < |r| && r[k] != tasks[k] ==>
              tasks[k].id == id && forall j :: 0 <= j < k ==> tasks[j].id != id
    ensures forall k :: 0 <= k < |r| && tasks[k].id == id && (forall j :: 0 <= j < k ==> tasks[j].id != id) ==>
              r[k].completed == !tasks[k].completed
  {
    var i := FirstIndex(tasks, HasId(id));
    if i < 0 then tasks else tasks[i := tasks[i].(completed := !tasks[i].completed)]
  }

  /** Toggling the same task twice restores the list. */
  lemma ToggleTwice(tasks: seq<Task>, id: string)
    ensures Toggled(Toggled(tasks, id), id) == tasks
  {
    var once := Toggled(tasks, id);
    assert FirstIndex(once, HasId(id)) == FirstIndex(tasks, HasId(id));
  }

  function LacksId(id: string): Task -> bool { (t: Task) => t.id != id }

  /** `deleteTask`: every task with the id goes; the others stay, in their order. */
  function WithoutId(tasks: seq<Task>, id: string): (r: seq<Task>)
    ensures forall k :: 0 <= k < |r| ==> r[k].id != id && r[k] in tasks
    ensures forall k :: 0 <= k < |tasks| && tasks[k].id != id ==> tasks[k] in r
    ensures (forall k :: 0 <= k < |tasks| ==> tasks[k].id != id) ==> r == tasks
  {
    if forall k :: 0 <= k < |tasks| ==> tasks[k].id != id then
      FilterAll(tasks, LacksId(id));
      Filter(tasks, LacksId(id))
    else Filter(tasks, LacksId(id))
  }

  /** Deleting from a concatenation deletes from each part, so the survivors keep their relative order. */
  lemma WithoutIdConcat(a: seq<Task>, b: seq<Task>, id: string)
    ensures WithoutId(a + b, id) == WithoutId(a, id) + WithoutId(b, id)
  {
    FilterConcat(a, b, LacksId(id));
  }

  /** `s` with the element at `i` taken out, as `splice(i, 1)` leaves it. */
  function Removed<T>(s: seq<T>, i: nat): seq<T>
    requires i < |s|
  {
    s[..i] + s[i + 1..]
  }

  lemma RemovedMultiset<T>(s: seq<T>, i: nat)
    requires i < |s|
    ensures multiset(s) == multiset(Removed(s, i)) + multiset{s[i]}
  {
    assert s == s[..i] + [s[i]] + s[i + 1..];
  }

  /**
   * The two splices of `reorderTasks`: the task at `from` is taken out and
   * put back at index `to` of what remains.
   */
  function Moved(tasks: seq<Task>, from: nat, to: nat): (r: seq<Task>)
    requires from < |tasks| && to < |tasks|
    ensures |r| == |tasks| && r[to] == tasks[from]
    ensures Removed(r, to) == Removed(tasks, from)
    ensures multiset(r) == multiset(tasks)
  {
    var rest := Removed(tasks, from);
    var r := rest[..to] + [tasks[from]] + rest[to..];
    assert Removed(r, to) == rest by {
      assert r[..to] == rest[..to];
      assert r[to + 1..] == rest[to..];
    }
    RemovedMultiset(r, to);
    RemovedMultiset(tasks, from);
    r
  }

  /** `tasks.forEach((t, i) => (t.order = i))`. */
  function Renumbered(tasks: seq<Task>): (r: seq<Task>)
    ensures |r| == |tasks|
    ensures forall i :: 0 <= i < |r| ==>
              r[i].order == i && r[i].id == tasks[i].id && r[i].text == tasks[i].text && r[i].completed == tasks[i].completed
  {
    seq(|tasks|, i requires 0 <= i < |tasks| => tasks[i].(order := i))
  }

  /** After a renumbering the list is in `order`, so saving and loading it gives it back unchanged. */
  lemma {:induction false} RenumberedLoads(tasks: seq<Task>, now: int)
    ensures SortedBy(Renumbered(tasks), OrderOf)
    ensures LoadTasks(Parsed(Encode(Renumbered(tasks))), now) == Renumbered(tasks)
  {
    var r := Renumbered(tasks);
    assert SortedBy(r, OrderOf) by {
      forall i, j | 0 <= i < j < |r| ensures OrderOf(r[i]) <= OrderOf(r[j]) {
        assert r[i].order == i && r[j].order == j;
      }
    }
    SaveThenLoad(r, now);
  }

  /** The page's state: the list, the active filter, the stored value and the new-task input box. */
  class TodoApp {
    var tasks: seq<Task>
    var currentFilter: string
    var saved: Stored
    var newTaskInput: string

    /** Page load: the tasks are read from storage and shown unfiltered. */
    constructor Init(stored: Stored, now: int)
      ensures tasks == LoadTasks(stored, now) && currentFilter == "all"
      ensures saved == stored && newTaskInput == ""
    {
      tasks := LoadTasks(stored, now);
      currentFilter := "all";
      saved := stored;
      newTaskInput := "";
    }

    /** `renderTasks(filter)`: remembers the filter and yields the tasks it shows. */
    method Render(filter: string) returns (shown: seq<Task>)
      modifies this`currentFilter
      ensures currentFilter == filter
      ensures shown == FilterTasks(tasks, filter)
    {
      currentFilter := filter;
      shown := FilterTasks(tasks, filter);
    }

    /** `addTask(text)` with the fresh id and the current time passed in. */
    method AddTask(text: string, id: string, now: int)
      modifies this`tasks, this`saved
      ensures tasks == old(tasks) + [Task(id, text, false, now)]
      ensures saved == Parsed(Encode(tasks))
    {
      tasks := tasks + [Task(id, text, false, now)];
      saved := Parsed(Encode(tasks));
    }

    /** `editTask(id, newText)`: stores only when a task matched. */
    method EditTask(id: string, newText: string)
      modifies this`tasks, this`saved
      ensures tasks == Edited(old(tasks), id, newText)
      ensures saved == if FirstIndex(old(tasks), HasId(id)) >= 0 then Parsed(Encode(tasks)) else old(saved)
    {
      var i := FirstIndex(tasks, HasId(id));
      if i >= 0 {
        tasks := tasks[i := tasks[i].(text := newText)];
        saved := Parsed(Encode(tasks));
      }
    }

    /** `deleteTask(id)`: always stores, even when nothing matched. */
    method DeleteTask(id: string)
      modifies this`tasks, this`saved
      ensures tasks == WithoutId(old(tasks), id)
      ensures saved == Parsed(Encode(tasks))
    {
      tasks := Filter(tasks, LacksId(id));
      saved := Parsed(Encode(tasks));
    }

    /** `toggleComplete(id)`: stores only when a task matched. */
    method ToggleComplete(id: string)
      modifies this`tasks, this`saved
      ensures tasks == Toggled(old(tasks), id)
      ensures saved == if FirstIndex(old(tasks), HasId(id)) >= 0 then Parsed(Encode(tasks)) else old(saved)
    {
      var i := FirstIndex(tasks, HasId(id));
      if i >= 0 {
        tasks := tasks[i := tasks[i].(completed := !tasks[i].completed)];
        saved := Parsed(Encode(tasks));
      }
    }

    /**
     * `reorderTasks(draggedId, targetId)`: nothing happens when either id is
     * unknown or both name the same task; otherwise the dragged task moves
     * to the target's index and every task is renumbered by position.
     */
    method ReorderTasks(draggedId: string, targetId: string)
      modifies this`tasks, this`saved
      ensures var from := FirstIndex(old(tasks), HasId(draggedId));
              var to := FirstIndex(old(tasks), HasId(targetId));
              if from == -1 || to == -1 || from == to then
                tasks == old(tasks) && saved == old(saved)
              else
                tasks == Renumbered(Moved(old(tasks), from, to)) && saved == Parsed(Encode(tasks))
    {
      var from := FirstIndex(tasks, HasId(draggedId));
      var to := FirstIndex(tasks, HasId(targetId));
      if from == -1 || to == -1 || from == to {
        return;
      }
      ghost var moved := Moved(tasks, from, to);
      var rest := tasks[..from] + tasks[from + 1..];
      tasks := rest[..to] + [tasks[from]] + rest[to..];
      assert tasks == moved;
      var i := 0;
      while i < |tasks|
        invariant 0 <= i <= |tasks| == |moved|
        invariant forall k :: 0 <= k < i ==> tasks[k] == moved[k].(order := k)
        invariant forall k :: i <= k < |tasks| ==> tasks[k] == moved[k]
      {
        tasks := tasks[i := tasks[i].(order := i)];
        i := i + 1;
      }
      saved := Parsed(Encode(tasks));
    }

    /** `handleAdd`: the trimmed input becomes a task and the box is cleared, unless it is blank. */
    method HandleAdd(id: string, now: int)
      modifies this`tasks, this`saved, this`newTaskInput
      ensures var text := Trim(old(newTaskInput));
              if text == [] then
                tasks == old(tasks) && saved == old(saved) && newTaskInput == old(newTaskInput)
              else
                tasks == old(tasks) + [Task(id, text, false, now)] && saved == Parsed(Encode(tasks))
                && newTaskInput == ""
    {
      var text := Trim(newTaskInput);
      if text != [] {
        AddTask(text, id, now);
        newTaskInput := "";
      }
    }

    /** Leaving an edit box: a non-blank trimmed value edits the task, a blank one deletes it. */
    method CommitEdit(id: string, value: string)
      modifies this`tasks, this`saved
      ensures var text := Trim(value);
              if text == [] then
                tasks == WithoutId(old(tasks), id) && saved == Parsed(Encode(tasks))
              else
                tasks == Edited(old(tasks), id, text)
                && saved == if FirstIndex(old(tasks), HasId(id)) >= 0 then Parsed(Encode(tasks)) else old(saved)
    {
      var text := Trim(value);
      if text != [] {
        EditTask(id, text);
      } else {
        DeleteTask(id);
      }
    }
  }
}
