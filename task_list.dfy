/** The list screen (`TaskList` component): the tasks on display, the task
    picked for deletion, and whether the confirmation alert is open. */
module TaskListScreen {
  import opened Tasks
  import opened TodoServices

  /** `tasks.map(t => t.id === key ? { ...t, completed: !t.completed } : t)`. */
  function ToggleId(ts: seq<Task>, key: string): (r: seq<Task>)
    ensures |r| == |ts|
    ensures forall i :: 0 <= i < |ts| ==>
      r[i] == (if ts[i].id == key then ts[i].(completed := !ts[i].completed) else ts[i])
  {
    if ts == [] then []
    else [if ts[0].id == key then ts[0].(completed := !ts[0].completed) else ts[0]] + ToggleId(ts[1..], key)
  }

  /** Toggling flips only the completion flag, and only of the tasks that
      carry the identifier: identifiers, titles and descriptions stay. */
  lemma ToggleFlipsOnlyCompletion(ts: seq<Task>, key: string, i: int)
    requires 0 <= i < |ts|
    ensures ToggleId(ts, key)[i].id == ts[i].id
    ensures ToggleId(ts, key)[i].title == ts[i].title
    ensures ToggleId(ts, key)[i].description == ts[i].description
    ensures ToggleId(ts, key)[i].completed == (if ts[i].id == key then !ts[i].completed else ts[i].completed)
  {
  }

  /** Toggling the same identifier twice restores the list. */
  lemma ToggleTwice(ts: seq<Task>, key: string)
    ensures ToggleId(ToggleId(ts, key), key) == ts
  {
    var r := ToggleId(ts, key);
    var r2 := ToggleId(r, key);
    forall i | 0 <= i < |ts| ensures r2[i] == ts[i] {
      assert r[i].id == ts[i].id;
    }
  }

  /** Toggling an identifier that no task carries changes nothing. */
  lemma ToggleAbsent(ts: seq<Task>, key: string)
    requires !HasId(ts, key)
    ensures ToggleId(ts, key) == ts
  {
    var r := ToggleId(ts, key);
    forall i | 0 <= i < |ts| ensures r[i] == ts[i] {
      assert ts[i].id != key;
    }
  }

  /** The constant parts of the text handed to the share sheet. */
  const TitleLabel: string := "T\U{e2}che : "
  const DescriptionLabel: string := "Description : "
  const TaskUrlBase: string := "http://localhost:8100/tasks/"

  /** `task.description || ''`: an absent and an empty description both give
      the empty string. */
  function DescriptionOrEmpty(t: Task): string {
    match t.description
    case Some(d) => d
    case None => ""
  }

  /** The `text` passed to `Share.share`. */
  function ShareText(t: Task): string {
    TitleLabel + t.title + "\n" + DescriptionLabel + DescriptionOrEmpty(t)
  }

  /** The `url` passed to `Share.share`. */
  function ShareUrl(t: Task): string {
    TaskUrlBase + t.id
  }

  /** The text up to the first line break (all of it when there is none). */
  function FirstLine(s: string): string {
    if s == [] || s[0] == '\n' then [] else [s[0]] + FirstLine(s[1..])
  }

  /** The text after the first line break (nothing when there is none). */
  function AfterFirstLine(s: string): string {
    if s == [] then [] else if s[0] == '\n' then s[1..] else AfterFirstLine(s[1..])
  }

  lemma {:induction false} SplitAtFirstLineBreak(a: string, b: string)
    requires '\n' !in a
    ensures FirstLine(a + "\n" + b) == a
    ensures AfterFirstLine(a + "\n" + b) == b
  {
    var s := a + "\n" + b;
    if a == [] {
      assert s == "\n" + b;
    } else {
      assert s[0] == a[0] && s[1..] == a[1..] + "\n" + b;
      SplitAtFirstLineBreak(a[1..], b);
    }
  }

  /** A share text reads back as its two lines: the labelled title, then the
      labelled description (when the title itself holds no line break). */
  lemma ShareTextLines(t: Task)
    requires '\n' !in t.title
    ensures FirstLine(ShareText(t)) == TitleLabel + t.title
    ensures AfterFirstLine(ShareText(t)) == DescriptionLabel + DescriptionOrEmpty(t)
  {
    assert '\n' !in TitleLabel + t.title;
    assert ShareText(t) == (TitleLabel + t.title) + "\n" + (DescriptionLabel + DescriptionOrEmpty(t));
    SplitAtFirstLineBreak(TitleLabel + t.title, DescriptionLabel + DescriptionOrEmpty(t));
  }

  /** Tasks without a description share the same text as tasks with an empty
      one. */
  lemma ShareTextMissingDescription(t: Task)
    requires t.description == None
    ensures ShareText(t) == ShareText(t.(description := Some("")))
  {
  }

  /** The share link identifies the task: two links are equal exactly when
      the identifiers are, and the identifier is what follows the base. */
  lemma ShareUrlIdentifies(t: Task, u: Task)
    ensures ShareUrl(t)[|TaskUrlBase|..] == t.id
    ensures ShareUrl(t) == ShareUrl(u) <==> t.id == u.id
  {
    assert ShareUrl(t)[|TaskUrlBase|..] == t.id;
    assert ShareUrl(u)[|TaskUrlBase|..] == u.id;
  }

  /** `selectedTask` is truthy: set, and not the empty string. */
  predicate Deletable(selected: Option<string>) {
    selected.Some? && selected.value != ""
  }

  /** The state of one `TaskList` component. `store` is the task store the
      handlers read and write. */
  class TaskList {
    var tasks: seq<Task>
    var selectedTask: Option<string>
    var showDeleteAlert: bool
    const store: TodoService

    constructor (store: TodoService)
      ensures this.store == store
      ensures tasks == [] && selectedTask == None && !showDeleteAlert
    {
      this.store := store;
      tasks := [];
      selectedTask := None;
      showDeleteAlert := false;
    }

    /** `fetchTasks`: show what the store loads (loading never fails). */
    method FetchTasks(readOk: bool)
      modifies this
      ensures tasks == Loaded(store.file, readOk)
      ensures selectedTask == old(selectedTask) && showDeleteAlert == old(showDeleteAlert)
    {
      tasks := store.LoadTodos(readOk);
    }

    /** `toggleTaskCompletion`: flip the completion of the tasks with
        `task.id` in the displayed list, save that list, and show it only if
        the save succeeded (a failed save is caught and logged). */
    method ToggleTaskCompletion(task: Task, write: WriteOutcome)
      modifies this, store
      ensures write.Written? ==> tasks == ToggleId(old(tasks), task.id) && store.file == Json(tasks)
      ensures !write.Written? ==> tasks == old(tasks) && store.file == write.leaves
      ensures selectedTask == old(selectedTask) && showDeleteAlert == old(showDeleteAlert)
    {
      var updatedTasks := ToggleId(tasks, task.id);
      var ok := store.SaveTodos(updatedTasks, write);
      if ok {
        tasks := updatedTasks;
      }
    }

    /** `handleDelete`: remember the task and open the confirmation alert. */
    method HandleDelete(taskId: string)
      modifies this
      ensures selectedTask == Some(taskId) && showDeleteAlert
      ensures tasks == old(tasks)
    {
      selectedTask := Some(taskId);
      showDeleteAlert := true;
    }

    /** `confirmDelete`: drop the selected task from the displayed list,
        save, show the result and close the alert. A failed save is not
        caught: the handler stops there (`ok` false) with the list and the
        alert as they were. With nothing selected only the alert closes. */
    method ConfirmDelete(write: WriteOutcome) returns (ok: bool)
      modifies this, store
      ensures selectedTask == old(selectedTask)
      ensures !Deletable(selectedTask) ==>
        ok && tasks == old(tasks) && store.file == old(store.file) && !showDeleteAlert
      ensures Deletable(selectedTask) && write.Written? ==>
        ok && tasks == RemoveId(old(tasks), selectedTask.value) && store.file == Json(tasks) && !showDeleteAlert
      ensures Deletable(selectedTask) && !write.Written? ==>
        !ok && tasks == old(tasks) && store.file == write.leaves && showDeleteAlert == old(showDeleteAlert)
      ensures Deletable(selectedTask) && write.Written? ==> !HasId(tasks, selectedTask.value)
    {
      if Deletable(selectedTask) {
        var updatedTasks := RemoveId(tasks, selectedTask.value);
        RemoveLeavesNoId(tasks, selectedTask.value);
        ok := store.SaveTodos(updatedTasks, write);
        if !ok {
          return;
        }
        tasks := updatedTasks;
      } else {
        ok := true;
      }
      showDeleteAlert := false;
    }

    /** The alert's Cancel button and its dismissal: close the alert. */
    method DismissDeleteAlert()
      modifies this
      ensures !showDeleteAlert
      ensures tasks == old(tasks) && selectedTask == old(selectedTask)
    {
      showDeleteAlert := false;
    }
  }
}
