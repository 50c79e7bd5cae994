/** The create/edit screen (`TaskForm` component): the task being edited, the
    route's task identifier (absent when creating), and the submit logic. */
module TaskFormScreen {
  import opened Tasks
  import opened TodoServices

  /** The code points JavaScript's `String.prototype.trim` removes: the
      WhiteSpace and LineTerminator code points of ECMA-262 (the Zs category
      as of Unicode 15). */
  predicate IsWhitespace(c: char) {
    c in {'\t', '\n', '\U{B}', '\U{C}', '\r', ' ', '\U{A0}', '\U{1680}',
          '\U{2000}', '\U{2001}', '\U{2002}', '\U{2003}', '\U{2004}', '\U{2005}',
          '\U{2006}', '\U{2007}', '\U{2008}', '\U{2009}', '\U{200A}',
          '\U{2028}', '\U{2029}', '\U{202F}', '\U{205F}', '\U{3000}', '\U{FEFF}'}
  }

  /** Drop leading whitespace. */
  function TrimStart(s: string): (r: string)
    ensures |r| <= |s| && r == s[|s| - |r|..]
    ensures forall i :: 0 <= i < |s| - |r| ==> IsWhitespace(s[i])
    ensures r != [] ==> !IsWhitespace(r[0])
  {
    if s != [] && IsWhitespace(s[0]) then TrimStart(s[1..]) else s
  }

  /** Drop trailing whitespace. */
  function TrimEnd(s: string): (r: string)
    ensures |r| <= |s| && r == s[..|r|]
    ensures forall i :: |r| <= i < |s| ==> IsWhitespace(s[i])
    ensures r != [] ==> !IsWhitespace(r[|r| - 1])
  {
    if s != [] && IsWhitespace(s[|s| - 1]) then TrimEnd(s[..|s| - 1]) else s
  }

  /** `s.trim()`: neither starts nor ends with whitespace. */
  function Trim(s: string): (r: string)
    ensures r != [] ==> !IsWhitespace(r[0]) && !IsWhitespace(r[|r| - 1])
  {
    TrimEnd(TrimStart(s))
  }

  /** Trimming keeps a contiguous slice of the text. */
  lemma TrimIsSlice(s: string)
    ensures var k := |s| - |TrimStart(s)|;
      k + |Trim(s)| <= |s| && Trim(s) == s[k..k + |Trim(s)|]
  {
    var t := TrimStart(s);
    var r := TrimEnd(t);
    var k := |s| - |t|;
    assert t == s[k..] && r == t[..|r|];
    SliceOfSuffix(s, k, |r|);
  }

  lemma SliceOfSuffix(s: string, k: nat, n: nat)
    requires k + n <= |s|
    ensures s[k..][..n] == s[k..k + n]
  {
  }

  /** Everything trimming cuts off, on either side, is whitespace. */
  lemma TrimCutsWhitespace(s: string)
    ensures var k := |s| - |TrimStart(s)|;
      (forall i :: 0 <= i < k ==> IsWhitespace(s[i])) &&
      (forall i :: k + |Trim(s)| <= i < |s| ==> IsWhitespace(s[i]))
  {
    var t := TrimStart(s);
    var r := TrimEnd(t);
    var k := |s| - |t|;
    assert t == s[k..];
    forall i | k + |r| <= i < |s| ensures IsWhitespace(s[i]) {
      var j := i - k;
      assert |r| <= j < |t|;
      assert IsWhitespace(t[j]);
      assert t[j] == s[i];
    }
  }

  lemma {:induction false} TrimStartEmpty(s: string)
    ensures TrimStart(s) == [] <==> forall i :: 0 <= i < |s| ==> IsWhitespace(s[i])
  {
    if s != [] && IsWhitespace(s[0]) {
      TrimStartEmpty(s[1..]);
      assert forall i :: 1 <= i < |s| ==> s[i] == s[1..][i - 1];
    }
  }

  /** `!title.trim()` holds exactly when the title is empty or all
      whitespace. */
  lemma TrimEmptyIffBlank(s: string)
    ensures Trim(s) == [] <==> forall i :: 0 <= i < |s| ==> IsWhitespace(s[i])
  {
    TrimStartEmpty(s);
    var t := TrimStart(s);
    assert t != [] ==> TrimEnd(t) != [] by {
      if t != [] && TrimEnd(t) == [] {
        TrimEndNonEmpty(t);
      }
    }
  }

  /** Trimming the end of a text that starts with a non-whitespace character
      leaves that character. */
  lemma {:induction false} TrimEndNonEmpty(t: string)
    requires t != [] && !IsWhitespace(t[0])
    ensures TrimEnd(t) != []
  {
    if |t| > 1 && IsWhitespace(t[|t| - 1]) {
      TrimEndNonEmpty(t[..|t| - 1]);
    }
  }

  /** `todos.find(t => t.id === key)`: the first task with that identifier. */
  function FindById(ts: seq<Task>, key: string): (r: Option<Task>)
    ensures r.None? <==> !HasId(ts, key)
    ensures r.Some? ==> exists i :: 0 <= i < |ts| && ts[i] == r.value && r.value.id == key &&
                                    forall j :: 0 <= j < i ==> ts[j].id != key
  {
    if ts == [] then None
    else if ts[0].id == key then Some(ts[0])
    else
      var r := FindById(ts[1..], key);
      assert forall i :: 1 <= i < |ts| ==> ts[i] == ts[1..][i - 1];
      assert r.Some? ==> exists i :: 1 <= i < |ts| && ts[i] == r.value && r.value.id == key &&
                                    forall j :: 0 <= j < i ==> ts[j].id != key;
      r
  }

  /** The form's initial task. */
  const DefaultTask: Task := Task("", "", false, Some(""))

  /** The created task: the form's fields, a new identifier, not completed. */
  function Created(form: Task, clock: string): Task {
    form.(id := clock, completed := false)
  }

  /** The collection `handleSubmit` saves: in edit mode every task with the
      route identifier becomes the form task; in create mode the created task
      is appended. */
  function Submitted(todos: seq<Task>, form: Task, routeId: Option<string>, clock: string): seq<Task> {
    match routeId
    case Some(key) => ReplaceId(todos, key, form)
    case None => todos + [Created(form, clock)]
  }

  /** Create mode appends one task, not completed whatever the form held, and
      leaves the earlier tasks as loaded. */
  lemma SubmitCreateAppends(todos: seq<Task>, form: Task, clock: string)
    ensures var r := Submitted(todos, form, None, clock);
      |r| == |todos| + 1 && r[..|todos|] == todos &&
      r[|todos|].id == clock && !r[|todos|].completed &&
      r[|todos|].title == form.title && r[|todos|].description == form.description
  {
  }

  /** Edit mode keeps the length and replaces by the ROUTE identifier (not the
      form task's own `id`); an identifier absent from the store saves the
      loaded collection unchanged. */
  lemma SubmitEditReplaces(todos: seq<Task>, form: Task, key: string, clock: string)
    ensures |Submitted(todos, form, Some(key), clock)| == |todos|
    ensures forall i :: 0 <= i < |todos| ==>
      Submitted(todos, form, Some(key), clock)[i] == (if todos[i].id == key then form else todos[i])
    ensures !HasId(todos, key) ==> Submitted(todos, form, Some(key), clock) == todos
  {
    if !HasId(todos, key) {
      ReplaceAbsent(todos, key, form);
    }
  }

  /** The two inputs of the form. */
  datatype Field = Title | Description

  /** `{ ...task, [field]: value }`. */
  function SetField(t: Task, field: Field, value: string): Task {
    match field
    case Title => t.(title := value)
    case Description => t.(description := Some(value))
  }

  /** How a submit ended. */
  datatype SubmitOutcome = BlankTitle | Saved | SaveFailed

  /** The state of one `TaskForm` component. */
  class TaskForm {
    var task: Task
    var navigated: bool       // `history.push("/tasks")` has run
    const routeId: Option<string>
    const store: TodoService

    constructor (store: TodoService, routeId: Option<string>)
      ensures this.store == store && this.routeId == routeId
      ensures task == DefaultTask && !navigated
    {
      this.store := store;
      this.routeId := routeId;
      task := DefaultTask;
      navigated := false;
    }

    /** The edit-mode effect: load the tasks and show the first one with the
        route identifier; when there is none the form keeps what it has. */
    method LoadForEdit(readOk: bool)
      modifies this
      ensures navigated == old(navigated)
      ensures routeId.None? ==> task == old(task)
      ensures routeId.Some? && HasId(Loaded(store.file, readOk), routeId.value) ==>
        task.id == routeId.value && task in Loaded(store.file, readOk)
      ensures routeId.Some? ==> task == match FindById(Loaded(store.file, readOk), routeId.value)
                                       case Some(found) => found
                                       case None => old(task)
    {
      if routeId.Some? {
        var todos := store.LoadTodos(readOk);
        var editTask := FindById(todos, routeId.value);
        if editTask.Some? {
          task := editTask.value;
        }
      }
    }

    /** `handleInputChange`: replace one field of the form task. */
    method HandleInputChange(field: Field, value: string)
      modifies this
      ensures task == SetField(old(task), field, value)
      ensures task.id == old(task).id && task.completed == old(task).completed
      ensures field == Title ==> task.title == value && task.description == old(task).description
      ensures field == Description ==> task.description == Some(value) && task.title == old(task).title
      ensures navigated == old(navigated)
    {
      task := SetField(task, field, value);
    }

    /** `handleSubmit`: refuse a blank title; otherwise load, build the new
        collection, save it, and navigate to the list once the save is done.
        A failed save is not caught, so it never navigates. */
    method HandleSubmit(clock: string, readOk: bool, write: WriteOutcome) returns (outcome: SubmitOutcome)
      modifies this, store
      ensures task == old(task)
      ensures Trim(task.title) == [] ==>
        outcome == BlankTitle && store.file == old(store.file) && navigated == old(navigated)
      ensures Trim(task.title) != [] && write.Written? ==>
        outcome == Saved && navigated &&
        store.file == Json(Submitted(Loaded(old(store.file), readOk), task, routeId, clock))
      ensures Trim(task.title) != [] && !write.Written? ==>
        outcome == SaveFailed && store.file == write.leaves && navigated == old(navigated)
    {
      if Trim(task.title) == [] {
        outcome := BlankTitle;
        return;
      }
      var todos := store.LoadTodos(readOk);
      var updatedTodos := Submitted(todos, task, routeId, clock);
      var ok := store.SaveTodos(updatedTodos, write);
      if ok {
        navigated := true;
        outcome := Saved;
      } else {
        outcome := SaveFailed;
      }
    }
  }
}
