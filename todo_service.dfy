/** The task store (`TodoService`): one JSON file that holds the whole task
    collection, read and rewritten as a unit. */
module TodoServices {
  import opened Tasks

  /** What a read of the backing file `todos.json` sees. */
  datatype FileState =
    | Absent              // no file yet: `readFile` throws
    | NotText             // `readFile` returns a Blob instead of a string
    | NotJson             // the text does not parse as JSON
    | Json(tasks: seq<Task>)  // the text parses to this array of tasks

  /** What one call of `writeFile` does. A failed write can leave the file
      in any state (the old content, a truncated one, nothing), so the
      outcome names the state it leaves. */
  datatype WriteOutcome = Written | WriteFailed(leaves: FileState)

  /** What `loadTodos` returns for a file state and a read outcome (`readOk`
      false: `readFile` throws on an I/O error): the stored array, or the
      empty collection on every failure. */
  function Loaded(f: FileState, readOk: bool): seq<Task> {
    if readOk && f.Json? then f.tasks else []
  }

  /** `todos.map(t => t.id === key ? v : t)`. */
  function ReplaceId(ts: seq<Task>, key: string, v: Task): (r: seq<Task>)
    ensures |r| == |ts|
    ensures forall i :: 0 <= i < |ts| ==> r[i] == (if ts[i].id == key then v else ts[i])
  {
    if ts == [] then []
    else [if ts[0].id == key then v else ts[0]] + ReplaceId(ts[1..], key, v)
  }

  /** `todos.filter(t => t.id !== key)`. */
  function RemoveId(ts: seq<Task>, key: string): (r: seq<Task>)
    ensures |r| <= |ts|
  {
    if ts == [] then []
    else (if ts[0].id == key then [] else [ts[0]]) + RemoveId(ts[1..], key)
  }

  /** `a` is `b` with some elements left out, the others in their order. */
  ghost predicate IsSubsequence(a: seq<Task>, b: seq<Task>)
    decreases |b|
  {
    if a == [] then true
    else if b == [] then false
    else (a[0] == b[0] && IsSubsequence(a[1..], b[1..])) || IsSubsequence(a, b[1..])
  }

  /** Replacing an identifier that no task carries changes nothing. */
  lemma ReplaceAbsent(ts: seq<Task>, key: string, v: Task)
    requires !HasId(ts, key)
    ensures ReplaceId(ts, key, v) == ts
  {
    var r := ReplaceId(ts, key, v);
    forall i | 0 <= i < |ts| ensures r[i] == ts[i] {
      assert ts[i].id != key;
    }
  }

  /** Replacing twice by the same identifier is replacing once. */
  lemma ReplaceIdempotent(ts: seq<Task>, key: string, v: Task)
    ensures ReplaceId(ReplaceId(ts, key, v), key, v) == ReplaceId(ts, key, v)
  {
    var r := ReplaceId(ts, key, v);
    var r2 := ReplaceId(r, key, v);
    forall i | 0 <= i < |ts| ensures r2[i] == r[i] {
      if ts[i].id != key { assert r[i] == ts[i]; }
    }
  }

  /** Filtering keeps nothing with the removed identifier, and changes
      nothing when that identifier is absent. */
  lemma {:induction false} RemoveAbsent(ts: seq<Task>, key: string)
    requires !HasId(ts, key)
    ensures RemoveId(ts, key) == ts
  {
    if ts != [] {
      assert ts[0].id != key;
      assert !HasId(ts[1..], key) by {
        forall i | 0 <= i < |ts[1..]| ensures ts[1..][i].id != key {
          assert ts[1..][i] == ts[i + 1];
        }
      }
      RemoveAbsent(ts[1..], key);
    }
  }

  /** A task survives the filter exactly when it was loaded and carries
      another identifier. */
  lemma {:induction false} RemoveKeeps(ts: seq<Task>, key: string, t: Task)
    ensures t in RemoveId(ts, key) <==> t in ts && t.id != key
  {
    if ts != [] {
      RemoveCons(ts[0], ts[1..], key);
      assert ts == [ts[0]] + ts[1..];
      RemoveKeeps(ts[1..], key, t);
    }
  }

  /** After a removal no task carries the removed identifier. */
  lemma RemoveLeavesNoId(ts: seq<Task>, key: string)
    ensures !HasId(RemoveId(ts, key), key)
  {
    var r := RemoveId(ts, key);
    forall i | 0 <= i < |r| ensures r[i].id != key {
      RemoveKeeps(ts, key, r[i]);
    }
  }

  /** Filtering twice by the same identifier is filtering once. */
  lemma RemoveIdempotent(ts: seq<Task>, key: string)
    ensures RemoveId(RemoveId(ts, key), key) == RemoveId(ts, key)
  {
    RemoveLeavesNoId(ts, key);
    RemoveAbsent(RemoveId(ts, key), key);
  }

  /** One step of the filter on a list with a known head. */
  lemma RemoveCons(t: Task, rest: seq<Task>, key: string)
    ensures RemoveId([t] + rest, key) == (if t.id == key then [] else [t]) + RemoveId(rest, key)
  {
    assert ([t] + rest)[0] == t && ([t] + rest)[1..] == rest;
  }

  /** Filtering distributes over concatenation: the kept tasks stay in their
      original order. */
  lemma {:induction false} RemoveConcat(a: seq<Task>, b: seq<Task>, key: string)
    ensures RemoveId(a + b, key) == RemoveId(a, key) + RemoveId(b, key)
  {
    if a == [] {
      assert a + b == b;
    } else {
      var h := if a[0].id == key then [] else [a[0]];
      assert a == [a[0]] + a[1..];
      assert a + b == [a[0]] + (a[1..] + b);
      RemoveCons(a[0], a[1..] + b, key);
      RemoveCons(a[0], a[1..], key);
      RemoveConcat(a[1..], b, key);
      assert h + (RemoveId(a[1..], key) + RemoveId(b, key)) == (h + RemoveId(a[1..], key)) + RemoveId(b, key);
    }
  }

  /** The tasks a removal keeps form a subsequence of the loaded ones. */
  lemma {:induction false} RemoveIsSubsequence(ts: seq<Task>, key: string)
    ensures IsSubsequence(RemoveId(ts, key), ts)
  {
    if ts != [] {
      RemoveIsSubsequence(ts[1..], key);
      var r := RemoveId(ts[1..], key);
      if ts[0].id != key {
        assert RemoveId(ts, key) == [ts[0]] + r;
        assert ([ts[0]] + r)[1..] == r;
      } else {
        assert RemoveId(ts, key) == r;
      }
    }
  }

  /** The sole holder of the task file. The source's class is static; here one
      object stands for the single file, and `file` is its content. */
  class TodoService {
    var file: FileState

    constructor (initial: FileState)
      ensures file == initial
    {
      file := initial;
    }

    /** `saveTodos`: overwrite the whole file with `todos`. `write` is the
        outcome of `writeFile`; a failed write is reported to the caller and
        leaves whatever state the outcome names. */
    method SaveTodos(todos: seq<Task>, write: WriteOutcome) returns (ok: bool)
      modifies this
      ensures ok == write.Written?
      ensures file == if write.Written? then Json(todos) else write.leaves
      ensures write.Written? ==> Loaded(file, true) == todos
    {
      ok := write.Written?;
      if write.Written? {
        file := Json(todos);
      } else {
        file := write.leaves;
      }
    }

    /** `loadTodos`: never fails; an absent, non-text or unparseable file, and
        a failed read (`readOk` false), all give the empty collection. */
    method LoadTodos(readOk: bool) returns (todos: seq<Task>)
      ensures todos == Loaded(file, readOk)
      ensures readOk && file.Json? ==> todos == file.tasks
      ensures !readOk || !file.Json? ==> todos == []
    {
      if readOk && file.Json? {
        todos := file.tasks;
      } else {
        todos := [];
      }
    }

    /** `addTodo`: load, append the draft under identifier `clock`
        (`Date.now().toString()` in the source), save. */
    method AddTodo(draft: Draft, clock: string, readOk: bool, write: WriteOutcome) returns (ok: bool)
      modifies this
      ensures ok == write.Written?
      ensures !write.Written? ==> file == write.leaves
      ensures write.Written? ==> file == Json(Loaded(old(file), readOk) + [WithId(draft, clock)])
      ensures write.Written? && (!readOk || !old(file).Json?) ==> file == Json([WithId(draft, clock)])
    {
      var todos := LoadTodos(readOk);
      var todoWithId := WithId(draft, clock);
      ok := SaveTodos(todos + [todoWithId], write);
    }

    /** `updateTodo`: load, replace every task whose identifier is
        `updated.id` by `updated`, save. */
    method UpdateTodo(updated: Task, readOk: bool, write: WriteOutcome) returns (ok: bool)
      modifies this
      ensures ok == write.Written?
      ensures file == if write.Written? then Json(ReplaceId(Loaded(old(file), readOk), updated.id, updated)) else write.leaves
      ensures write.Written? && !HasId(Loaded(old(file), readOk), updated.id) ==> file == Json(Loaded(old(file), readOk))
    {
      var todos := LoadTodos(readOk);
      var updatedTodos := ReplaceId(todos, updated.id, updated);
      if !HasId(todos, updated.id) {
        ReplaceAbsent(todos, updated.id, updated);
      }
      ok := SaveTodos(updatedTodos, write);
    }

    /** `deleteTodo`: load, drop every task whose identifier is `todoId`,
        save. */
    method DeleteTodo(todoId: string, readOk: bool, write: WriteOutcome) returns (ok: bool)
      modifies this
      ensures ok == write.Written?
      ensures file == if write.Written? then Json(RemoveId(Loaded(old(file), readOk), todoId)) else write.leaves
      ensures write.Written? ==> !HasId(file.tasks, todoId)
      ensures write.Written? && !HasId(Loaded(old(file), readOk), todoId) ==> file == Json(Loaded(old(file), readOk))
    {
      var todos := LoadTodos(readOk);
      var filteredTodos := RemoveId(todos, todoId);
      RemoveLeavesNoId(todos, todoId);
      if !HasId(todos, todoId) {
        RemoveAbsent(todos, todoId);
      }
      ok := SaveTodos(filteredTodos, write);
    }
  }

  /** A client of the store's contracts: starting from no file, add a task,
      mark it completed, delete it; every step is read back. */
  method LifecycleScenario(clock: string)
  {
    var store := new TodoService(Absent);
    var ok := store.AddTodo(Draft("Buy milk", false, None), clock, true, Written);
    var todos := store.LoadTodos(true);
    assert todos == [Task(clock, "Buy milk", false, None)];
    var done := todos[0].(completed := true);
    ok := store.UpdateTodo(done, true, Written);
    todos := store.LoadTodos(true);
    assert todos == [done];
    ok := store.DeleteTodo(clock, true, Written);
    todos := store.LoadTodos(true);
    assert todos == [];
  }
}
