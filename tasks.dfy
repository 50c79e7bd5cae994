/** The task record shared by the store and the screens (the `TodoItem` /
    `Task` interfaces of the application). */
module Tasks {

  /** An optional value; `None` stands for a JavaScript property that is absent
      (`undefined`). */
  datatype Option<+T> = None | Some(value: T)

  /** One to-do record. `description` is optional in the stored JSON. */
  datatype Task = Task(id: string, title: string, completed: bool, description: Option<string>)

  /** A task without its identifier: the argument of `addTodo`
      (`Omit<TodoItem, 'id'>`). */
  datatype Draft = Draft(title: string, completed: bool, description: Option<string>)

  /** `{ ...draft, id: id }`: the draft's fields with the given identifier. */
  function WithId(d: Draft, id: string): Task {
    Task(id, d.title, d.completed, d.description)
  }

  /** True when some task of `ts` carries identifier `key`. */
  predicate HasId(ts: seq<Task>, key: string) {
    exists i :: 0 <= i < |ts| && ts[i].id == key
  }
}
