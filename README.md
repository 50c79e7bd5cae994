# Todo-list-mobile: the task collection layer in Dafny

This project models the part of the to-do application that manipulates the
task collection. That part has three pieces:

- **The task store** (`TodoService`). One file, `todos.json`, holds the whole
  collection as a JSON array. `loadTodos` reads it and falls back to the
  empty collection on any failure. `saveTodos` overwrites the file. `addTodo`,
  `updateTodo` and `deleteTodo` each load, apply one sequence transform
  (append, replace by id, filter by id) and save.
- **The list screen** (`TaskList`). It has three fields: the tasks on display,
  the id selected for deletion, and whether the delete alert is open. Its
  handlers toggle completion, ask for and confirm a deletion, dismiss the alert,
  and build the share text and link.
- **The form screen** (`TaskForm`). It holds the task being edited and the
  route's optional id. Submit rejects a blank title, otherwise edits by route id
  or appends a new task, saves, and navigates. There is also the single-field
  input update and the edit-mode lookup of the task to edit.

Files:

- `tasks.dfy` (module `Tasks`): the task record, the id-less draft `addTodo`
  takes, and `Option` for optional properties.
- `todo_service.dfy` (module `TodoServices`): the file state, the map and
  filter transforms with their lemmas, and the class `TodoService`.
- `task_list.dfy` (module `TaskListScreen`): the toggle transform, the share
  strings, and the class `TaskList`.
- `task_form.dfy` (module `TaskFormScreen`): JavaScript `trim`, `find`, the
  submitted collection, and the class `TaskForm`.

Each class stands for the state the source mutates: the file, or a
component's `useState` fields. The pure expressions inside the handlers
(`[...todos, x]`, `todos.map`, `todos.filter`, `todos.find`, `title.trim()`,
the share template) are functions, and the lemmas prove what they promise.

Things outside the program are parameters:

- `readOk` is whether `Filesystem.readFile` gets past an I/O error.
- `write` is what `Filesystem.writeFile` does: `Written`, or
  `WriteFailed(leaves)`. A failed write can leave the file in any state (the
  old content, a truncated or corrupt one, no file), so the outcome names the
  state it leaves.
- `clock` is the string `Date.now().toString()` yields.

The file itself is one of four states: `Absent` (no file yet), `NotText` (a
Blob), `NotJson` (unparseable text) or `Json(tasks)`. Every call runs to
completion before the next starts.

`TodoServices.LifecycleScenario` is a client of the store's contracts. It walks
through the scenario of adding a task to an empty store, marking it
completed and deleting it, and reads the collection back after each step.

## Model

| member | source | states |
|---|---|---|
| `TodoServices.TodoService.SaveTodos` | src/services/todoServices.tsx:13-20 | a successful save replaces the whole file, whatever it held, so the next load returns exactly the saved collection; a failed write is reported and leaves the file in whatever state the failed write produced |
| `TodoServices.Loaded` | src/services/todoServices.tsx:22-40 | defines the collection `loadTodos` returns: the stored array when the read succeeds on a JSON file, otherwise the empty collection |
| `TodoServices.TodoService.LoadTodos` | src/services/todoServices.tsx:22-40 | never fails: returns the stored array when the read succeeds and the file holds JSON, and the empty collection when the file is absent, not text or unparseable, or the read fails |
| `TodoServices.TodoService.AddTodo` | src/services/todoServices.tsx:44-48 | stores the loaded collection followed by the draft under the clock id, so the length grows by one and the old collection is the prefix; when the file is missing or unreadable the store ends holding exactly the new task |
| `TodoServices.TodoService.UpdateTodo` | src/services/todoServices.tsx:51-57 | stores the loaded collection with every task whose id is the update's id replaced by the update; when no task has that id the stored collection is the loaded one |
| `TodoServices.TodoService.DeleteTodo` | src/services/todoServices.tsx:60-64 | stores the loaded collection without the tasks carrying the id, so no stored task keeps that id; when the id is absent the stored collection is the loaded one |
| `TodoServices.ReplaceId` | src/services/todoServices.tsx:53-55 | the map keeps the length; position by position a task with the key becomes the replacement and every other task stays as it was |
| `TodoServices.ReplaceAbsent` | src/services/todoServices.tsx:53-55 | replacing an id that no task carries returns the collection unchanged |
| `TodoServices.ReplaceIdempotent` | src/services/todoServices.tsx:53-55 | replacing twice by the same id and task gives the result of replacing once |
| `TodoServices.RemoveId` | src/services/todoServices.tsx:62 | the filter is never longer than the loaded collection |
| `TodoServices.RemoveKeeps` | src/services/todoServices.tsx:62 | a task is kept exactly when it was loaded and its id differs from the removed one |
| `TodoServices.RemoveAbsent` | src/services/todoServices.tsx:62 | filtering out an id that no task carries returns the collection unchanged |
| `TodoServices.RemoveLeavesNoId` | src/services/todoServices.tsx:62 | after filtering, no task carries the removed id |
| `TodoServices.RemoveIdempotent` | src/services/todoServices.tsx:62 | filtering twice by the same id gives the result of filtering once |
| `TodoServices.RemoveConcat` | src/services/todoServices.tsx:62 | the filter of a concatenation is the concatenation of the filters, so kept tasks keep their relative order |
| `TodoServices.RemoveIsSubsequence` | src/services/todoServices.tsx:62 | the kept tasks form a subsequence of the loaded collection |
| `TaskListScreen.ToggleId` | src/components/TaskList/TaskList.tsx:43-45 | the map keeps the length; a task whose id matches gets its completion flag negated and every other task stays as it was |
| `TaskListScreen.ToggleFlipsOnlyCompletion` | src/components/TaskList/TaskList.tsx:43-45 | toggling never changes a task's id, title or description, and changes the completion flag only of tasks with the toggled id |
| `TaskListScreen.ToggleTwice` | src/components/TaskList/TaskList.tsx:43-45 | toggling the same id twice restores the original list |
| `TaskListScreen.ToggleAbsent` | src/components/TaskList/TaskList.tsx:43-45 | toggling an id that no task carries changes nothing |
| `TaskListScreen.TaskList.constructor` | src/components/TaskList/TaskList.tsx:23-25 | the screen starts with no tasks shown, nothing selected and the alert closed |
| `TaskListScreen.Deletable` | src/components/TaskList/TaskList.tsx:63 | the JavaScript truthiness of `selectedTask`: set, and not the empty string |
| `TaskListScreen.TaskList.FetchTasks` | src/components/TaskList/TaskList.tsx:28-35 | the displayed list becomes what the store loads, and the selection and alert are untouched |
| `TaskListScreen.TaskList.ToggleTaskCompletion` | src/components/TaskList/TaskList.tsx:41-51 | after a successful save the store and the displayed list both equal the toggled list; when the save fails the error is caught and the displayed list stays as it was, while the file is whatever the failed write left |
| `TaskListScreen.TaskList.HandleDelete` | src/components/TaskList/TaskList.tsx:57-60 | selects the id and opens the alert, leaving the displayed list (and the store) untouched |
| `TaskListScreen.TaskList.ConfirmDelete` | src/components/TaskList/TaskList.tsx:62-69 | with a non-empty selection, a successful save stores and shows the list without the selected id and closes the alert; a failed save propagates with the list and the alert unchanged and the file as the failed write left it; with no or an empty selection only the alert closes |
| `TaskListScreen.TaskList.DismissDeleteAlert` | src/components/TaskList/TaskList.tsx:109-117 | Cancel and dismissal close the alert and change nothing else |
| `TaskListScreen.ShareText` | src/components/TaskList/TaskList.tsx:75 | defines the `text` passed to the share sheet: the title label and title, a line break, then the description label and the description or the empty string; its properties are stated by the two lemmas below |
| `TaskListScreen.ShareUrl` | src/components/TaskList/TaskList.tsx:76 | defines the `url` passed to the share sheet: the tasks base URL followed by the id; `ShareUrlIdentifies` states what it promises |
| `TaskListScreen.ShareTextLines` | src/components/TaskList/TaskList.tsx:75 | when the title holds no line break, the share text's first line is the title label and the title, and the rest is the description label and the description, or nothing when the description is absent |
| `TaskListScreen.ShareTextMissingDescription` | src/components/TaskList/TaskList.tsx:75 | an absent description shares the same text as an empty one |
| `TaskListScreen.ShareUrlIdentifies` | src/components/TaskList/TaskList.tsx:76 | the share link is the tasks base URL followed by the id; two links are equal exactly when the ids are |
| `TaskFormScreen.IsWhitespace` | src/components/TaskForm/TaskForm.tsx:41 | the code points `trim` removes: the ECMA-262 WhiteSpace and LineTerminator characters |
| `TaskFormScreen.Trim` | src/components/TaskForm/TaskForm.tsx:41 | a non-empty trimmed title neither starts nor ends with whitespace |
| `TaskFormScreen.TrimIsSlice` | src/components/TaskForm/TaskForm.tsx:41 | the trimmed title is a contiguous slice of the title |
| `TaskFormScreen.TrimCutsWhitespace` | src/components/TaskForm/TaskForm.tsx:41 | everything trimming cuts off, before and after that slice, is whitespace |
| `TaskFormScreen.TrimEmptyIffBlank` | src/components/TaskForm/TaskForm.tsx:41 | a title trims to the empty string exactly when every character is whitespace, the empty title included |
| `TaskFormScreen.FindById` | src/components/TaskForm/TaskForm.tsx:33 | returns nothing exactly when no task has the id; otherwise it returns a task with that id that no earlier task's id matches, i.e. the first match |
| `TaskFormScreen.Submitted` | src/components/TaskForm/TaskForm.tsx:47-53 | defines the collection submit saves: replace by route id in edit mode, append the created task in create mode; the two lemmas below state its properties |
| `TaskFormScreen.SubmitCreateAppends` | src/components/TaskForm/TaskForm.tsx:51-52 | create mode appends one task with the clock id, not completed whatever the form held, the form's title and description, and leaves the earlier tasks as loaded |
| `TaskFormScreen.SubmitEditReplaces` | src/components/TaskForm/TaskForm.tsx:49 | edit mode keeps the length and replaces each task whose id equals the route id, not the form task's id, by the form task; with the route id absent the loaded collection is saved unchanged |
| `TaskFormScreen.TaskForm.constructor` | src/components/TaskForm/TaskForm.tsx:25 | the form starts with an empty id and title, not completed, an empty description, and not navigated |
| `TaskFormScreen.TaskForm.LoadForEdit` | src/components/TaskForm/TaskForm.tsx:30-37 | in edit mode the form shows the first stored task with the route id, and keeps its current task when there is none; in create mode nothing changes |
| `TaskFormScreen.TaskForm.HandleInputChange` | src/components/TaskForm/TaskForm.tsx:58-60 | changes only the named field of the form task |
| `TaskFormScreen.SetField` | src/components/TaskForm/TaskForm.tsx:59 | defines `{ ...task, [field]: value }` for the title and description inputs; `HandleInputChange` states that only that field changes |
| `TaskFormScreen.TaskForm.HandleSubmit` | src/components/TaskForm/TaskForm.tsx:39-56 | a blank title does no load or save and never navigates; otherwise the store gets the submitted collection built from the loaded one, and navigation happens only once the save succeeds; a failed save does not navigate and leaves the file as the failed write left it |

## Left out

- Capacitor `Filesystem.readFile` and `writeFile`: these are platform I/O. Their outcomes are the `readOk` and `write` parameters, and the file content is the abstract `FileState`.
- `JSON.stringify` and `JSON.parse`: the file holds the task sequence directly. Text that parses to JSON other than an array of tasks, which `loadTodos` would return as it is, is not modelled.
- `Date.now().toString()`: the clock value is the `clock` parameter. Nothing is claimed about id uniqueness, because the code never checks it.
- Promises, `async` ordering, React re-rendering and `useEffect` scheduling: every call is sequential, so the race between overlapping load-modify-save sequences is not modelled.
- JSX rendering, Ionic components, CSS classes, `alert()` and `console.error`: presentation and logging only.
- `Share.share`: a platform call. Only the text and URL passed to it are modelled, not the share title or dialog title.
- `handleEdit` and the form's Cancel button: pure `history.push` routing. Navigation after a submit is kept as the `navigated` flag.
- TaskFormScreen.TaskForm.HandleInputChange: models only the two fields the form binds (title and description). A value written to `id` or `completed` through `keyof Task`, and the `!` non-null assertion on the event value, are not modelled.
- TaskFormScreen.IsWhitespace: fixes the Zs category as of Unicode 15. A JavaScript engine with different Unicode tables may trim a slightly different set.
- src/components/TaskDetail/TaskDetail.tsx is not part of this model. Its only logic is the same `find` by id as the form's edit load.
