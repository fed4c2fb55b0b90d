# TodoApp to-do list state machine

A model of the `TodoApp` React component. The component keeps four pieces of
state:

- `todos`: an ordered list of `{id, title, completed}` tasks;
- `newTask`: the draft text of the input field;
- `filter`: `"all"` or `"completed"`;
- `errorMessage`: the validation message.

Its event handlers move that state from one value to the next. They add a
task, toggle a task's completion, rename it, delete it, change the draft,
ask for a new title and switch the filter. The visible list is derived from
the state.

The model has three modules:

- `Text` (`text.dfy`) models `String.prototype.trim` and the blank test
  `s.trim() === ""` that the component applies to drafts and edit replies.
- `TodoList` (`todo_list.dfy`) holds the pure list transformations the
  handlers build new arrays with. `Toggle` and `Edit` are the two `map`s.
  `Delete` and `Visible` are the two `filter`s, built on one `Filter`. The
  module also holds the lemmas about them.
- `App` (`todo_app.dfy`) holds the component as the class `TodoApp`. Its
  four fields are the four state variables. Each handler is a method that
  updates them in place and states the whole new state.

Two environment inputs become parameters:

- The clock reading `Date.now()` used as a new task's id becomes `freshId`.
- The reply of the blocking `prompt` becomes an `Option<string>`, with
  `None` for a cancelled prompt (`null`).

Ids are compared with `===` on every entry and are never assumed to be
unique. When two tasks share an id, toggle, edit and delete act on both.
The lemmas that need unique ids take that as a hypothesis.

Three points of the code the model follows exactly:

- Ids come from `Date.now()` (src/Components/TodoApp.js:33) and are never
  checked for uniqueness.
- An edit stores the prompt's reply untrimmed (line 82), and a new task's
  title is the draft untrimmed (line 34); trimming is used only in the guards at lines 31 and 81.
- The filter is a string, and the view tests it only against `"completed"`
  (line 69), so any other value shows every task.

## Model

| member | source | states |
|---|---|---|
| `Text.TrimStart` | src/Components/TodoApp.js:31 | leading part of `trim`: the result is the suffix of the input starting at its first non-whitespace character, and everything dropped is whitespace |
| `Text.TrimEnd` | src/Components/TodoApp.js:31 | trailing part of `trim`: the result is the prefix ending at the last non-whitespace character, and everything dropped is whitespace |
| `Text.Trim` | src/Components/TodoApp.js:31 | `trim` never lengthens its input, and a non-empty result starts and ends with a non-whitespace character |
| `Text.IsBlank` | src/Components/TodoApp.js:31 | the test `s.trim() === ""` holds exactly when every character of `s` is whitespace, the empty string included |
| `Text.TrimIsInnerSlice` | src/Components/TodoApp.js:31 | `s.trim()` is a contiguous slice of `s` with only whitespace outside it, and it neither starts nor ends with whitespace |
| `TodoList.Filter` | src/Components/TodoApp.js:63 | `Array.prototype.filter`: the result is an order-preserving subsequence that holds every copy of each kept entry and nothing else, and every entry in it satisfies the predicate |
| `TodoList.FilterAllKept` | src/Components/TodoApp.js:68-70 | filtering with a predicate every entry satisfies returns the list unchanged |
| `TodoList.Toggle` | src/Components/TodoApp.js:46-51 | toggle keeps length, order, every id and every title; it negates `completed` on exactly the entries carrying the id and leaves every other entry identical |
| `TodoList.ToggleTwice` | src/Components/TodoApp.js:46-51 | toggling the same id twice gives back the original list |
| `TodoList.ToggleAbsent` | src/Components/TodoApp.js:46-51 | toggling an id no entry carries is a no-op |
| `TodoList.ToggleKeepsIds` | src/Components/TodoApp.js:47-49 | toggle keeps the set of ids, and keeps ids unique when they were |
| `TodoList.Edit` | src/Components/TodoApp.js:54-59 | edit keeps length, order, ids and `completed` flags; it sets the title on exactly the entries carrying the id and leaves every other entry identical |
| `TodoList.EditAbsent` | src/Components/TodoApp.js:54-59 | editing an id no entry carries is a no-op |
| `TodoList.EditTwice` | src/Components/TodoApp.js:54-59 | of two edits of one id the second wins, so repeating an edit is idempotent |
| `TodoList.EditToggleCommute` | src/Components/TodoApp.js:46-59 | edit and toggle commute, because they change different fields |
| `TodoList.Delete` | src/Components/TodoApp.js:62-65 | delete, a `filter` with the callback `OtherId` (`todo.id !== id`), returns the order-preserving subsequence holding every entry whose id differs and no entry with that id |
| `TodoList.DeleteLength` | src/Components/TodoApp.js:62-65 | the result's length is the original length minus the number of entries carrying the id |
| `TodoList.DeleteAbsent` | src/Components/TodoApp.js:62-65 | deleting an id no entry carries is a no-op |
| `TodoList.DeleteTwice` | src/Components/TodoApp.js:62-65 | deleting twice equals deleting once |
| `TodoList.DeleteUniqueRemovesOne` | src/Components/TodoApp.js:62-65 | when ids are unique, deleting a present id removes exactly one entry |
| `TodoList.CountIdUnique` | src/Components/TodoApp.js:63 | when ids are unique, an id matches at most one entry |
| `TodoList.DeleteUndoesAdd` | src/Components/TodoApp.js:30-65 | deleting the id of a task just prepended with a fresh id gives back the previous list, so delete undoes add |
| `TodoList.DeleteAfterToggle` | src/Components/TodoApp.js:46-65 | toggling a task and then deleting it is the same as deleting it |
| `TodoList.Visible` | src/Components/TodoApp.js:68-70 | the view, a `filter` with the callback `Shown`, is the order-preserving subsequence holding every copy of each admitted entry: all entries unless the filter is `"completed"`, then exactly the completed ones, so every entry shown is completed |
| `TodoList.VisibleAll` | src/Components/TodoApp.js:68-70 | any filter value other than `"completed"` shows the whole list unchanged |
| `TodoList.VisibleCompletedLength` | src/Components/TodoApp.js:68-70 | the completed view is never longer than the list, and it is the whole list when every task is completed |
| `TodoList.PrependFreshKeepsUnique` | src/Components/TodoApp.js:32-37 | prepending a task whose id is not yet used keeps ids unique and adds exactly that id |
| `App.PromptAccepted` | src/Components/TodoApp.js:81 | the guard `updatedTitle && updatedTitle.trim() !== ""` accepts exactly the replies that exist and hold a non-whitespace character |
| `App.TodoApp.constructor` | src/Components/TodoApp.js:6-9 | initial state: no tasks, empty draft, filter `"all"`, no error message |
| `App.TodoApp.FilteredTodos` | src/Components/TodoApp.js:68-70 | the view of the current state is the order-preserving subsequence of `todos` holding every copy of each admitted task, and all of `todos` unchanged when the filter is not `"completed"`; as a function it cannot change the state |
| `App.TodoApp.AddTask` | src/Components/TodoApp.js:30-43 | a non-blank draft prepends `{id: freshId, title: draft verbatim, completed: false}` before the old tasks in their order and clears draft and error; a blank draft leaves tasks and draft and sets the error to "Task should not be empty"; the filter never changes |
| `App.TodoApp.ToggleTaskCompletion` | src/Components/TodoApp.js:46-51 | the tasks become `Toggle` of the old tasks; draft, filter and error are unchanged |
| `App.TodoApp.EditTask` | src/Components/TodoApp.js:54-59 | the tasks become `Edit` of the old tasks with the given title, unchecked; draft, filter and error are unchanged |
| `App.TodoApp.DeleteTask` | src/Components/TodoApp.js:62-65 | the tasks become `Delete` of the old tasks; draft, filter and error are unchanged |
| `App.TodoApp.SetFilter` | src/Components/TodoApp.js:103-115 | the filter buttons set the filter and change nothing else |
| `App.TodoApp.HandleInputChange` | src/Components/TodoApp.js:73-76 | the draft becomes the typed text verbatim and the error is cleared; tasks and filter are unchanged |
| `App.TodoApp.HandleEdit` | src/Components/TodoApp.js:79-84 | a cancelled, empty or whitespace-only reply changes nothing; any other reply performs `editTask` with the untrimmed reply; draft, filter and error never change |
| `App.AddShowsNewTaskFirst` | src/Components/TodoApp.js:30-43 | under the `"all"` filter, adding a non-blank draft grows the visible list by one and shows the new task first |

## Left out

- `fetchTodos` and the mount effect (src/Components/TodoApp.js:12-27) are left out. They do asynchronous network I/O and JSON parsing, log failures, and replace the whole list whenever the response arrives.
- `Date.now()` is not modelled. The id of a new task is a parameter, and nothing assumes it is fresh.
- The blocking `prompt` is not modelled. Its reply is a parameter. The second argument of `handleEdit`, the current title, only seeds the prompt's default text, so `HandleEdit` does not take it.
- The JSX rendering, the CSS import, class names and inline styles are left out because they are presentation only.
- React's scheduling of state updates is not modelled. Each handler reads the state as it was when the event fired and its setters do not read each other's results, so a handler is one atomic update of the fields.
- Strings are sequences of Unicode scalar values. JavaScript strings are UTF-16 code units, so a lone surrogate cannot be represented. This makes no difference to `trim`, whose whitespace set lies entirely in the Basic Multilingual Plane. The whitespace set is the ECMAScript one, with the space-separator category as of current Unicode.
- Tasks carry exactly the three fields `id`, `title` and `completed`. Records from the remote list may carry more, and the spreads `{...todo, ...}` at lines 48 and 56 keep them; those extra fields are not represented, and nothing in the component reads them.
- Ids are integers. JavaScript numbers are floating point, and `===` between a number and a non-number id from the remote list is always false. The model does not cover ids that are not integers.
