# To-do list component: the state machine under the UI

The `TodoList` React component keeps a list of tasks in sync with a REST task
store. Take away rendering and the network, and what remains is a small
deterministic state machine. Its state has six parts:

- `tasks`: the list of `{id, text, completed}` records;
- the add-box draft;
- `editIndex`: the id being edited, if any;
- the edit-box text;
- the `filter` string;
- the `darkMode` flag.

Each user action that calls the store is a pure function from the old state
to a `Step`. A `Step` holds the request sent to the store, if any, and the
next state. Such an action takes the store's answer as an `Outcome` input.
The answer is either `Ok(body)` or `Failed`. The purely local actions
(editing, filtering, typing, the theme button) are functions from state to
state; `TodoProperties.Apply` wraps them in a `Step` that sends nothing.

Files:

- `outcomes.dfy`: `Option` and `Outcome`.
- `js_string.dfy`: JavaScript's `trim`, which drives the blank-draft guards.
- `task_seq.dfy`: tasks, plus the list surgery on them. This covers `filter`,
  `find`, remove-by-id and replace-by-id, and lemmas about them.
- `todo_list.dfy`: the component state and one transition per action.
- `todo_properties.dfy`: the actions as one datatype, and properties that span
  several actions. These cover failure, the guards, the duplicate-free-ids
  invariant, round trips and a full scenario.

Three behaviours of the code worth noting:

- `toggleComplete` negates the `completed` argument it is called with. It does
  not negate the flag of the task it found. The UI passes the flag of the row
  the user clicked.
- Removal and replacement affect every entry with a matching id, not only the
  first one.
- The view treats any filter string other than `"completed"` and `"pending"`
  as "show everything".

## Model

| member | source | states |
|---|---|---|
| JsString.TrimStart | src/TodoList.jsx:39 | the result is a suffix of the input, everything dropped is whitespace, and the result does not start with whitespace |
| JsString.TrimEnd | src/TodoList.jsx:39 | the result is a prefix of the input, everything dropped is whitespace, and the result does not end with whitespace |
| JsString.Trim | src/TodoList.jsx:39 | `trim()` is the contiguous slice of the text left after dropping all-whitespace runs at both ends; it neither starts nor ends with whitespace, and it is empty exactly when every character is ECMAScript whitespace |
| JsString.TrimIdempotent | src/TodoList.jsx:39 | a property of `trim` itself: a trimmed text has nothing left to trim |
| TaskSeq.FilterSpec | src/TodoList.jsx:100-104 | `filter` keeps, in their original order, exactly the entries the predicate accepts, each with its original multiplicity |
| TaskSeq.Find | src/TodoList.jsx:64 | `find` by id returns nothing exactly when no entry has the id; otherwise it returns the first entry with that id |
| TaskSeq.RemoveById | src/TodoList.jsx:57 | the remaining list is an order-preserving subsequence with no entry of that id, and every other entry keeps its multiplicity |
| TaskSeq.ReplaceById | src/TodoList.jsx:73 | length and positions are kept, entries with another id are untouched, and each entry with the id becomes the returned task |
| TaskSeq.FilterKeepAll | src/TodoList.jsx:103 | a filter that accepts every entry returns the list unchanged |
| TaskSeq.FilterUnique | src/TodoList.jsx:57 | filtering a list without duplicate ids leaves a list without duplicate ids |
| TaskSeq.RemoveByIdLength | src/TodoList.jsx:57 | on a list without duplicate ids, the id filter drops exactly one entry when the id is present and none otherwise |
| TaskSeq.RemoveByIdUnique | src/TodoList.jsx:57 | if the list has no duplicate ids, removal keeps it that way and drops exactly one entry when the id is present |
| TaskSeq.ReplaceByIdUnique | src/TodoList.jsx:89 | replacing with a task that carries the same id keeps the ids duplicate-free |
| TaskSeq.RemoveAfterReplace | src/TodoList.jsx:57-73 | replace-by-id touches only the matching id: when the replacement carries that same id, removing the id afterwards gives the same list as removing it without the replacement |
| TaskSeq.ReplaceAbsentId | src/TodoList.jsx:73 | replacing an id that no entry carries leaves the list as it is |
| TaskSeq.FilterConcat | src/TodoList.jsx:47-57 | filtering a list with an entry appended is filtering the list, then the appended entry |
| TaskSeq.RemoveAppended | src/TodoList.jsx:47-57 | if the appended task's id was new, removing that id gives back the list from before the append |
| TodoList.ThemeValue | src/TodoList.jsx:21 | the stored theme is "dark" exactly when dark mode is on, and "light" otherwise |
| TodoList.Init | src/TodoList.jsx:8-15 | the component starts with an empty list, empty texts, no edit session and filter "all"; dark mode is on exactly when storage holds "dark" |
| TodoList.FetchTasks | src/TodoList.jsx:24-32 | a list request is sent; on success the returned list replaces `tasks` and nothing else changes; on failure nothing changes |
| TodoList.AddTask | src/TodoList.jsx:38-52 | no request is sent exactly when the draft is all whitespace, and then nothing changes; otherwise the untrimmed draft is posted with completed=false; on success the list grows by exactly the returned task at the end, earlier entries stay as they were and the draft is cleared; on failure nothing changes |
| TodoList.RemoveTask | src/TodoList.jsx:54-61 | a delete is always sent; on success the list is an order-preserving subsequence with no entry of that id, other entries keep their multiplicity, and the rest of the state (including the edit session) is kept; on failure nothing changes |
| TodoList.ToggleComplete | src/TodoList.jsx:63-77 | no request is sent exactly when no entry has the id, and then nothing changes; otherwise the update carries the first match's text and the negated argument flag; on success entries are replaced by id with positions kept; on failure nothing changes |
| TodoList.StartEditing | src/TodoList.jsx:80-83 | the session opens on the id with the given text, replacing any open session, and nothing else changes |
| TodoList.SaveEdit | src/TodoList.jsx:85-94 | no request is sent exactly when the edit text is all whitespace, and then the session stays open; otherwise only the text is sent; on success entries are replaced by id and the session closes; on failure nothing changes |
| TodoList.CancelEdit | src/TodoList.jsx:96-98 | the session closes and nothing else changes, including the edit text |
| TodoList.SetFilter | src/TodoList.jsx:121-123 | only the filter changes |
| TodoList.SetDraft | src/TodoList.jsx:117 | only the draft changes |
| TodoList.SetEditedText | src/TodoList.jsx:138 | only the edit text changes |
| TodoList.ToggleDarkMode | src/TodoList.jsx:109 | dark mode flips and nothing else changes |
| TodoList.FilteredTasks | src/TodoList.jsx:100-104 | the view is an order-preserving subsequence of `tasks`: exactly the completed tasks under "completed", exactly the pending ones under "pending", and all of `tasks` under any other filter |
| TodoProperties.FailureLeavesStateUnchanged | src/TodoList.jsx:24-94 | whichever action made the call, a failed remote call leaves the whole state as it was |
| TodoProperties.GuardedActionIsNoOp | src/TodoList.jsx:38-86 | an add, toggle or save that sends no request leaves the whole state as it was |
| TodoProperties.ApplyKeepsUniqueIds | src/TodoList.jsx:24-98 | every action keeps `tasks` free of duplicate ids, provided the store's answers respect its key |
| TodoProperties.RunKeepsUniqueIds | src/TodoList.jsx:24-109 | any sequence of actions keeps `tasks` free of duplicate ids, provided the store's answers respect its key |
| TodoProperties.ViewsPartitionTasks | src/TodoList.jsx:100-104 | the "completed" and "pending" views split `tasks` between them by length and by multiset |
| TodoProperties.ToggleDarkModeInvolution | src/TodoList.jsx:109 | pressing the theme button twice restores the modelled state |
| TodoProperties.ThemeRoundTrip | src/TodoList.jsx:13-21 | the stored theme string reads back as the same dark-mode flag |
| TodoProperties.AddThenRemoveRestoresTasks | src/TodoList.jsx:38-61 | if both calls succeed and the new id is fresh, adding a task and then deleting it restores `tasks`; with a blank draft nothing is added and the delete removes nothing |
| TodoProperties.ToggleTwiceRestoresTasks | src/TodoList.jsx:63-77 | on a list without duplicate ids, toggling a task twice through a store that applies the requested flag and keeps the text restores `tasks` |
| TodoProperties.RemoveWhileEditingDangles | src/TodoList.jsx:54-98 | for every state, a confirmed delete of the id under edit leaves `editIndex` on that id while no listed task carries it |
| TodoProperties.RemoveWhileEditingDanglesExample | src/TodoList.jsx:54-98 | the dangling session is reachable: from the initial state, editing a listed task and deleting it leaves `editIndex` on a missing id |
| TodoProperties.StartEditingSwitchesTarget | src/TodoList.jsx:80-83 | starting an edit while one is open switches the target; the earlier session leaves no trace |
| TodoProperties.EditSessionCloses | src/TodoList.jsx:85-98 | saving closes the session exactly when it was already closed or the store confirmed a non-blank edit; cancelling always closes it |
| TodoProperties.BlankSaveKeepsSession | src/TodoList.jsx:85-86 | saving a blank edit while a session is open sends nothing and leaves the whole state, including the open session, as it was |
| TodoProperties.AddToggleFilterScenario | src/TodoList.jsx:38-104 | add "A", tick it, then show the pending view: the list goes [A] → [A ticked], and the view is empty |

## Left out

- The HTTP client, the store's URL and the shapes of responses and errors. Each call is an `Outcome` input, and the body is taken to be a task or a list of tasks.
- The fact that the store answers asynchronously. In-flight requests can race, and a later answer can overwrite an earlier one. Each action is modelled as atomic over the state it read.
- Browser storage and the body's `dark-mode` class, which are written in the effect at lines 18-22. Only the stored string (`ThemeValue`) and how it is read back (`Init`) are modelled.
- The two mount and theme effects that call `fetchTasks`, at lines 18-22 and 34-36. They are lifecycle plumbing, and `FetchTasks` models what one call does.
- The list request a theme flip triggers. Each change of `darkMode` re-runs the effect at lines 18-22, and line 19 fetches the list. In the model the theme button sends nothing, and two flips restore the modelled state only. A real flip is also followed by a `FetchTasks` step.
- JSX rendering, event wiring and `console` logging.
- TodoList.FetchTasks: the store's answer is always a sequence of tasks. The code accepts whatever `response.data` holds.
- TaskSeq.Id: an id is a mathematical integer or a string. JavaScript numbers are doubles, and `NaN !== NaN` is not reproduced.
