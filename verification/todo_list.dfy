/** The state of the `TodoList` component and one pure transition per user
    action. A transition that talks to the task store takes the store's
    answer as an input and reports the request it would send. */
module TodoList {
  import opened Outcomes
  import opened JsString
  import opened TaskSeq

  /** The component's six pieces of state, named after what they hold:
      `tasks`, the add-box draft `task`, `editIndex` (the id being edited),
      `editedTask`, `filter` and `darkMode`. */
  datatype State = State(
    tasks: seq<Task>,
    draft: string,
    editing: Option<Id>,
    editedText: string,
    filter: string,
    darkMode: bool)

  /** A request to the task store's REST interface. An update carries a
      completion flag only when it comes from the checkbox; an edit sends
      the text alone. */
  datatype Request =
    | ListTasks
    | CreateTask(text: string, completed: bool)
    | UpdateTask(id: Id, text: string, newCompleted: Option<bool>)
    | DeleteTask(id: Id)

  /** One transition: the request it issued, if any, and the state after it. */
  datatype Step = Step(sent: Option<Request>, next: State)

  /** The value written to browser storage under the key "theme". */
  function ThemeValue(darkMode: bool): (v: string)
    ensures v == "dark" || v == "light"
    ensures v == "dark" <==> darkMode
  {
    if darkMode then "dark" else "light"
  }

  /** The state a freshly mounted component starts from, given what browser
      storage held under "theme" (`None` when the key is unset). */
  function Init(storedTheme: Option<string>): (r: State)
    ensures r.tasks == [] && r.draft == "" && r.editing == None && r.editedText == ""
    ensures r.filter == "all"
    ensures r.darkMode <==> storedTheme == Some("dark")
  {
    State([], "", None, "", "all", storedTheme == Some("dark"))
  }

  /** Loading the list: on success the store's list replaces `tasks`
      wholesale; on failure nothing changes. */
  function FetchTasks(s: State, reply: Outcome<seq<Task>>): (r: Step)
    ensures r.sent == Some(ListTasks)
    ensures reply.Ok? ==> r.next.tasks == reply.value && r.next.(tasks := s.tasks) == s
    ensures reply.Failed? ==> r.next == s
  {
    match reply
    case Ok(list) => Step(Some(ListTasks), s.(tasks := list))
    case Failed => Step(Some(ListTasks), s)
  }

  /** Adding the draft as a new task. A blank draft sends nothing and
      changes nothing; otherwise the untrimmed draft is posted as a pending
      task, and the created task the store returns is appended. */
  function AddTask(s: State, reply: Outcome<Task>): (r: Step)
    ensures r.sent == None <==> AllWhitespace(s.draft)
    ensures r.sent == None ==> r.next == s
    ensures r.sent != None ==> r.sent == Some(CreateTask(s.draft, false))
    ensures reply.Failed? ==> r.next == s
    ensures r.sent != None && reply.Ok? ==>
              && |r.next.tasks| == |s.tasks| + 1
              && r.next.tasks[..|s.tasks|] == s.tasks
              && r.next.tasks[|s.tasks|] == reply.value
              && r.next.draft == ""
              && r.next.(tasks := s.tasks, draft := s.draft) == s
  {
    if IsBlank(s.draft) then Step(None, s)
    else
      var request := Some(CreateTask(s.draft, false));
      match reply
      case Ok(created) => Step(request, s.(tasks := s.tasks + [created], draft := ""))
      case Failed => Step(request, s)
  }

  /** Deleting task `id`. The delete is always sent; on success every entry
      with that id is dropped and the others keep their order. The edit
      session is left alone even when it was editing `id`. */
  function RemoveTask(s: State, id: Id, reply: Outcome<()>): (r: Step)
    ensures r.sent == Some(DeleteTask(id))
    ensures reply.Failed? ==> r.next == s
    ensures reply.Ok? ==>
              && IsSubsequence(r.next.tasks, s.tasks)
              && !HasId(r.next.tasks, id)
              && (forall t: Task :: t.id != id ==> multiset(r.next.tasks)[t] == multiset(s.tasks)[t])
              && r.next.(tasks := s.tasks) == s
  {
    match reply
    case Ok(_) => Step(Some(DeleteTask(id)), s.(tasks := RemoveById(s.tasks, id)))
    case Failed => Step(Some(DeleteTask(id)), s)
  }

  /** Flipping the completion of task `id`, where `completed` is the flag
      the checkbox showed. An unknown id sends nothing. Otherwise the update
      carries the first matching task's text and the negated flag, and on
      success the store's answer replaces every entry with that id. */
  function ToggleComplete(s: State, id: Id, completed: bool, reply: Outcome<Task>): (r: Step)
    ensures r.sent == None <==> !HasId(s.tasks, id)
    ensures r.sent == None ==> r.next == s
    ensures r.sent != None ==>
              exists i :: 0 <= i < |s.tasks| && s.tasks[i].id == id
                          && (forall j :: 0 <= j < i ==> s.tasks[j].id != id)
                          && r.sent == Some(UpdateTask(id, s.tasks[i].text, Some(!completed)))
    ensures reply.Failed? ==> r.next == s
    ensures r.sent != None && reply.Ok? ==>
              && |r.next.tasks| == |s.tasks|
              && (forall i :: 0 <= i < |s.tasks| && s.tasks[i].id != id ==> r.next.tasks[i] == s.tasks[i])
              && (forall i :: 0 <= i < |s.tasks| && s.tasks[i].id == id ==> r.next.tasks[i] == reply.value)
              && r.next.(tasks := s.tasks) == s
  {
    match Find(s.tasks, id)
    case None => Step(None, s)
    case Some(current) =>
      var request := Some(UpdateTask(id, current.text, Some(!completed)));
      match reply
      case Ok(updated) => Step(request, s.(tasks := ReplaceById(s.tasks, id, updated)))
      case Failed => Step(request, s)
  }

  /** Opening an edit session on task `id` with `text` in the edit box,
      replacing any session already open. */
  function StartEditing(s: State, id: Id, text: string): (r: State)
    ensures r.editing == Some(id) && r.editedText == text
    ensures r.(editing := s.editing, editedText := s.editedText) == s
  {
    s.(editing := Some(id), editedText := text)
  }

  /** Saving the edit box as the text of task `id`. A blank edit box sends
      nothing and keeps the session open; otherwise only the text is sent,
      and on success the store's answer replaces every entry with that id
      and the session closes. On failure the session stays open. */
  function SaveEdit(s: State, id: Id, reply: Outcome<Task>): (r: Step)
    ensures r.sent == None <==> AllWhitespace(s.editedText)
    ensures r.sent == None ==> r.next == s
    ensures r.sent != None ==> r.sent == Some(UpdateTask(id, s.editedText, None))
    ensures reply.Failed? ==> r.next == s
    ensures r.sent != None && reply.Ok? ==>
              && |r.next.tasks| == |s.tasks|
              && (forall i :: 0 <= i < |s.tasks| && s.tasks[i].id != id ==> r.next.tasks[i] == s.tasks[i])
              && (forall i :: 0 <= i < |s.tasks| && s.tasks[i].id == id ==> r.next.tasks[i] == reply.value)
              && r.next.editing == None
              && r.next.(tasks := s.tasks, editing := s.editing) == s
  {
    if IsBlank(s.editedText) then Step(None, s)
    else
      var request := Some(UpdateTask(id, s.editedText, None));
      match reply
      case Ok(updated) =>
        Step(request, s.(tasks := ReplaceById(s.tasks, id, updated), editing := None))
      case Failed => Step(request, s)
  }

  /** Closing the edit session without saving; the edit box keeps its text. */
  function CancelEdit(s: State): (r: State)
    ensures r.editing == None
    ensures r.(editing := s.editing) == s
  {
    s.(editing := None)
  }

  /** Choosing which tasks the list shows. */
  function SetFilter(s: State, filter: string): (r: State)
    ensures r.filter == filter && r.(filter := s.filter) == s
  {
    s.(filter := filter)
  }

  /** Typing into the add box. */
  function SetDraft(s: State, text: string): (r: State)
    ensures r.draft == text && r.(draft := s.draft) == s
  {
    s.(draft := text)
  }

  /** Typing into the edit box. */
  function SetEditedText(s: State, text: string): (r: State)
    ensures r.editedText == text && r.(editedText := s.editedText) == s
  {
    s.(editedText := text)
  }

  /** The theme button: flips `darkMode` and nothing else. */
  function ToggleDarkMode(s: State): (r: State)
    ensures r.darkMode != s.darkMode && r.(darkMode := s.darkMode) == s
  {
    s.(darkMode := !s.darkMode)
  }

  /** Whether the view keeps task `t` under `filter`. */
  function Shows(filter: string, t: Task): bool {
    if filter == "completed" then t.completed
    else if filter == "pending" then !t.completed
    else true
  }

  /** The list actually shown: an order-preserving selection of `tasks`
      holding exactly the completed tasks under "completed", exactly the
      pending ones under "pending", and every task under any other filter. */
  function FilteredTasks(s: State): (r: seq<Task>)
    ensures IsSubsequence(r, s.tasks)
    ensures s.filter == "completed" ==>
              forall t: Task :: multiset(r)[t] == if t.completed then multiset(s.tasks)[t] else 0
    ensures s.filter == "pending" ==>
              forall t: Task :: multiset(r)[t] == if t.completed then 0 else multiset(s.tasks)[t]
    ensures s.filter != "completed" && s.filter != "pending" ==> r == s.tasks
  {
    var keep := (t: Task) => Shows(s.filter, t);
    FilterSpec(s.tasks, keep);
    assert s.filter != "completed" && s.filter != "pending" ==> Filter(s.tasks, keep) == s.tasks by {
      if s.filter != "completed" && s.filter != "pending" {
        FilterKeepAll(s.tasks, keep);
      }
    }
    Filter(s.tasks, keep)
  }
}
