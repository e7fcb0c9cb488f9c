/** Properties of the component that relate several transitions: the user
    actions as one datatype, what a failed call does, the duplicate-free
    invariant of `tasks`, round trips, and the session left dangling by a
    delete. */
module TodoProperties {
  import opened Outcomes
  import opened JsString
  import opened TaskSeq
  import opened TodoList

  /** Every user intent the component wires up, with the store's answer
      attached where the intent calls the store. */
  datatype Action =
    | Fetch(list: Outcome<seq<Task>>)
    | Add(created: Outcome<Task>)
    | Remove(id: Id, deleted: Outcome<()>)
    | Toggle(id: Id, completed: bool, toggled: Outcome<Task>)
    | StartEdit(id: Id, text: string)
    | Save(id: Id, saved: Outcome<Task>)
    | Cancel
    | ChooseFilter(filter: string)
    | TypeDraft(text: string)
    | TypeEdit(text: string)
    | FlipTheme

  /** The transition an action makes. */
  function Apply(s: State, a: Action): Step {
    match a
    case Fetch(list) => FetchTasks(s, list)
    case Add(created) => AddTask(s, created)
    case Remove(id, deleted) => RemoveTask(s, id, deleted)
    case Toggle(id, completed, toggled) => ToggleComplete(s, id, completed, toggled)
    case StartEdit(id, text) => Step(None, StartEditing(s, id, text))
    case Save(id, saved) => SaveEdit(s, id, saved)
    case Cancel => Step(None, CancelEdit(s))
    case ChooseFilter(filter) => Step(None, SetFilter(s, filter))
    case TypeDraft(text) => Step(None, SetDraft(s, text))
    case TypeEdit(text) => Step(None, SetEditedText(s, text))
    case FlipTheme => Step(None, ToggleDarkMode(s))
  }

  /** The store's answer to the action was a failure. */
  predicate CallFailed(a: Action) {
    match a
    case Fetch(list) => list.Failed?
    case Add(created) => created.Failed?
    case Remove(_, deleted) => deleted.Failed?
    case Toggle(_, _, toggled) => toggled.Failed?
    case Save(_, saved) => saved.Failed?
    case _ => false
  }

  /** A failed remote call is only logged: the state is exactly as before,
      whichever action made the call. */
  lemma FailureLeavesStateUnchanged(s: State, a: Action)
    requires CallFailed(a)
    ensures Apply(s, a).next == s
  {
  }

  /** A store action that sends no request (a blank draft, a blank edit, an
      unknown id) leaves the state exactly as it was. */
  lemma GuardedActionIsNoOp(s: State, a: Action)
    requires a.Add? || a.Toggle? || a.Save?
    requires Apply(s, a).sent == None
    ensures Apply(s, a).next == s
  {
  }

  /** The store keeps its key constraint in its answers: a listed
      collection has no duplicate ids, a created task has an id not yet in
      the list, and an updated task keeps the id it was updated under. */
  ghost predicate StoreKeepsIds(s: State, a: Action) {
    match a
    case Fetch(list) => list.Ok? ==> UniqueIds(list.value)
    case Add(created) => created.Ok? ==> !HasId(s.tasks, created.value.id)
    case Toggle(id, _, toggled) => toggled.Ok? ==> toggled.value.id == id
    case Save(id, saved) => saved.Ok? ==> saved.value.id == id
    case _ => true
  }

  /** Appending a task whose id is new keeps ids unique. */
  lemma AppendFreshUnique(tasks: seq<Task>, t: Task)
    requires UniqueIds(tasks) && !HasId(tasks, t.id)
    ensures UniqueIds(tasks + [t])
  {

  }

  /** Each action keeps `tasks` free of duplicate ids as long as the store
      keeps its key constraint. */
  lemma {:induction false} ApplyKeepsUniqueIds(s: State, a: Action)
    requires UniqueIds(s.tasks) && StoreKeepsIds(s, a)
    ensures UniqueIds(Apply(s, a).next.tasks)
  {
    match a
    case Add(created) =>
      if created.Ok? {
        AppendFreshUnique(s.tasks, created.value);
      }
    case Remove(id, deleted) =>
      RemoveByIdUnique(s.tasks, id);
    case Toggle(id, completed, toggled) =>
      if toggled.Ok? {
        ReplaceByIdUnique(s.tasks, id, toggled.value);
      }
    case Save(id, saved) =>
      if saved.Ok? {
        ReplaceByIdUnique(s.tasks, id, saved.value);
      }
    case _ =>
  }

  /** The state after a sequence of actions, each applied to the state the
      previous one left. */
  function Run(s: State, actions: seq<Action>): State
    decreases |actions|
  {
    if actions == [] then s else Run(Apply(s, actions[0]).next, actions[1..])
  }

  /** Every answer along a run keeps the store's key constraint. */
  ghost predicate StoreKeepsIdsAlong(s: State, actions: seq<Action>)
    decreases |actions|
  {
    actions == [] ||
      (StoreKeepsIds(s, actions[0]) && StoreKeepsIdsAlong(Apply(s, actions[0]).next, actions[1..]))
  }

  /** Starting from a duplicate-free list, any run against a store that
      keeps its key constraint ends with a duplicate-free list. */
  lemma {:induction false} RunKeepsUniqueIds(s: State, actions: seq<Action>)
    requires UniqueIds(s.tasks) && StoreKeepsIdsAlong(s, actions)
    ensures UniqueIds(Run(s, actions).tasks)
    decreases |actions|
  {
    if actions != [] {
      ApplyKeepsUniqueIds(s, actions[0]);
      RunKeepsUniqueIds(Apply(s, actions[0]).next, actions[1..]);
    }
  }

  /** The "completed" and "pending" views split `tasks` between them: each
      task appears in exactly one, as often as it appears in `tasks`. */
  lemma ViewsPartitionTasks(s: State)
    ensures |FilteredTasks(s.(filter := "completed"))| + |FilteredTasks(s.(filter := "pending"))| == |s.tasks|
    ensures multiset(FilteredTasks(s.(filter := "completed"))) + multiset(FilteredTasks(s.(filter := "pending")))
            == multiset(s.tasks)
  {
    var done := FilteredTasks(s.(filter := "completed"));
    var open := FilteredTasks(s.(filter := "pending"));
    assert multiset(done) + multiset(open) == multiset(s.tasks) by {
      forall t: Task ensures (multiset(done) + multiset(open))[t] == multiset(s.tasks)[t] { }
    }
    assert |multiset(done) + multiset(open)| == |multiset(s.tasks)|;
  }

  /** Pressing the theme button twice restores the theme. */
  lemma ToggleDarkModeInvolution(s: State)
    ensures ToggleDarkMode(ToggleDarkMode(s)) == s
  {
  }

  /** The theme written to storage reads back as the same `darkMode`. */
  lemma ThemeRoundTrip(darkMode: bool)
    ensures Init(Some(ThemeValue(darkMode))).darkMode == darkMode
  {
  }

  /** Adding a task and then deleting it, both confirmed by the store, gives
      back the list from before, provided the store gave the new task an id
      not already in the list. With a blank draft nothing is added, and the
      delete of an id the list lacks removes nothing. */
  lemma {:induction false} AddThenRemoveRestoresTasks(s: State, created: Task)
    requires !HasId(s.tasks, created.id)
    ensures RemoveTask(AddTask(s, Ok(created)).next, created.id, Ok(())).next.tasks == s.tasks
  {
    if AllWhitespace(s.draft) {
      FilterKeepAll(s.tasks, NotId(created.id));
    } else {
      RemoveAppended(s.tasks, created);
    }
  }

  /** Toggling a task twice, each time through a store that applies the
      requested flag and keeps the text, gives back the list from before. */
  lemma {:induction false} ToggleTwiceRestoresTasks(s: State, i: nat)
    requires UniqueIds(s.tasks) && i < |s.tasks|
    ensures
      var t := s.tasks[i];
      var once := ToggleComplete(s, t.id, t.completed, Ok(Task(t.id, t.text, !t.completed))).next;
      var twice := ToggleComplete(once, t.id, !t.completed, Ok(Task(t.id, t.text, t.completed))).next;
      twice.tasks == s.tasks
  {
    var t := s.tasks[i];
    assert HasId(s.tasks, t.id);
    var once := ToggleComplete(s, t.id, t.completed, Ok(Task(t.id, t.text, !t.completed))).next;
    assert once.tasks[i] == Task(t.id, t.text, !t.completed);
    assert HasId(once.tasks, t.id);
    var twice := ToggleComplete(once, t.id, !t.completed, Ok(Task(t.id, t.text, t.completed))).next;
    forall k | 0 <= k < |s.tasks| ensures twice.tasks[k] == s.tasks[k] {
      if s.tasks[k].id == t.id {
        assert k == i;
      }
    }
  }

  /** Deleting the task under edit leaves the session open on an id that
      is no longer in `tasks`: nothing keeps `editIndex` pointing at a
      listed task. */
  lemma RemoveWhileEditingDangles(s: State, id: Id)
    requires s.editing == Some(id)
    ensures var r := RemoveTask(s, id, Ok(())).next;
            r.editing == Some(id) && !HasId(r.tasks, id)
  {
  }

  /** A concrete run reaching that dangling session from the initial state. */
  lemma RemoveWhileEditingDanglesExample()
    ensures
      var t := Task(Num(1), "A", false);
      var s := StartEditing(Init(None).(tasks := [t]), t.id, t.text);
      var r := RemoveTask(s, t.id, Ok(())).next;
      r.editing == Some(t.id) && !HasId(r.tasks, t.id) && HasId(s.tasks, t.id)
  {

  }

  /** Opening an edit while another is open switches the target: the
      earlier session leaves no trace. */
  lemma StartEditingSwitchesTarget(s: State, first: Id, firstText: string, second: Id, secondText: string)
    ensures StartEditing(StartEditing(s, first, firstText), second, secondText)
            == StartEditing(s, second, secondText)
  {
  }

  /** A blank edit box is not saved: nothing is sent, and the state,
      including the open session, stays as it was. */
  lemma BlankSaveKeepsSession(s: State, id: Id, reply: Outcome<Task>)
    requires s.editing.Some? && AllWhitespace(s.editedText)
    ensures SaveEdit(s, id, reply).sent == None && SaveEdit(s, id, reply).next == s
  {
  }

  /** Saving closes the edit session exactly when it was already closed or
      a non-blank edit was confirmed by the store; cancelling always
      closes it. */
  lemma EditSessionCloses(s: State, id: Id, reply: Outcome<Task>)
    ensures SaveEdit(s, id, reply).next.editing == None
            <==> s.editing == None || (!AllWhitespace(s.editedText) && reply.Ok?)
    ensures CancelEdit(s).editing == None
  {
  }

  /** Add "A", tick it, then show pending tasks: nothing is shown. */
  lemma AddToggleFilterScenario()
    ensures
      var a := Task(Num(1), "A", false);
      var b := Task(Num(1), "A", true);
      var s0 := SetDraft(Init(None), "A");
      var s1 := AddTask(s0, Ok(a)).next;
      var s2 := ToggleComplete(s1, Num(1), false, Ok(b)).next;
      var s3 := SetFilter(s2, "pending");
      && s1.tasks == [a]
      && s2.tasks == [b]
      && FilteredTasks(s3) == []
  {

  }
}
