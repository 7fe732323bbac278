/**
 * The task views and counters of src/Pages/Dashboard/Dashboardpage.jsx, over the
 * answers of the user-tasks and user-groups routes.
 */
module Dashboard {
  import opened Common
  import opened Store
  import opened Hydration
  import opened TaskRoutes
  import opened Kanban

  /** `!task.groupId`: no group, or an empty group id. A hydrated group object is truthy. */
  predicate IsPersonal(t: TaskResponse) {
    t.group.None? || t.group == Some(Raw(""))
  }

  /** `task.groupId === view`: strict equality holds only for a raw id. */
  predicate InGroup(t: TaskResponse, view: string) {
    t.group == Some(Raw(view))
  }

  function PersonalTasks(ts: seq<TaskResponse>): (r: seq<TaskResponse>)
    ensures forall t :: t in r <==> t in ts && IsPersonal(t)
    ensures |r| <= |ts|
  {
    if ts == [] then [] else (if IsPersonal(ts[0]) then [ts[0]] else []) + PersonalTasks(ts[1..])
  }

  function GroupTasks(ts: seq<TaskResponse>, view: string): (r: seq<TaskResponse>)
    ensures forall t :: t in r <==> t in ts && InGroup(t, view)
    ensures |r| <= |ts|
  {
    if ts == [] then [] else (if InGroup(ts[0], view) then [ts[0]] else []) + GroupTasks(ts[1..], view)
  }

  /** `getFilteredTasks`: "all" unchanged, "personal" the tasks without a group, any other value one group's tasks. */
  function FilteredTasks(ts: seq<TaskResponse>, view: string): (r: seq<TaskResponse>)
    ensures view == "all" ==> r == ts
    ensures view == "personal" ==> forall t :: t in r <==> t in ts && IsPersonal(t)
    ensures view != "all" && view != "personal" ==> forall t :: t in r <==> t in ts && InGroup(t, view)
    ensures |r| <= |ts|
  {
    if view == "all" then ts
    else if view == "personal" then PersonalTasks(ts)
    else GroupTasks(ts, view)
  }

  /** Filtering keeps the listing order: it distributes over concatenation. */
  lemma {:induction false} FilteredTasksAppend(a: seq<TaskResponse>, b: seq<TaskResponse>, view: string)
    ensures FilteredTasks(a + b, view) == FilteredTasks(a, view) + FilteredTasks(b, view)
  {
    if view != "all" && a != [] {
      assert (a + b)[0] == a[0] && (a + b)[1..] == a[1..] + b;
      FilteredTasksAppend(a[1..], b, view);
    } else if a == [] {
      assert a + b == b;
    }
  }

  /**
   * On the user-tasks listing, whose group references stay raw, "personal" means the
   * stored task has no group or an empty group id, and a group view means that group.
   */
  lemma ViewsMatchStore(db: Db, id: Id, view: string)
    requires id in db.tasks
    ensures IsPersonal(UserTaskView(db, id)) <==> db.tasks[id].groupId.None? || db.tasks[id].groupId == Some("")
    ensures InGroup(UserTaskView(db, id), view) <==> db.tasks[id].groupId == Some(view)
  {
  }

  /** The counters of the dashboard header. */
  datatype Stats = Stats(totalTasks: nat, completedTasks: nat, pendingTasks: nat, groups: nat)

  function CountDone(ts: seq<TaskResponse>): (n: nat)
    ensures n <= |ts|
  {
    if ts == [] then 0 else (if ts[0].task.status == "Done" then 1 else 0) + CountDone(ts[1..])
  }

  function CountNotDone(ts: seq<TaskResponse>): (n: nat)
    ensures n <= |ts|
  {
    if ts == [] then 0 else (if ts[0].task.status != "Done" then 1 else 0) + CountNotDone(ts[1..])
  }

  /** Every task is either done or pending. */
  lemma {:induction false} DonePlusPending(ts: seq<TaskResponse>)
    ensures CountDone(ts) + CountNotDone(ts) == |ts|
  {
    if ts != [] {
      DonePlusPending(ts[1..]);
    }
  }

  /**
   * The completed counter equals the number of cards the Kanban shows in its Done column
   * for the same tasks, and the pending counter the rest.
   */
  lemma {:induction false} CompletedIsDoneColumn(ts: seq<TaskResponse>)
    ensures CountDone(ts) == |WithStatus(ts, "Done")|
    ensures CountNotDone(ts) == |ts| - |WithStatus(ts, "Done")|
  {
    if ts != [] {
      CompletedIsDoneColumn(ts[1..]);
    }
  }

  /**
   * The stats computed in `fetchData`. `groupsData` is the raw answer, where `None` is a
   * null entry; the group counter counts it unfiltered.
   */
  function ComputeStats(ts: seq<TaskResponse>, groupsData: seq<Option<GroupResponse>>): (s: Stats)
    ensures s.completedTasks + s.pendingTasks == s.totalTasks == |ts|
    ensures s.groups == |groupsData|
  {
    DonePlusPending(ts);
    Stats(|ts|, CountDone(ts), CountNotDone(ts), |groupsData|)
  }

  /** `groupsData.filter(g => g)`: the group cards shown. */
  function VisibleGroups(groupsData: seq<Option<GroupResponse>>): (gs: seq<GroupResponse>)
    ensures forall g :: g in gs <==> Some(g) in groupsData
    ensures |gs| <= |groupsData|
  {
    if groupsData == [] then []
    else (if groupsData[0].Some? then [groupsData[0].value] else []) + VisibleGroups(groupsData[1..])
  }

  /**
   * A property of the page on an input this server does not produce: the user-groups
   * route never answers with a null entry, but if `groupsData` held one, the group
   * counter would count it while no card shows it.
   */
  lemma GroupCountIncludesNulls(ts: seq<TaskResponse>, g: GroupResponse)
    ensures var data := [Some(g), None];
      ComputeStats(ts, data).groups == 2 && |VisibleGroups(data)| == 1
  {
    var data := [Some(g), None];
    assert data[1..] == [None];
    assert VisibleGroups([None]) == [];
  }
}
