/**
 * The task routes of backend/Server.js: create (personal and group), list a user's
 * tasks, list all tasks (admin), update, delete.
 */
module TaskRoutes {
  import opened Common
  import opened Seqs
  import opened Store
  import opened Authz
  import opened Hydration

  /**
   * The body of POST /api/tasks and POST /api/tasks/group. An empty string stands for a
   * field that is absent or empty (both are falsy to the handlers).
   */
  datatype TaskInput = TaskInput(
    name: string,
    description: string,
    deadline: string,
    status: string,
    category: Option<string>,
    groupId: string,
    assignedTo: Option<seq<Id>>)

  /** The document a create route writes: `status || 'In Progress'`, `assignedTo || []`. */
  function NewTask(input: TaskInput, creator: Id, groupId: Option<Id>): Task {
    Task(input.name, input.description, input.deadline,
         if input.status == "" then DefaultStatus else input.status,
         input.category, creator, groupId,
         if input.assignedTo.Some? then input.assignedTo.value else [])
  }

  /** POST /api/tasks: name, description and deadline are required; `groupId || null`. */
  function CreateTask(db: Db, requester: Id, input: TaskInput, newId: Id): (r: Result<Db>)
    requires newId !in db.tasks
    ensures r.Err? <==> input.name == "" || input.description == "" || input.deadline == ""
    ensures r.Err? ==> r.failure == MissingFields
    ensures r.Ok? ==> r.value.users == db.users && r.value.groups == db.groups
    ensures r.Ok? ==> r.value.tasks.Keys == db.tasks.Keys + {newId}
    ensures r.Ok? ==> forall id :: id in db.tasks ==> r.value.tasks[id] == db.tasks[id]
    ensures r.Ok? ==> r.value.tasks[newId].userId == requester
    ensures r.Ok? ==> (r.value.tasks[newId].groupId == None <==> input.groupId == "")
    ensures r.Ok? ==> r.value.tasks == db.tasks[newId := NewTask(input, requester, if input.groupId == "" then None else Some(input.groupId))]
  {
    if input.name == "" || input.description == "" || input.deadline == "" then
      Err(MissingFields)
    else
      var groupId := if input.groupId == "" then None else Some(input.groupId);
      Ok(db.(tasks := db.tasks[newId := NewTask(input, requester, groupId)]))
  }

  /**
   * POST /api/tasks/group: the group id is required too, the group must exist, and the
   * requester must be its owner or a member; an admin gets no bypass here.
   */
  function CreateGroupTask(db: Db, requester: Id, input: TaskInput, newId: Id): (r: Result<Db>)
    requires newId !in db.tasks
    ensures (input.name == "" || input.description == "" || input.deadline == "" || input.groupId == "")
            <==> r == Err(MissingFields)
    ensures r == Err(NotFound) <==> r != Err(MissingFields) && input.groupId !in db.groups
    ensures r.Ok? <==> r != Err(MissingFields) && input.groupId in db.groups
                       && GroupTaskAllowed(db.groups[input.groupId], requester)
    ensures r.Ok? ==> r.value.users == db.users && r.value.groups == db.groups
    ensures r.Ok? ==> r.value.tasks == db.tasks[newId := NewTask(input, requester, Some(input.groupId))]
  {
    if input.name == "" || input.description == "" || input.deadline == "" || input.groupId == "" then
      Err(MissingFields)
    else if input.groupId !in db.groups then
      Err(NotFound)
    else if !GroupTaskAllowed(db.groups[input.groupId], requester) then
      Err(Forbidden)
    else
      Ok(db.(tasks := db.tasks[newId := NewTask(input, requester, Some(input.groupId))]))
  }

  /** An admin who neither owns nor belongs to the group is refused a group task. */
  lemma AdminGetsNoGroupTaskBypass(db: Db, admin: Id, input: TaskInput, newId: Id)
    requires newId !in db.tasks
    requires IsAdmin(db.users, admin)
    requires input.name != "" && input.description != "" && input.deadline != "" && input.groupId != ""
    requires input.groupId in db.groups
    requires !IsGroupOwner(db.groups[input.groupId], admin) && !IsGroupMember(db.groups[input.groupId], admin)
    ensures CreateGroupTask(db, admin, input, newId) == Err(Forbidden)
  {
  }

  /**
   * The personal route stores any `groupId` it is given without looking at the group:
   * a requester refused by the group route still gets a task in that group.
   */
  lemma PersonalRouteSkipsGroupCheck(db: Db, requester: Id, input: TaskInput, newId: Id)
    requires newId !in db.tasks
    requires input.name != "" && input.description != "" && input.deadline != "" && input.groupId != ""
    requires input.groupId in db.groups && !GroupTaskAllowed(db.groups[input.groupId], requester)
    ensures CreateGroupTask(db, requester, input, newId) == Err(Forbidden)
    ensures CreateTask(db, requester, input, newId).Ok?
    ensures CreateTask(db, requester, input, newId).value.tasks[newId].groupId == Some(input.groupId)
  {
  }

  /** The group route keeps every group task pointing at an existing group. */
  lemma CreateGroupTaskKeepsAnchored(db: Db, requester: Id, input: TaskInput, newId: Id)
    requires newId !in db.tasks
    requires GroupTasksAnchored(db)
    requires CreateGroupTask(db, requester, input, newId).Ok?
    ensures GroupTasksAnchored(CreateGroupTask(db, requester, input, newId).value)
  {
    var after := CreateGroupTask(db, requester, input, newId).value;
    forall id | id in after.tasks && after.tasks[id].groupId.Some?
      ensures after.tasks[id].groupId.value in after.groups
    {
      if id != newId {
        assert after.tasks[id] == db.tasks[id];
      }
    }
  }

  /**
   * The personal route can break that: given a group id that does not exist it stores a
   * task pointing nowhere.
   */
  lemma CreateTaskCanOrphan(db: Db, requester: Id, input: TaskInput, newId: Id)
    requires newId !in db.tasks
    requires input.name != "" && input.description != "" && input.deadline != ""
    requires input.groupId != "" && input.groupId !in db.groups
    ensures CreateTask(db, requester, input, newId).Ok?
    ensures !GroupTasksAnchored(CreateTask(db, requester, input, newId).value)
  {
    var after := CreateTask(db, requester, input, newId).value;
    assert after.tasks[newId].groupId == Some(input.groupId);
  }

  /** The worked example: a personal task gets the default status, no assignees and its creator's id. */
  /**
   * A created personal task holds the fields of the body as given, `status || 'In Progress'`
   * and `assignedTo || []`, its creator, and `groupId || null`.
   */
  lemma CreateTaskStoresInput(db: Db, requester: Id, input: TaskInput, newId: Id)
    requires newId !in db.tasks
    requires CreateTask(db, requester, input, newId).Ok?
    ensures var t := CreateTask(db, requester, input, newId).value.tasks[newId];
      && t.name == input.name && t.description == input.description && t.deadline == input.deadline
      && t.category == input.category && t.userId == requester
      && (input.status == "" ==> t.status == DefaultStatus)
      && (input.status != "" ==> t.status == input.status)
      && (input.assignedTo == None ==> t.assignedTo == [])
      && (input.assignedTo.Some? ==> t.assignedTo == input.assignedTo.value)
      && (input.groupId == "" ==> t.groupId == None)
      && (input.groupId != "" ==> t.groupId == Some(input.groupId))
  {
  }

  lemma CreateTaskExample(db: Db, newId: Id)
    requires newId !in db.tasks
    ensures var r := CreateTask(db, "alice", TaskInput("T", "d", "2030-01-01", "", None, "", None), newId);
      r.Ok? && r.value.tasks[newId] == Task("T", "d", "2030-01-01", "In Progress", None, "alice", None, [])
  {
  }

  // ---------------------------------------------------------------------------
  // PUT /api/tasks/:taskId

  /**
   * The request body of an update: `keys` are the keys present in the JSON object, and
   * the other fields carry the values of the allow-listed keys among them.
   */
  datatype TaskBody = TaskBody(
    keys: set<string>,
    name: string,
    description: string,
    deadline: string,
    status: string,
    category: string,
    assignedTo: seq<Id>)

  /** `allowedUpdates`, in the order the handler walks it. */
  const AllowedUpdates: seq<string> := ["name_task", "description", "dead_line", "status", "category", "assignedTo"]

  /** `updateData[field] = updates[field]` for one allow-listed field. */
  function SetField(t: Task, field: string, body: TaskBody): Task {
    if field == "name_task" then t.(name := body.name)
    else if field == "description" then t.(description := body.description)
    else if field == "dead_line" then t.(deadline := body.deadline)
    else if field == "status" then t.(status := body.status)
    else if field == "category" then t.(category := Some(body.category))
    else if field == "assignedTo" then t.(assignedTo := body.assignedTo)
    else t
  }

  /** The task after the first `n` allow-listed fields have been considered. */
  ghost function PatchedUpTo(t: Task, body: TaskBody, n: nat): Task {
    var k := body.keys;
    Task(
      if n > 0 && "name_task" in k then body.name else t.name,
      if n > 1 && "description" in k then body.description else t.description,
      if n > 2 && "dead_line" in k then body.deadline else t.deadline,
      if n > 3 && "status" in k then body.status else t.status,
      if n > 4 && "category" in k then Some(body.category) else t.category,
      t.userId,
      t.groupId,
      if n > 5 && "assignedTo" in k then body.assignedTo else t.assignedTo)
  }

  /** The stored task after the update: each allow-listed field present in the body overwritten, the rest kept. */
  ghost function Patched(t: Task, body: TaskBody): Task {
    PatchedUpTo(t, body, |AllowedUpdates|)
  }

  /** The allow-list loop of the update handler. */
  method ApplyUpdates(t: Task, body: TaskBody) returns (u: Task)
    ensures u == Patched(t, body)
  {
    u := t;
    for i := 0 to |AllowedUpdates|
      invariant u == PatchedUpTo(t, body, i)
    {
      var field := AllowedUpdates[i];
      if field in body.keys {
        u := SetField(u, field, body);
      }
    }
  }

  /**
   * PUT /api/tasks/:taskId: 404 for a missing task before anything else, 403 unless the
   * permission rules allow the body, otherwise the allow-listed fields are written.
   */
  method UpdateTask(db: Db, requester: Id, taskId: Id, body: TaskBody) returns (r: Result<Db>)
    ensures taskId !in db.tasks ==> r == Err(NotFound)
    ensures taskId in db.tasks && !UpdateAllowed(db.users, db.tasks[taskId], requester, body.keys)
            ==> r == Err(Forbidden)
    ensures taskId in db.tasks && UpdateAllowed(db.users, db.tasks[taskId], requester, body.keys)
            ==> r == Ok(db.(tasks := db.tasks[taskId := Patched(db.tasks[taskId], body)]))
  {
    if taskId !in db.tasks {
      return Err(NotFound);
    }
    var t := db.tasks[taskId];
    var isCreator := t.userId == requester;
    var isAssigned := requester in t.assignedTo;
    var isAdmin := requester in db.users && db.users[requester].role == "admin";
    if !isCreator && !isAssigned && !isAdmin {
      return Err(Forbidden);
    }
    if !isAdmin && !isCreator && isAssigned {
      if |body.keys| > 1 || "status" !in body.keys {
        return Err(Forbidden);
      }
    }
    var updated := ApplyUpdates(t, body);
    r := Ok(db.(tasks := db.tasks[taskId := updated]));
  }

  /** Keys outside the allow-list have no effect. */
  lemma UnlistedKeysIgnored(t: Task, body: TaskBody)
    ensures Patched(t, body) == Patched(t, body.(keys := body.keys * (set f | f in AllowedUpdates)))
  {
  }

  /** A body with only `status` changes the status and nothing else. */
  lemma StatusOnlyBody(t: Task, body: TaskBody)
    requires body.keys == {"status"}
    ensures Patched(t, body) == t.(status := body.status)
  {
  }

  /** Applying the same body twice is the same as applying it once. */
  lemma PatchIdempotent(t: Task, body: TaskBody)
    ensures Patched(Patched(t, body), body) == Patched(t, body)
  {
  }

  /** The creator and the group of a task are never rewritten by an update. */
  lemma PatchKeepsOwnership(t: Task, body: TaskBody)
    ensures Patched(t, body).userId == t.userId && Patched(t, body).groupId == t.groupId
  {
  }

  /**
   * An assignee who is neither creator nor admin may set the status and nothing else:
   * the update goes through exactly for the body `{status}`, and then changes only the status.
   */
  lemma AssigneeMayOnlySetStatus(users: map<Id, User>, t: Task, uid: Id, body: TaskBody)
    requires IsAssignee(t, uid) && !IsCreator(t, uid) && !IsAdmin(users, uid)
    ensures UpdateAllowed(users, t, uid, body.keys) <==> body.keys == {"status"}
    ensures UpdateAllowed(users, t, uid, body.keys) ==> Patched(t, body) == t.(status := body.status)
  {
    UpdateAllowedCases(users, t, uid, body.keys);
  }

  /** Someone who is none of creator, assignee and admin is refused whatever the body. */
  lemma OutsiderMayNotUpdate(users: map<Id, User>, t: Task, uid: Id, keys: set<string>)
    requires !IsAssignee(t, uid) && !IsCreator(t, uid) && !IsAdmin(users, uid)
    ensures !UpdateAllowed(users, t, uid, keys)
  {
  }

  // ---------------------------------------------------------------------------
  // DELETE /api/tasks/:taskId

  /** 404 for a missing task before any permission check; otherwise creator or admin only. */
  function DeleteTask(db: Db, requester: Id, taskId: Id): (r: Result<Db>)
    ensures taskId !in db.tasks ==> r == Err(NotFound)
    ensures taskId in db.tasks ==> (r.Ok? <==> DeleteAllowed(db.users, db.tasks[taskId], requester))
    ensures r.Err? ==> r.failure == NotFound || r.failure == Forbidden
    ensures r.Ok? ==> r.value == db.(tasks := db.tasks - {taskId})
  {
    if taskId !in db.tasks then Err(NotFound)
    else if !DeleteAllowed(db.users, db.tasks[taskId], requester) then Err(Forbidden)
    else Ok(db.(tasks := db.tasks - {taskId}))
  }

  /** A requester with no user document is never treated as admin: only the creator passes. */
  lemma UnknownRequesterDeletesOnlyOwn(db: Db, requester: Id, taskId: Id)
    requires requester !in db.users && taskId in db.tasks
    ensures DeleteTask(db, requester, taskId).Ok? <==> db.tasks[taskId].userId == requester
  {
  }

  // ---------------------------------------------------------------------------
  // GET /api/tasks/:userId

  /** The snapshot of `where('userId', '==', u)`, in the store's enumeration order. */
  function CreatedBy(tasks: map<Id, Task>, order: seq<Id>, u: Id): seq<Id> {
    Keep(order, set id | id in tasks && tasks[id].userId == u)
  }

  /** The snapshot of `where('assignedTo', 'array-contains', u)`. */
  function AssignedTo(tasks: map<Id, Task>, order: seq<Id>, u: Id): seq<Id> {
    Keep(order, set id | id in tasks && u in tasks[id].assignedTo)
  }

  /** What the user-tasks route lists, as ids: created first, then assigned. */
  function UserTaskIds(tasks: map<Id, Task>, order: seq<Id>, u: Id): seq<Id> {
    Merged(CreatedBy(tasks, order, u), AssignedTo(tasks, order, u))
  }

  /**
   * The user-tasks listing holds no task twice, lists exactly the tasks the user created
   * or is assigned to, and puts the created ones first.
   */
  lemma UserTaskIdsSpec(tasks: map<Id, Task>, order: seq<Id>, u: Id)
    requires Enumerates(order, tasks.Keys)
    ensures NoDup(UserTaskIds(tasks, order, u))
    ensures forall id :: id in UserTaskIds(tasks, order, u) <==>
              id in tasks && (tasks[id].userId == u || u in tasks[id].assignedTo)
    ensures UserTaskIds(tasks, order, u)[..|CreatedBy(tasks, order, u)|] == CreatedBy(tasks, order, u)
  {
    KeepNoDup(order, set id | id in tasks && tasks[id].userId == u);
    KeepNoDup(order, set id | id in tasks && u in tasks[id].assignedTo);
    MergedUnion(CreatedBy(tasks, order, u), AssignedTo(tasks, order, u));
  }

  /** A user-tasks entry as the route returns it: assignees hydrated, creator and group raw. */
  ghost function UserTaskView(db: Db, id: Id): TaskResponse
    requires id in db.tasks
  {
    var t := db.tasks[id];
    RawTask(id, t).(assignedTo := Resolve(t.assignedTo, UserIndex(db.users)))
  }

  /** Every assignee id of the listed tasks, in order (the `userIds` set is filled from these). */
  function AssigneePool(rs: seq<TaskResponse>): (pool: seq<Id>)
    ensures forall k, id :: 0 <= k < |rs| && id in rs[k].task.assignedTo ==> id in pool
  {
    if rs == [] then [] else rs[0].task.assignedTo + AssigneePool(rs[1..])
  }

  /** Collect the assignee ids, fetch their summaries in chunks, replace each `assignedTo`. */
  method HydrateAssignees(users: map<Id, User>, raw: seq<TaskResponse>) returns (out: seq<TaskResponse>)
    ensures |out| == |raw|
    ensures forall k :: 0 <= k < |raw| ==>
              out[k] == raw[k].(assignedTo := Resolve(raw[k].task.assignedTo, UserIndex(users)))
  {
    var ids := Distinct(AssigneePool(raw));
    var userMap := FetchSummaries(users, ids, SummarizeUser);
    out := raw;
    for k := 0 to |out|
      invariant |out| == |raw|
      invariant forall j :: 0 <= j < k ==>
                  out[j] == raw[j].(assignedTo := Resolve(raw[j].task.assignedTo, UserIndex(users)))
      invariant forall j :: k <= j < |out| ==> out[j] == raw[j]
    {
      ResolveFetched(users, (set id | id in ids), raw[k].task.assignedTo, SummarizeUser);
      out := out[k := out[k].(assignedTo := Resolve(out[k].task.assignedTo, userMap))];
    }
  }

  /**
   * GET /api/tasks/:userId: only the user themselves (403 otherwise, no admin override);
   * the answer is their created tasks, then their assigned ones, assignees hydrated.
   */
  method ListUserTasks(db: Db, requester: Id, userId: Id, order: seq<Id>)
    returns (r: Result<seq<TaskResponse>>)
    requires Enumerates(order, db.tasks.Keys)
    ensures requester != userId ==> r == Err(Forbidden)
    ensures requester == userId ==> r.Ok?
    ensures r.Ok? ==> |r.value| == |UserTaskIds(db.tasks, order, userId)|
    ensures r.Ok? ==> forall k :: 0 <= k < |r.value| ==>
              UserTaskIds(db.tasks, order, userId)[k] in db.tasks &&
              r.value[k] == UserTaskView(db, UserTaskIds(db.tasks, order, userId)[k])
  {
    if requester != userId {
      return Err(Forbidden);
    }
    var created := CreatedBy(db.tasks, order, userId);
    var assignees := AssignedTo(db.tasks, order, userId);
    var ids := MergeSnapshots(created, assignees);
    UserTaskIdsSpec(db.tasks, order, userId);
    var raw := seq(|ids|, k requires 0 <= k < |ids| => RawTask(ids[k], db.tasks[ids[k]]));
    var hydrated := HydrateAssignees(db.users, raw);
    r := Ok(hydrated);
  }

  // ---------------------------------------------------------------------------
  // GET /api/tasks (admin)

  /** Every id the admin listing looks up as a user: each creator (when set), then each assignee. */
  function TaskUserPool(rs: seq<TaskResponse>): (pool: seq<Id>)
    ensures forall k :: 0 <= k < |rs| && rs[k].task.userId != "" ==> rs[k].task.userId in pool
    ensures forall k, id :: 0 <= k < |rs| && id in rs[k].task.assignedTo ==> id in pool
  {
    if rs == [] then []
    else (if rs[0].task.userId != "" then [rs[0].task.userId] else []) + rs[0].task.assignedTo + TaskUserPool(rs[1..])
  }

  /** Every group id the admin listing looks up. */
  function TaskGroupPool(rs: seq<TaskResponse>): (pool: seq<Id>)
    ensures forall k :: 0 <= k < |rs| && rs[k].task.groupId.Some? && rs[k].task.groupId.value != ""
              ==> rs[k].task.groupId.value in pool
  {
    if rs == [] then []
    else (if rs[0].task.groupId.Some? && rs[0].task.groupId.value != "" then [rs[0].task.groupId.value] else [])
         + TaskGroupPool(rs[1..])
  }

  /** An admin-listing entry: creator, group and assignees each replaced by their summary when one exists. */
  ghost function AdminTaskView(db: Db, id: Id): TaskResponse
    requires id in db.tasks
  {
    var t := db.tasks[id];
    TaskResponse(
      id, t,
      if t.userId != "" then Lookup(t.userId, UserIndex(db.users)) else Raw(t.userId),
      if t.groupId.Some? then Some(if t.groupId.value != "" then Lookup(t.groupId.value, GroupIndex(db.groups)) else Raw(t.groupId.value)) else None,
      Resolve(t.assignedTo, UserIndex(db.users)))
  }

  /** The replacement step of the admin listing, for one task. */
  function HydrateTask(r: TaskResponse, userMap: map<Id, UserSummary>, groupMap: map<Id, GroupSummary>): TaskResponse {
    var t := r.task;
    r.(owner := if t.userId != "" && t.userId in userMap then Resolved(userMap[t.userId]) else r.owner,
       group := if t.groupId.Some? && t.groupId.value != "" && t.groupId.value in groupMap
                then Some(Resolved(groupMap[t.groupId.value])) else r.group,
       assignedTo := Resolve(t.assignedTo, userMap))
  }

  /** With maps fetched for every id the task mentions, the replacement step yields the admin view. */
  lemma HydrateTaskFetched(db: Db, id: Id, userWanted: set<Id>, groupWanted: set<Id>)
    requires id in db.tasks
    requires db.tasks[id].userId != "" ==> db.tasks[id].userId in userWanted
    requires forall u :: u in db.tasks[id].assignedTo ==> u in userWanted
    requires db.tasks[id].groupId.Some? && db.tasks[id].groupId.value != "" ==> db.tasks[id].groupId.value in groupWanted
    ensures HydrateTask(RawTask(id, db.tasks[id]), Directory(db.users, userWanted, SummarizeUser),
                        Directory(db.groups, groupWanted, SummarizeGroup)) == AdminTaskView(db, id)
  {
    ResolveFetched(db.users, userWanted, db.tasks[id].assignedTo, SummarizeUser);
  }

  /** GET /api/tasks: admins only; every task, with its references hydrated. */
  method ListAllTasks(db: Db, requester: Id, order: seq<Id>) returns (r: Result<seq<TaskResponse>>)
    requires Enumerates(order, db.tasks.Keys)
    ensures !IsAdmin(db.users, requester) ==> r == Err(Forbidden)
    ensures IsAdmin(db.users, requester) ==> r.Ok?
    ensures r.Ok? ==> |r.value| == |order|
    ensures r.Ok? ==> forall k :: 0 <= k < |order| ==> order[k] in db.tasks && r.value[k] == AdminTaskView(db, order[k])
  {
    if !(requester in db.users && db.users[requester].role == "admin") {
      return Err(Forbidden);
    }
    var raw := seq(|order|, k requires 0 <= k < |order| => RawTask(order[k], db.tasks[order[k]]));
    var userIds := Distinct(TaskUserPool(raw));
    var groupIds := Distinct(TaskGroupPool(raw));
    var userMap := FetchSummaries(db.users, userIds, SummarizeUser);
    var groupMap := FetchSummaries(db.groups, groupIds, SummarizeGroup);
    var out := raw;
    for k := 0 to |out|
      invariant |out| == |raw|
      invariant forall j :: 0 <= j < k ==> out[j] == AdminTaskView(db, order[j])
      invariant forall j :: k <= j < |out| ==> out[j] == raw[j]
    {
      assert raw[k] == RawTask(order[k], db.tasks[order[k]]);
      HydrateTaskFetched(db, order[k], (set id | id in userIds), (set id | id in groupIds));
      out := out[k := HydrateTask(out[k], userMap, groupMap)];
    }
    r := Ok(out);
  }
}
