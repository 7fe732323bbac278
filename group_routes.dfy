/**
 * The group routes of backend/Server.js: create, list a user's groups, list all groups
 * (admin), update, add a member, remove a member, delete with its task cascade.
 */
module GroupRoutes {
  import opened Common
  import opened Seqs
  import opened Store
  import opened Authz
  import opened Hydration

  /**
   * POST /api/groups: the name is required; the requester becomes the owner; the member
   * list is the body's `user` when it is an array, otherwise empty.
   */
  function CreateGroup(db: Db, requester: Id, name: string, user: Option<seq<Id>>, newId: Id): (r: Result<Db>)
    requires newId !in db.groups
    ensures r.Err? <==> name == ""
    ensures r.Err? ==> r.failure == MissingFields
    ensures r.Ok? ==> r.value.users == db.users && r.value.tasks == db.tasks
    ensures r.Ok? ==> r.value.groups.Keys == db.groups.Keys + {newId}
    ensures r.Ok? ==> forall id :: id in db.groups ==> r.value.groups[id] == db.groups[id]
    ensures r.Ok? ==> IsGroupOwner(r.value.groups[newId], requester) && r.value.groups[newId].name == name
    ensures r.Ok? ==> r.value.groups[newId].members == (if user.Some? then user.value else [])
  {
    if name == "" then Err(MissingFields)
    else Ok(db.(groups := db.groups[newId := Group(name, requester, if user.Some? then user.value else [])]))
  }

  /** Whoever creates a group may then add tasks to it. */
  lemma CreatorMayAddGroupTasks(db: Db, requester: Id, name: string, user: Option<seq<Id>>, newId: Id)
    requires newId !in db.groups && name != ""
    ensures CreateGroup(db, requester, name, user, newId).Ok?
    ensures GroupTaskAllowed(CreateGroup(db, requester, name, user, newId).value.groups[newId], requester)
  {
  }

  /**
   * PUT /api/groups/:groupId: 404 for a missing group, 403 unless owner or admin; a
   * non-empty name and an array `user` replace the stored ones. The list is not de-duplicated.
   */
  function UpdateGroup(db: Db, requester: Id, groupId: Id, name: string, user: Option<seq<Id>>): (r: Result<Db>)
    ensures groupId !in db.groups <==> r == Err(NotFound)
    ensures r.Ok? <==> groupId in db.groups && ManagesGroup(db.users, db.groups[groupId], requester)
    ensures r.Ok? ==> r.value.users == db.users && r.value.tasks == db.tasks
    ensures r.Ok? ==> r.value.groups.Keys == db.groups.Keys
    ensures r.Ok? ==> forall id :: id in db.groups && id != groupId ==> r.value.groups[id] == db.groups[id]
    ensures r.Ok? ==> var before, after := db.groups[groupId], r.value.groups[groupId];
      after.ownerId == before.ownerId
      && after.name == (if name == "" then before.name else name)
      && after.members == (if user.Some? then user.value else before.members)
  {
    if groupId !in db.groups then Err(NotFound)
    else
      var g := db.groups[groupId];
      if !ManagesGroup(db.users, g, requester) then Err(Forbidden)
      else
        var g1 := if name != "" then g.(name := name) else g;
        var g2 := if user.Some? then g1.(members := user.value) else g1;
        Ok(db.(groups := db.groups[groupId := g2]))
  }

  /** The update route, unlike the add-member route, can store a member twice. */
  lemma UpdateGroupCanDuplicateMembers()
    ensures var db := Db(map[], map[], map["g" := Group("G", "o", [])]);
      var r := UpdateGroup(db, "o", "g", "", Some(["u", "u"]));
      r.Ok? && !NoDup(r.value.groups["g"].members)
  {
    var db := Db(map[], map[], map["g" := Group("G", "o", [])]);
    var after := UpdateGroup(db, "o", "g", "", Some(["u", "u"])).value.groups["g"];
    assert after.members[0] == after.members[1];
  }

  /**
   * POST /api/groups/:groupId/users: 400 without a user id (checked first), 404 for a
   * missing group, 403 unless owner or admin, 400 if already a member; otherwise the id
   * is appended. The id is not checked against the users collection.
   */
  function AddMember(db: Db, requester: Id, groupId: Id, userId: Id): (r: Result<Db>)
    ensures userId == "" <==> r == Err(MissingFields)
    ensures r == Err(NotFound) <==> userId != "" && groupId !in db.groups
    ensures r == Err(Forbidden) <==> userId != "" && groupId in db.groups
                                     && !ManagesGroup(db.users, db.groups[groupId], requester)
    ensures r == Err(AlreadyMember) <==> userId != "" && groupId in db.groups
                                         && ManagesGroup(db.users, db.groups[groupId], requester)
                                         && IsGroupMember(db.groups[groupId], userId)
    ensures r.Ok? ==> r.value.users == db.users && r.value.tasks == db.tasks
    ensures r.Ok? ==> r.value.groups == db.groups[groupId := db.groups[groupId].(members := db.groups[groupId].members + [userId])]
  {
    if userId == "" then Err(MissingFields)
    else if groupId !in db.groups then Err(NotFound)
    else
      var g := db.groups[groupId];
      if !ManagesGroup(db.users, g, requester) then Err(Forbidden)
      else if userId in g.members then Err(AlreadyMember)
      else Ok(db.(groups := db.groups[groupId := g.(members := g.members + [userId])]))
  }

  /**
   * DELETE /api/groups/:groupId/users/:userId: 404 for a missing group, 403 unless owner,
   * admin or the member leaving by themselves, 400 for a non-member; otherwise every
   * occurrence of the id is filtered out, the rest in order.
   */
  function RemoveMember(db: Db, requester: Id, groupId: Id, target: Id): (r: Result<Db>)
    ensures groupId !in db.groups <==> r == Err(NotFound)
    ensures r == Err(Forbidden) <==> groupId in db.groups && !RemoveAllowed(db.users, db.groups[groupId], requester, target)
    ensures r == Err(NotMember) <==> groupId in db.groups && RemoveAllowed(db.users, db.groups[groupId], requester, target)
                                     && !IsGroupMember(db.groups[groupId], target)
    ensures r.Ok? ==> r.value.users == db.users && r.value.tasks == db.tasks
    ensures r.Ok? ==> r.value.groups.Keys == db.groups.Keys
    ensures r.Ok? ==> forall id :: id in db.groups && id != groupId ==> r.value.groups[id] == db.groups[id]
    ensures r.Ok? ==> var before, after := db.groups[groupId], r.value.groups[groupId];
      after.name == before.name && after.ownerId == before.ownerId
      && (forall m :: m in after.members <==> m in before.members && m != target)
  {
    if groupId !in db.groups then Err(NotFound)
    else
      var g := db.groups[groupId];
      if !RemoveAllowed(db.users, g, requester, target) then Err(Forbidden)
      else if target !in g.members then Err(NotMember)
      else Ok(db.(groups := db.groups[groupId := g.(members := Without(g.members, target))]))
  }

  /** Every group lists each member once. */
  ghost predicate MembersDistinct(groups: map<Id, Group>) {
    forall id :: id in groups ==> NoDup(groups[id].members)
  }

  lemma AddMemberKeepsMembersDistinct(db: Db, requester: Id, groupId: Id, userId: Id)
    requires MembersDistinct(db.groups) && AddMember(db, requester, groupId, userId).Ok?
    ensures MembersDistinct(AddMember(db, requester, groupId, userId).value.groups)
  {
    var s := db.groups[groupId].members;
    assert NoDup(s + [userId]) by {
      forall i, j | 0 <= i < j < |s + [userId]| ensures (s + [userId])[i] != (s + [userId])[j] {
        if j == |s| {
          assert (s + [userId])[i] == s[i];
        }
      }
    }
  }

  lemma RemoveMemberKeepsMembersDistinct(db: Db, requester: Id, groupId: Id, target: Id)
    requires MembersDistinct(db.groups) && RemoveMember(db, requester, groupId, target).Ok?
    ensures MembersDistinct(RemoveMember(db, requester, groupId, target).value.groups)
  {
    WithoutNoDup(db.groups[groupId].members, target);
  }

  /** Removing a member keeps the other members in their order: the filter splits over concatenation. */
  lemma RemoveMemberKeepsOrder(db: Db, requester: Id, groupId: Id, target: Id, before: seq<Id>, m: Id, after: seq<Id>)
    requires RemoveMember(db, requester, groupId, target).Ok?
    requires db.groups[groupId].members == before + [m] + after && m != target
    ensures RemoveMember(db, requester, groupId, target).value.groups[groupId].members
            == Without(before, target) + [m] + Without(after, target)
  {
    WithoutAppend(before + [m], after, target);
    WithoutAppend(before, [m], target);
    assert Without([m], target) == [m];
  }

  /**
   * Adding a member and then having the owner remove them gives back the store as it
   * was: the append and the filter undo each other.
   */
  lemma AddThenRemoveRoundTrip(db: Db, owner: Id, groupId: Id, userId: Id)
    requires AddMember(db, owner, groupId, userId).Ok? && IsGroupOwner(db.groups[groupId], owner)
    ensures RemoveMember(AddMember(db, owner, groupId, userId).value, owner, groupId, userId) == Ok(db)
  {
    var g := db.groups[groupId];
    AppendThenWithout(g.members, userId);
    var mid := AddMember(db, owner, groupId, userId).value;
    assert mid.groups[groupId].members == g.members + [userId];
    assert mid.groups[groupId := g] == db.groups;
  }

  /** A member may always leave a group by themselves, whoever owns it. */
  lemma MemberMayLeave(db: Db, groupId: Id, uid: Id)
    requires groupId in db.groups && IsGroupMember(db.groups[groupId], uid)
    ensures RemoveMember(db, uid, groupId, uid).Ok?
  {
  }

  /** An ordinary member may not add others. */
  lemma MemberMayNotAdd(db: Db, groupId: Id, uid: Id, userId: Id)
    requires userId != "" && groupId in db.groups
    requires !IsGroupOwner(db.groups[groupId], uid) && !IsAdmin(db.users, uid)
    ensures AddMember(db, uid, groupId, userId) == Err(Forbidden)
  {
  }

  // ---------------------------------------------------------------------------
  // DELETE /api/groups/:groupId

  /** The store after the batch of the delete-group route has committed. */
  ghost function AfterGroupDeleted(db: Db, groupId: Id): Db {
    Db(db.users,
       db.tasks - (set id | id in db.tasks && db.tasks[id].groupId == Some(groupId)),
       db.groups - {groupId})
  }

  /**
   * 404 for a missing group, 403 unless owner or admin; otherwise one batch deletes every
   * task of the `where('groupId', '==', groupId)` snapshot and then the group.
   */
  method DeleteGroup(db: Db, requester: Id, groupId: Id, taskOrder: seq<Id>) returns (r: Result<Db>)
    requires Enumerates(taskOrder, db.tasks.Keys)
    ensures groupId !in db.groups ==> r == Err(NotFound)
    ensures groupId in db.groups && !ManagesGroup(db.users, db.groups[groupId], requester) ==> r == Err(Forbidden)
    ensures groupId in db.groups && ManagesGroup(db.users, db.groups[groupId], requester)
            ==> r == Ok(AfterGroupDeleted(db, groupId))
  {
    if groupId !in db.groups {
      return Err(NotFound);
    }
    var g := db.groups[groupId];
    var isOwner := g.ownerId == requester;
    var isAdmin := requester in db.users && db.users[requester].role == "admin";
    if !isOwner && !isAdmin {
      return Err(Forbidden);
    }
    var snap := Keep(taskOrder, set id | id in db.tasks && db.tasks[id].groupId == Some(groupId));
    var tasks := DeleteKeys(db.tasks, snap);
    assert (set id | id in snap) == (set id | id in db.tasks && db.tasks[id].groupId == Some(groupId));
    r := Ok(db.(tasks := tasks, groups := db.groups - {groupId}));
  }

  /** After the cascade no task points at the deleted group, and every other task is kept. */
  lemma AfterGroupDeletedSpec(db: Db, groupId: Id)
    ensures var after := AfterGroupDeleted(db, groupId);
      groupId !in after.groups
      && (forall id :: id in after.tasks ==> after.tasks[id].groupId != Some(groupId))
      && (forall id :: id in db.tasks && db.tasks[id].groupId != Some(groupId) ==> id in after.tasks && after.tasks[id] == db.tasks[id])
  {
  }

  /** The cascade keeps every remaining group task pointing at an existing group. */
  lemma DeleteGroupKeepsAnchored(db: Db, groupId: Id)
    requires GroupTasksAnchored(db)
    ensures GroupTasksAnchored(AfterGroupDeleted(db, groupId))
  {
    var after := AfterGroupDeleted(db, groupId);
    forall id | id in after.tasks && after.tasks[id].groupId.Some?
      ensures after.tasks[id].groupId.value in after.groups
    {
      assert after.tasks[id] == db.tasks[id];
    }
  }

  // ---------------------------------------------------------------------------
  // GET /api/groups/:userId

  /** The snapshot of `where('ownerId', '==', u)`. */
  function OwnedBy(groups: map<Id, Group>, order: seq<Id>, u: Id): seq<Id> {
    Keep(order, set id | id in groups && groups[id].ownerId == u)
  }

  /** The snapshot of `where('user', 'array-contains', u)`. */
  function MemberOf(groups: map<Id, Group>, order: seq<Id>, u: Id): seq<Id> {
    Keep(order, set id | id in groups && u in groups[id].members)
  }

  /** What the user-groups route lists, as ids: owned first, then the others the user belongs to. */
  function UserGroupIds(groups: map<Id, Group>, order: seq<Id>, u: Id): seq<Id> {
    Merged(OwnedBy(groups, order, u), MemberOf(groups, order, u))
  }

  /** The user-groups listing holds no group twice and exactly the groups the user owns or belongs to. */
  lemma UserGroupIdsSpec(groups: map<Id, Group>, order: seq<Id>, u: Id)
    requires Enumerates(order, groups.Keys)
    ensures NoDup(UserGroupIds(groups, order, u))
    ensures forall id :: id in UserGroupIds(groups, order, u) <==>
              id in groups && (IsGroupOwner(groups[id], u) || IsGroupMember(groups[id], u))
    ensures UserGroupIds(groups, order, u)[..|OwnedBy(groups, order, u)|] == OwnedBy(groups, order, u)
  {
    KeepNoDup(order, set id | id in groups && groups[id].ownerId == u);
    KeepNoDup(order, set id | id in groups && u in groups[id].members);
    MergedUnion(OwnedBy(groups, order, u), MemberOf(groups, order, u));
  }

  /** A user-groups entry as the route returns it: members hydrated, owner raw. */
  ghost function UserGroupView(db: Db, id: Id): GroupResponse
    requires id in db.groups
  {
    var g := db.groups[id];
    RawGroup(id, g).(members := Resolve(g.members, UserIndex(db.users)))
  }

  /** Every member id of the listed groups, in order. */
  function MemberPool(rs: seq<GroupResponse>): (pool: seq<Id>)
    ensures forall k, id :: 0 <= k < |rs| && id in rs[k].group.members ==> id in pool
  {
    if rs == [] then [] else rs[0].group.members + MemberPool(rs[1..])
  }

  /**
   * GET /api/groups/:userId: only the user themselves (403 otherwise); owned groups,
   * then the groups they belong to, with member lists hydrated.
   */
  method ListUserGroups(db: Db, requester: Id, userId: Id, order: seq<Id>) returns (r: Result<seq<GroupResponse>>)
    requires Enumerates(order, db.groups.Keys)
    ensures requester != userId ==> r == Err(Forbidden)
    ensures requester == userId ==> r.Ok?
    ensures r.Ok? ==> |r.value| == |UserGroupIds(db.groups, order, userId)|
    ensures r.Ok? ==> forall k :: 0 <= k < |r.value| ==>
              UserGroupIds(db.groups, order, userId)[k] in db.groups &&
              r.value[k] == UserGroupView(db, UserGroupIds(db.groups, order, userId)[k])
  {
    if requester != userId {
      return Err(Forbidden);
    }
    var owned := OwnedBy(db.groups, order, userId);
    var member := MemberOf(db.groups, order, userId);
    var ids := MergeSnapshots(owned, member);
    UserGroupIdsSpec(db.groups, order, userId);
    var raw := seq(|ids|, k requires 0 <= k < |ids| => RawGroup(ids[k], db.groups[ids[k]]));
    var userIds := Distinct(MemberPool(raw));
    var userMap := FetchSummaries(db.users, userIds, SummarizeUser);
    var out := raw;
    for k := 0 to |out|
      invariant |out| == |raw|
      invariant forall j :: 0 <= j < k ==> out[j] == UserGroupView(db, ids[j])
      invariant forall j :: k <= j < |out| ==> out[j] == raw[j]
    {
      ResolveFetched(db.users, (set id | id in userIds), raw[k].group.members, SummarizeUser);
      out := out[k := out[k].(members := Resolve(out[k].group.members, userMap))];
    }
    r := Ok(out);
  }

  // ---------------------------------------------------------------------------
  // GET /api/groups (admin)

  /** An admin-listing entry: owner and members replaced by their summaries when they exist. */
  ghost function AdminGroupView(db: Db, id: Id): GroupResponse
    requires id in db.groups
  {
    var g := db.groups[id];
    GroupResponse(id, g,
      if g.ownerId != "" then Lookup(g.ownerId, UserIndex(db.users)) else Raw(g.ownerId),
      Resolve(g.members, UserIndex(db.users)))
  }

  /** Every id the admin listing looks up: each owner (when set), then each member. */
  function GroupUserPool(rs: seq<GroupResponse>): (pool: seq<Id>)
    ensures forall k :: 0 <= k < |rs| && rs[k].group.ownerId != "" ==> rs[k].group.ownerId in pool
    ensures forall k, id :: 0 <= k < |rs| && id in rs[k].group.members ==> id in pool
  {
    if rs == [] then []
    else (if rs[0].group.ownerId != "" then [rs[0].group.ownerId] else []) + rs[0].group.members + GroupUserPool(rs[1..])
  }

  /** The replacement step of the admin listing, for one group. */
  function HydrateGroup(r: GroupResponse, userMap: map<Id, UserSummary>): GroupResponse {
    var g := r.group;
    r.(owner := if g.ownerId != "" && g.ownerId in userMap then Resolved(userMap[g.ownerId]) else r.owner,
       members := Resolve(g.members, userMap))
  }

  /** With the map fetched for every id the group mentions, the replacement step yields the admin view. */
  lemma HydrateGroupFetched(db: Db, id: Id, wanted: set<Id>)
    requires id in db.groups
    requires db.groups[id].ownerId != "" ==> db.groups[id].ownerId in wanted
    requires forall u :: u in db.groups[id].members ==> u in wanted
    ensures HydrateGroup(RawGroup(id, db.groups[id]), Directory(db.users, wanted, SummarizeUser)) == AdminGroupView(db, id)
  {
    ResolveFetched(db.users, wanted, db.groups[id].members, SummarizeUser);
  }

  /** GET /api/groups: admins only; every group with owner and members hydrated. */
  method ListAllGroups(db: Db, requester: Id, order: seq<Id>) returns (r: Result<seq<GroupResponse>>)
    requires Enumerates(order, db.groups.Keys)
    ensures !IsAdmin(db.users, requester) ==> r == Err(Forbidden)
    ensures IsAdmin(db.users, requester) ==> r.Ok?
    ensures r.Ok? ==> |r.value| == |order|
    ensures r.Ok? ==> forall k :: 0 <= k < |order| ==> order[k] in db.groups && r.value[k] == AdminGroupView(db, order[k])
  {
    if !(requester in db.users && db.users[requester].role == "admin") {
      return Err(Forbidden);
    }
    var raw := seq(|order|, k requires 0 <= k < |order| => RawGroup(order[k], db.groups[order[k]]));
    var userIds := Distinct(GroupUserPool(raw));
    var userMap := FetchSummaries(db.users, userIds, SummarizeUser);
    var out := raw;
    for k := 0 to |out|
      invariant |out| == |raw|
      invariant forall j :: 0 <= j < k ==> out[j] == AdminGroupView(db, order[j])
      invariant forall j :: k <= j < |out| ==> out[j] == raw[j]
    {
      assert raw[k] == RawGroup(order[k], db.groups[order[k]]);
      HydrateGroupFetched(db, order[k], (set id | id in userIds));
      out := out[k := HydrateGroup(out[k], userMap)];
    }
    r := Ok(out);
  }
}
