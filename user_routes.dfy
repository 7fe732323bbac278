/**
 * The user routes of backend/Server.js: self-registration, creation by an admin,
 * profile update, role change and deletion with its cascade over tasks and groups.
 */
module UserRoutes {
  import opened Common
  import opened Seqs
  import opened Store
  import opened Authz

  /** `where('email', '==', email)` finds at least one document. */
  predicate EmailInUse(users: map<Id, User>, email: string) {
    exists id :: id in users && users[id].email == email
  }

  /**
   * POST /api/register: all three fields are required, the e-mail must be unused, and
   * the new user always gets the role `user`. `hash` is the bcrypt digest of the
   * password and `newId` the id the store assigns.
   */
  function Register(db: Db, email: string, username: string, password: string, hash: string, newId: Id)
    : (r: Result<Db>)
    requires newId !in db.users
    ensures email == "" || username == "" || password == "" <==> r == Err(MissingFields)
    ensures r == Err(EmailTaken) <==> r != Err(MissingFields) && EmailInUse(db.users, email)
    ensures r.Ok? <==> email != "" && username != "" && password != "" && !EmailInUse(db.users, email)
    ensures r.Ok? ==> r.value.tasks == db.tasks && r.value.groups == db.groups
    ensures r.Ok? ==> r.value.users == db.users[newId := User(email, username, hash, "user")]
  {
    if email == "" || username == "" || password == "" then Err(MissingFields)
    else if EmailInUse(db.users, email) then Err(EmailTaken)
    else Ok(db.(users := db.users[newId := User(email, username, hash, "user")]))
  }

  /** Adding a user whose e-mail is unused keeps e-mails unique. */
  lemma AddUserKeepsEmailsUnique(users: map<Id, User>, newId: Id, u: User)
    requires UniqueEmails(users) && newId !in users && !EmailInUse(users, u.email)
    ensures UniqueEmails(users[newId := u])
  {
    assert forall id :: id in users ==> users[id].email != u.email;
  }

  lemma RegisterKeepsEmailsUnique(db: Db, email: string, username: string, password: string, hash: string, newId: Id)
    requires newId !in db.users && UniqueEmails(db.users)
    requires Register(db, email, username, password, hash, newId).Ok?
    ensures UniqueEmails(Register(db, email, username, password, hash, newId).value.users)
  {
    AddUserKeepsEmailsUnique(db.users, newId, User(email, username, hash, "user"));
  }

  /** Self-registration never creates an admin. */
  lemma RegisterNeverGrantsAdmin(db: Db, email: string, username: string, password: string, hash: string, newId: Id)
    requires newId !in db.users
    requires Register(db, email, username, password, hash, newId).Ok?
    ensures !IsAdmin(Register(db, email, username, password, hash, newId).value.users, newId)
  {
  }

  /**
   * POST /api/users/admin: 403 unless the requester is an admin, then the same checks
   * as registration; the role is `role || 'user'` and is not checked against a list.
   */
  function AdminCreateUser(db: Db, requester: Id, email: string, username: string, password: string,
                           role: string, hash: string, newId: Id): (r: Result<Db>)
    requires newId !in db.users
    ensures !IsAdmin(db.users, requester) <==> r == Err(Forbidden)
    ensures r == Err(MissingFields) <==> IsAdmin(db.users, requester) && (email == "" || username == "" || password == "")
    ensures r.Ok? <==> IsAdmin(db.users, requester) && email != "" && username != "" && password != ""
                       && !EmailInUse(db.users, email)
    ensures r.Ok? ==> r.value.tasks == db.tasks && r.value.groups == db.groups
    ensures r.Ok? ==> r.value.users == db.users[newId := User(email, username, hash, if role == "" then "user" else role)]
  {
    if !IsAdmin(db.users, requester) then Err(Forbidden)
    else if email == "" || username == "" || password == "" then Err(MissingFields)
    else if EmailInUse(db.users, email) then Err(EmailTaken)
    else Ok(db.(users := db.users[newId := User(email, username, hash, if role == "" then "user" else role)]))
  }

  lemma AdminCreateKeepsEmailsUnique(db: Db, requester: Id, email: string, username: string, password: string,
                                     role: string, hash: string, newId: Id)
    requires newId !in db.users && UniqueEmails(db.users)
    requires AdminCreateUser(db, requester, email, username, password, role, hash, newId).Ok?
    ensures UniqueEmails(AdminCreateUser(db, requester, email, username, password, role, hash, newId).value.users)
  {
    AddUserKeepsEmailsUnique(db.users, newId, User(email, username, hash, if role == "" then "user" else role));
  }

  /** Unlike the role route, admin creation stores whatever role it is given. */
  lemma AdminCreateStoresAnyRole(db: Db, requester: Id, newId: Id)
    requires newId !in db.users && IsAdmin(db.users, requester) && !EmailInUse(db.users, "m@x")
    ensures AdminCreateUser(db, requester, "m@x", "m", "pw", "superuser", "h", newId).Ok?
    ensures AdminCreateUser(db, requester, "m@x", "m", "pw", "superuser", "h", newId).value.users[newId].role == "superuser"
  {
  }

  /**
   * PUT /api/users/:userId: 404 for a missing target, then 404 for a requester without a
   * user document, then 403 unless admin or the user themselves; only non-empty
   * username and email are written, and the e-mail is not checked for uniqueness.
   */
  function UpdateUser(db: Db, requester: Id, target: Id, username: string, email: string): (r: Result<Db>)
    ensures r == Err(NotFound) <==> target !in db.users || requester !in db.users
    ensures r.Ok? <==> target in db.users && (requester == target || IsAdmin(db.users, requester))
    ensures r.Ok? ==> r.value.tasks == db.tasks && r.value.groups == db.groups
    ensures r.Ok? ==> r.value.users.Keys == db.users.Keys
    ensures r.Ok? ==> forall id :: id in db.users && id != target ==> r.value.users[id] == db.users[id]
    ensures r.Ok? ==> var before, after := db.users[target], r.value.users[target];
      after.password == before.password && after.role == before.role
      && after.username == (if username == "" then before.username else username)
      && after.email == (if email == "" then before.email else email)
  {
    if target !in db.users then Err(NotFound)
    else if requester !in db.users then Err(NotFound)
    else if !(db.users[requester].role == "admin" || requester == target) then Err(Forbidden)
    else
      var u := db.users[target];
      var u1 := if username != "" then u.(username := username) else u;
      var u2 := if email != "" then u1.(email := email) else u1;
      Ok(db.(users := db.users[target := u2]))
  }

  /** A profile update may give a user an e-mail another user already has. */
  lemma UpdateUserCanDuplicateEmail()
    ensures var db := Db(map["a" := User("x@e", "a", "h", "user"), "b" := User("y@e", "b", "h", "user")], map[], map[]);
      UniqueEmails(db.users) && UpdateUser(db, "b", "b", "", "x@e").Ok?
      && !UniqueEmails(UpdateUser(db, "b", "b", "", "x@e").value.users)
  {
    var db := Db(map["a" := User("x@e", "a", "h", "user"), "b" := User("y@e", "b", "h", "user")], map[], map[]);
    var after := UpdateUser(db, "b", "b", "", "x@e").value.users;
    assert after["a"].email == after["b"].email;
  }

  /** The values the role route accepts. */
  predicate ValidRole(role: string) {
    role == "user" || role == "admin"
  }

  /**
   * PUT /api/users/:userId/role: 403 unless admin, then 400 unless the role is `user` or
   * `admin`, then 404 for a missing target; only the role changes.
   */
  function UpdateRole(db: Db, requester: Id, target: Id, role: string): (r: Result<Db>)
    ensures !IsAdmin(db.users, requester) <==> r == Err(Forbidden)
    ensures r == Err(InvalidRole) <==> IsAdmin(db.users, requester) && !ValidRole(role)
    ensures r == Err(NotFound) <==> IsAdmin(db.users, requester) && ValidRole(role) && target !in db.users
    ensures r.Ok? ==> r.value == db.(users := db.users[target := db.users[target].(role := role)])
  {
    if !IsAdmin(db.users, requester) then Err(Forbidden)
    else if !ValidRole(role) then Err(InvalidRole)
    else if target !in db.users then Err(NotFound)
    else Ok(db.(users := db.users[target := db.users[target].(role := role)]))
  }

  /** Every stored role is one the role route accepts. */
  ghost predicate RolesValid(users: map<Id, User>) {
    forall id :: id in users ==> ValidRole(users[id].role)
  }

  lemma UpdateRoleKeepsRolesValid(db: Db, requester: Id, target: Id, role: string)
    requires RolesValid(db.users) && UpdateRole(db, requester, target, role).Ok?
    ensures RolesValid(UpdateRole(db, requester, target, role).value.users)
  {
  }

  /** The role route does not protect the last admin: the only admin may demote themselves. */
  lemma LastAdminMayDemoteSelf()
    ensures var db := Db(map["a" := User("a@e", "a", "h", "admin")], map[], map[]);
      var r := UpdateRole(db, "a", "a", "user");
      r.Ok? && !(exists id :: IsAdmin(r.value.users, id))
  {
    var db := Db(map["a" := User("a@e", "a", "h", "admin")], map[], map[]);
    var after := UpdateRole(db, "a", "a", "user").value.users;
    assert after.Keys == {"a"};
  }

  // ---------------------------------------------------------------------------
  // DELETE /api/users/:userId

  /** `groupData.user.filter(uid => uid !== userId)`. */
  function StripMember(g: Group, uid: Id): (h: Group)
    ensures h.name == g.name && h.ownerId == g.ownerId
    ensures forall m :: m in h.members <==> m in g.members && m != uid
  {
    g.(members := Without(g.members, uid))
  }

  /** The store after the batch of the delete-user route has committed. */
  ghost function AfterUserDeleted(db: Db, target: Id): Db {
    Db(db.users - {target},
       db.tasks - (set id | id in db.tasks && db.tasks[id].userId == target),
       map id | id in db.groups ::
         if target in db.groups[id].members then StripMember(db.groups[id], target) else db.groups[id])
  }

  /** The first half of the batch: delete every task of the `where('userId', '==', target)` snapshot. */
  method DeleteTasksOf(tasks: map<Id, Task>, order: seq<Id>, target: Id) returns (after: map<Id, Task>)
    requires Enumerates(order, tasks.Keys)
    ensures after == tasks - (set id | id in tasks && tasks[id].userId == target)
  {
    var snap := Keep(order, set id | id in tasks && tasks[id].userId == target);
    after := DeleteKeys(tasks, snap);
    assert (set id | id in snap) == (set id | id in tasks && tasks[id].userId == target);
  }

  /** The second half: rewrite the member list of every group of the `array-contains` snapshot. */
  method StripFromGroups(groups: map<Id, Group>, order: seq<Id>, target: Id) returns (after: map<Id, Group>)
    requires Enumerates(order, groups.Keys)
    ensures after == map id | id in groups ::
              if target in groups[id].members then StripMember(groups[id], target) else groups[id]
  {
    var sel := set id | id in groups && target in groups[id].members;
    var snap := Keep(order, sel);
    after := groups;
    for k := 0 to |snap|
      invariant after.Keys == groups.Keys
      invariant forall id :: id in groups ==>
                  after[id] == if id in snap[..k] then StripMember(groups[id], target) else groups[id]
    {
      ghost var before := after;
      assert snap[..k + 1] == snap[..k] + [snap[k]];
      assert snap[k] in snap;
      after := after[snap[k] := StripMember(groups[snap[k]], target)];
      forall id | id in groups
        ensures after[id] == if id in snap[..k + 1] then StripMember(groups[id], target) else groups[id]
      {
        if id != snap[k] {
          assert after[id] == before[id];
          assert id in snap[..k + 1] <==> id in snap[..k];
        }
      }
    }
    assert snap[..|snap|] == snap;
    forall id | id in groups
      ensures after[id] == if target in groups[id].members then StripMember(groups[id], target) else groups[id]
    {
      assert id in snap <==> id in sel;
    }
  }

  /**
   * 403 unless the requester is an admin, 404 for a missing target; otherwise one batch
   * deletes the target's tasks, takes the target out of every group listing them, and
   * deletes the user.
   */
  method DeleteUser(db: Db, requester: Id, target: Id, taskOrder: seq<Id>, groupOrder: seq<Id>)
    returns (r: Result<Db>)
    requires Enumerates(taskOrder, db.tasks.Keys) && Enumerates(groupOrder, db.groups.Keys)
    ensures !IsAdmin(db.users, requester) ==> r == Err(Forbidden)
    ensures IsAdmin(db.users, requester) && target !in db.users ==> r == Err(NotFound)
    ensures IsAdmin(db.users, requester) && target in db.users ==> r == Ok(AfterUserDeleted(db, target))
  {
    if !(requester in db.users && db.users[requester].role == "admin") {
      return Err(Forbidden);
    }
    if target !in db.users {
      return Err(NotFound);
    }
    var tasks := DeleteTasksOf(db.tasks, taskOrder, target);
    var groups := StripFromGroups(db.groups, groupOrder, target);
    r := Ok(Db(db.users - {target}, tasks, groups));
  }

  /**
   * After the cascade the user is gone, no task they created is left, no group lists them
   * as a member, and every other task and every group's other data is unchanged.
   */
  lemma AfterUserDeletedSpec(db: Db, target: Id)
    ensures var after := AfterUserDeleted(db, target);
      target !in after.users
      && (forall id :: id in after.tasks ==> after.tasks[id].userId != target)
      && (forall id :: id in db.tasks && db.tasks[id].userId != target ==> id in after.tasks && after.tasks[id] == db.tasks[id])
      && after.groups.Keys == db.groups.Keys
      && (forall id :: id in after.groups ==> target !in after.groups[id].members)
      && (forall id :: id in after.groups ==> after.groups[id].ownerId == db.groups[id].ownerId)
  {
  }

  /** The cascade keeps group tasks anchored: no group is deleted. */
  lemma DeleteUserKeepsAnchored(db: Db, target: Id)
    requires GroupTasksAnchored(db)
    ensures GroupTasksAnchored(AfterUserDeleted(db, target))
  {
    var after := AfterUserDeleted(db, target);
    forall id | id in after.tasks && after.tasks[id].groupId.Some?
      ensures after.tasks[id].groupId.value in after.groups
    {
      assert after.tasks[id] == db.tasks[id];
    }
  }

  /** The cascade leaves behind groups owned by the deleted user and tasks still assigned to them. */
  lemma DeleteUserLeavesDanglingRefs()
    ensures var db := Db(map["a" := User("a@e", "a", "h", "admin"), "u" := User("u@e", "u", "h", "user")],
                         map["t" := Task("T", "d", "x", "In Progress", None, "a", None, ["u"])],
                         map["g" := Group("G", "u", [])]);
      var after := AfterUserDeleted(db, "u");
      "u" !in after.users && after.groups["g"].ownerId == "u" && "u" in after.tasks["t"].assignedTo
  {
    var db := Db(map["a" := User("a@e", "a", "h", "admin"), "u" := User("u@e", "u", "h", "user")],
                 map["t" := Task("T", "d", "x", "In Progress", None, "a", None, ["u"])],
                 map["g" := Group("G", "u", [])]);
    var after := AfterUserDeleted(db, "u");
    assert "g" in db.groups && "u" !in db.groups["g"].members;
    assert "t" in after.tasks;
  }
}
