/**
 * The permission checks the route handlers of backend/Server.js perform before they
 * touch the store: creator, assignee, group owner, group member, admin, or the user
 * acting on themselves.
 */
module Authz {
  import opened Store

  /** `userDoc.exists && userDoc.data().role === 'admin'`: a requester without a user document is never admin. */
  predicate IsAdmin(users: map<Id, User>, uid: Id) {
    uid in users && users[uid].role == "admin"
  }

  predicate IsCreator(t: Task, uid: Id) {
    t.userId == uid
  }

  predicate IsAssignee(t: Task, uid: Id) {
    uid in t.assignedTo
  }

  predicate IsGroupOwner(g: Group, uid: Id) {
    g.ownerId == uid
  }

  predicate IsGroupMember(g: Group, uid: Id) {
    uid in g.members
  }

  /**
   * The two checks of the task-update route: nobody but creator, assignee or admin
   * gets through; an assignee who is neither creator nor admin gets through only with
   * a body holding the single key `status`.
   */
  predicate UpdateAllowed(users: map<Id, User>, t: Task, uid: Id, keys: set<string>) {
    var creator := IsCreator(t, uid);
    var assignee := IsAssignee(t, uid);
    var admin := IsAdmin(users, uid);
    (creator || assignee || admin) && !(!admin && !creator && assignee && (|keys| > 1 || "status" !in keys))
  }

  /** Only the creator or an admin may delete a task. */
  predicate DeleteAllowed(users: map<Id, User>, t: Task, uid: Id) {
    IsCreator(t, uid) || IsAdmin(users, uid)
  }

  /** Creating a task in a group: owner or member, with no admin bypass. */
  predicate GroupTaskAllowed(g: Group, uid: Id) {
    IsGroupOwner(g, uid) || IsGroupMember(g, uid)
  }

  /** Updating or deleting a group and adding members: owner or admin. */
  predicate ManagesGroup(users: map<Id, User>, g: Group, uid: Id) {
    IsGroupOwner(g, uid) || IsAdmin(users, uid)
  }

  /** Removing `target` from a group: owner, admin, or `target` leaving by themselves. */
  predicate RemoveAllowed(users: map<Id, User>, g: Group, uid: Id, target: Id) {
    IsGroupOwner(g, uid) || IsAdmin(users, uid) || uid == target
  }

  /** A set with at most one element that holds `x` is `{x}`, and conversely. */
  lemma SingletonKeys(keys: set<string>, x: string)
    ensures (|keys| <= 1 && x in keys) <==> keys == {x}
  {
    if |keys| <= 1 && x in keys {
      assert |keys - {x}| == |keys| - 1;
      assert keys - {x} == {};
      assert keys == {x};
    }
  }

  /**
   * Who may update a task, stated without the route's nested conditions: the creator or
   * an admin with any body, an assignee only with the body `{status}`, nobody else.
   */
  lemma UpdateAllowedCases(users: map<Id, User>, t: Task, uid: Id, keys: set<string>)
    ensures UpdateAllowed(users, t, uid, keys) <==>
      IsCreator(t, uid) || IsAdmin(users, uid) || (IsAssignee(t, uid) && keys == {"status"})
  {
    SingletonKeys(keys, "status");
  }

  /** A creator who is also an assignee keeps full access: the creator rule wins. */
  lemma CreatorAssigneeMayEditAnything(users: map<Id, User>, t: Task, uid: Id, keys: set<string>)
    requires IsCreator(t, uid) && IsAssignee(t, uid)
    ensures UpdateAllowed(users, t, uid, keys)
  {
  }

  /** An assignee may never delete a task they did not create, unless admin. */
  lemma AssigneeMayNotDelete(users: map<Id, User>, t: Task, uid: Id)
    requires IsAssignee(t, uid) && !IsCreator(t, uid) && !IsAdmin(users, uid)
    ensures !DeleteAllowed(users, t, uid)
  {
  }
}
