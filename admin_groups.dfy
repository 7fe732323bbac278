/**
 * The helpers of src/Pages/AdminGroups/AdminGroupsPage.jsx over the user list of
 * GET /api/users and a group from the group listings.
 */
module AdminGroups {
  import opened Common
  import opened Seqs
  import opened Store
  import opened Hydration
  import opened GroupRoutes

  /** An entry of the user list: `{_id, email, username, role}`. */
  datatype UserEntry = UserEntry(id: Id, email: string, username: string, role: string)

  /** `user.map(u => typeof u === 'string' ? u : u._id)`: members back to ids. */
  function MemberIds(members: seq<Ref<UserSummary>>): (ids: seq<Id>)
    ensures |ids| == |members|
    ensures forall k :: 0 <= k < |members| ==> ids[k] == RefId(members[k])
  {
    RefIds(members)
  }

  /** The member list of a hydrated group normalises back to the stored ids. */
  lemma NormalisedMembersAreStored(db: Db, groupId: Id)
    requires groupId in db.groups
    ensures MemberIds(UserGroupView(db, groupId).members) == db.groups[groupId].members
    ensures MemberIds(AdminGroupView(db, groupId).members) == db.groups[groupId].members
  {
    HydrationRoundTrip(db.users, db.users.Keys, db.groups[groupId].members);
  }

  /** The users whose id is not in `ids`, in list order. */
  function NotIn(users: seq<UserEntry>, ids: seq<Id>): (r: seq<UserEntry>)
    ensures forall u :: u in r <==> u in users && u.id !in ids
    ensures |r| <= |users|
  {
    if users == [] then []
    else (if users[0].id !in ids then [users[0]] else []) + NotIn(users[1..], ids)
  }

  /**
   * `getUsersNotInGroup`: every user when there is no group or the group has no `user`
   * field (`None`), otherwise the users whose id is not a member id.
   */
  function UsersNotInGroup(users: seq<UserEntry>, members: Option<seq<Ref<UserSummary>>>): (r: seq<UserEntry>)
    ensures members.None? ==> r == users
    ensures members.Some? ==> forall u :: u in r <==> u in users && u.id !in MemberIds(members.value)
    ensures |r| <= |users|
  {
    if members.None? then users else NotIn(users, MemberIds(members.value))
  }

  /** The candidates keep the order of the user list. */
  lemma {:induction false} NotInAppend(a: seq<UserEntry>, b: seq<UserEntry>, ids: seq<Id>)
    ensures NotIn(a + b, ids) == NotIn(a, ids) + NotIn(b, ids)
  {
    if a == [] {
      assert a + b == b;
    } else {
      assert (a + b)[0] == a[0] && (a + b)[1..] == a[1..] + b;
      NotInAppend(a[1..], b, ids);
    }
  }

  /**
   * For a group as the listings return it, the candidates are exactly the listed users
   * not stored as members, so adding any of them by its id is not refused as a duplicate.
   */
  lemma CandidatesAreNonMembers(db: Db, groupId: Id, users: seq<UserEntry>, u: UserEntry, requester: Id)
    requires groupId in db.groups
    requires u in UsersNotInGroup(users, Some(AdminGroupView(db, groupId).members))
    ensures u in users && u.id !in db.groups[groupId].members
    ensures AddMember(db, requester, groupId, u.id) != Err(AlreadyMember)
  {
    NormalisedMembersAreStored(db, groupId);
  }

  /** `users.find(u => u._id === userId)`: the first entry with that id. */
  function FindUser(users: seq<UserEntry>, id: Id): (r: Option<UserEntry>)
    ensures r.None? <==> forall u :: u in users ==> u.id != id
    ensures r.Some? ==> r.value in users && r.value.id == id
  {
    if users == [] then None
    else if users[0].id == id then Some(users[0])
    else FindUser(users[1..], id)
  }

  /** The first entry is the one found, even when an id is listed twice. */
  lemma {:induction false} FindUserFirst(users: seq<UserEntry>, id: Id, k: nat)
    requires k < |users| && users[k].id == id && forall j :: 0 <= j < k ==> users[j].id != id
    ensures FindUser(users, id) == Some(users[k])
  {
    if k > 0 {
      FindUserFirst(users[1..], id, k - 1);
    }
  }

  /** `getUserName`: the user's name, or "Usuario desconocido" when no user has that id. */
  function UserName(users: seq<UserEntry>, id: Id): (name: string)
    ensures (forall u :: u in users ==> u.id != id) ==> name == "Usuario desconocido"
    ensures (exists u :: u in users && u.id == id) ==> name == FindUser(users, id).value.username
  {
    match FindUser(users, id)
    case None => "Usuario desconocido"
    case Some(u) => u.username
  }

  /** `getUserEmail`: the user's e-mail, or "" when no user has that id. */
  function UserEmail(users: seq<UserEntry>, id: Id): (email: string)
    ensures (forall u :: u in users ==> u.id != id) ==> email == ""
    ensures (exists u :: u in users && u.id == id) ==> email == FindUser(users, id).value.email
  {
    match FindUser(users, id)
    case None => ""
    case Some(u) => u.email
  }

  /** The add-user button is disabled when no candidate is left. */
  predicate AddUserDisabled(users: seq<UserEntry>, members: Option<seq<Ref<UserSummary>>>) {
    |UsersNotInGroup(users, members)| == 0
  }

  /** Disabled exactly when the group exists and every listed user is already a member. */
  lemma AddUserDisabledIffAllMembers(users: seq<UserEntry>, members: Option<seq<Ref<UserSummary>>>)
    ensures AddUserDisabled(users, members) <==>
              (members.None? && users == []) || (members.Some? && forall u :: u in users ==> u.id in MemberIds(members.value))
  {
    var r := UsersNotInGroup(users, members);
    if members.Some? && |r| != 0 {
      assert r[0] in r;
    }
  }
}
