/**
 * The three document collections of the backend (users, tasks, groups), held as
 * maps from document id to document. Every route reads and writes only these.
 */
module Store {
  import opened Common

  /** A document id; also the user id carried by a session token. */
  type Id = string

  /** A `users` document. `password` is the stored bcrypt digest, never the plain text. */
  datatype User = User(email: string, username: string, password: string, role: string)

  /**
   * A `tasks` document. JSON field names: name_task, description, dead_line, status,
   * category, userId (the creator), groupId, assignedTo.
   */
  datatype Task = Task(
    name: string,
    description: string,
    deadline: string,
    status: string,
    category: Option<string>,
    userId: Id,
    groupId: Option<Id>,
    assignedTo: seq<Id>)

  /** A `groups` document; `members` is the JSON field `user`, a list of user ids. */
  datatype Group = Group(name: string, ownerId: Id, members: seq<Id>)

  /** The whole store. */
  datatype Db = Db(users: map<Id, User>, tasks: map<Id, Task>, groups: map<Id, Group>)

  /** The status a new task gets when the request names none. */
  const DefaultStatus: string := "In Progress"

  /** No two users share an e-mail address (the registration routes check this before writing). */
  ghost predicate UniqueEmails(users: map<Id, User>) {
    forall a, b :: a in users && b in users && users[a].email == users[b].email ==> a == b
  }

  /** Every group task names a group that exists. */
  ghost predicate GroupTasksAnchored(db: Db) {
    forall id :: id in db.tasks && db.tasks[id].groupId.Some? ==> db.tasks[id].groupId.value in db.groups
  }
}
