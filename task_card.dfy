/**
 * The per-task card of frontend/src/components/TaskCard/TaskCard.jsx: who counts as
 * owner or assignee on the client, the overdue mark, the deadline badge, and which
 * actions are enabled. "Before now" and the whole days left until the deadline come
 * in as inputs.
 */
module TaskCard {
  import opened Common
  import opened Store
  import opened Authz
  import opened Hydration
  import opened TaskRoutes

  /** `String(task.userId)`: a hydrated creator is an object and stringifies as such. */
  function OwnerText(owner: Ref<UserSummary>): string {
    match owner
    case Raw(id) => id
    case Resolved(_) => "[object Object]"
  }

  /** Creator and current user both present and equal as strings. `current` is "" when there is no session user. */
  predicate IsOwner(t: TaskResponse, current: Id) {
    OwnerText(t.owner) != "" && current != "" && OwnerText(t.owner) == current
  }

  /** Some assignee, raw or hydrated (compared by `_id`), is the current user. */
  predicate IsAssigned(t: TaskResponse, current: Id) {
    current != "" && current in RefIds(t.assignedTo)
  }

  /** A deadline that lies before now, on a task not yet done. */
  predicate IsOverdue(t: TaskResponse, beforeNow: bool) {
    t.task.deadline != "" && beforeNow && t.task.status != "Done"
  }

  /** The deadline badge. */
  datatype Badge = Badge(text: string, color: string)

  function DigitChar(d: nat): (c: char)
    requires d < 10
    ensures '0' <= c <= '9'
  {
    "0123456789"[d]
  }

  /** The decimal digits of `n`, as a template string shows them. */
  function NatToString(n: nat): (s: string)
    ensures |s| >= 1
    ensures forall i :: 0 <= i < |s| ==> '0' <= s[i] <= '9'
  {
    if n < 10 then [DigitChar(n)] else NatToString(n / 10) + [DigitChar(n % 10)]
  }

  /** The number a string of decimal digits denotes. */
  function DigitsValue(s: string): nat
    requires forall i :: 0 <= i < |s| ==> '0' <= s[i] <= '9'
  {
    if s == [] then 0 else 10 * DigitsValue(s[..|s| - 1]) + (s[|s| - 1] as int - '0' as int)
  }

  /** The badge's day count reads back as the number it was made from. */
  lemma {:induction false} NatToStringRoundTrip(n: nat)
    ensures DigitsValue(NatToString(n)) == n
  {
    var s := NatToString(n);
    if n < 10 {
      assert s[..0] == [];
      assert DigitChar(n) as int - '0' as int == n;
    } else {
      NatToStringRoundTrip(n / 10);
      assert s[..|s| - 1] == NatToString(n / 10);
      assert DigitChar(n % 10) as int - '0' as int == n % 10;
    }
  }

  /** " día" or " días": the singular only for exactly one day. */
  function DayWord(n: nat): string {
    " día" + (if n != 1 then "s" else "")
  }

  function Abs(n: int): nat {
    if n < 0 then -n else n
  }

  /**
   * `calculateDeadlineStatus`: no badge without a deadline; "Completada" in green for a
   * done task; otherwise red when overdue, "Vence hoy" in orange on the day, orange for
   * one or two days left, green beyond.
   */
  function DeadlineStatus(t: TaskResponse, daysRemaining: int): (b: Option<Badge>)
    ensures b.None? <==> t.task.deadline == ""
    ensures b.Some? && t.task.status == "Done" ==> b.value == Badge("Completada", "green")
    ensures b.Some? && t.task.status != "Done" ==>
              (b.value.color == "red" <==> daysRemaining < 0)
              && (b.value.color == "orange" <==> 0 <= daysRemaining <= 2)
              && (b.value.color == "green" <==> daysRemaining > 2)
    ensures b.Some? && t.task.status != "Done" && daysRemaining == 0 ==> b.value.text == "Vence hoy"
  {
    if t.task.deadline == "" then None
    else if t.task.status == "Done" then Some(Badge("Completada", "green"))
    else if daysRemaining < 0 then
      Some(Badge("Atrasada por " + NatToString(-daysRemaining) + DayWord(-daysRemaining), "red"))
    else if daysRemaining == 0 then Some(Badge("Vence hoy", "orange"))
    else if daysRemaining <= 2 then
      Some(Badge("Vence en " + NatToString(daysRemaining) + DayWord(daysRemaining), "orange"))
    else Some(Badge("Vence en " + NatToString(daysRemaining) + " días", "green"))
  }

  /** A done task is green whatever its deadline. */
  lemma DoneIsGreen(t: TaskResponse, daysRemaining: int)
    requires t.task.deadline != "" && t.task.status == "Done"
    ensures DeadlineStatus(t, daysRemaining) == Some(Badge("Completada", "green"))
  {
  }

  /** Outside "Vence hoy", the count is followed by "día" exactly when it is one day away in either direction. */
  lemma PluralOnlyAwayFromOne(t: TaskResponse, daysRemaining: int)
    requires t.task.deadline != "" && t.task.status != "Done" && daysRemaining != 0
    ensures var text := DeadlineStatus(t, daysRemaining).value.text;
      |text| > 0 && (text[|text| - 1] == 's' <==> Abs(daysRemaining) != 1)
  {
  }

  /** The status select and the edit button: owner or assignee. */
  predicate StatusSelectEnabled(t: TaskResponse, current: Id) {
    IsOwner(t, current) || IsAssigned(t, current)
  }

  predicate EditEnabled(t: TaskResponse, current: Id) {
    IsOwner(t, current) || IsAssigned(t, current)
  }

  /** The delete button: owner only. */
  predicate DeleteEnabled(t: TaskResponse, current: Id) {
    IsOwner(t, current)
  }

  /**
   * On a card from the user-tasks listing, the client's owner and assignee tests agree
   * with the backend's creator and assignee tests for a signed-in user.
   */
  lemma CardFlagsMatchBackend(db: Db, id: Id, current: Id)
    requires id in db.tasks && current != ""
    ensures IsOwner(UserTaskView(db, id), current) <==> IsCreator(db.tasks[id], current)
    ensures IsAssigned(UserTaskView(db, id), current) <==> IsAssignee(db.tasks[id], current)
  {
    HydrationRoundTrip(db.users, db.users.Keys, db.tasks[id].assignedTo);
  }

  /** The delete button is offered only where the delete route will go through. */
  lemma DeleteButtonHonoured(db: Db, id: Id, current: Id)
    requires id in db.tasks && DeleteEnabled(UserTaskView(db, id), current)
    ensures DeleteTask(db, current, id).Ok?
  {
  }

  /**
   * The status select and the edit button are offered only to users from whom the update
   * route accepts the body both of them send, `{ status }` (TaskCard.jsx:89 and the edit
   * modal's submit in TaskForm.jsx:33-34). For a plain assignee that body is also the only
   * one the route accepts.
   */
  lemma EditButtonHonoured(db: Db, id: Id, current: Id, keys: set<string>)
    requires id in db.tasks && current != ""
    requires EditEnabled(UserTaskView(db, id), current)
    ensures StatusSelectEnabled(UserTaskView(db, id), current)
    ensures keys == {"status"} ==> UpdateAllowed(db.users, db.tasks[id], current, keys)
    ensures !IsCreator(db.tasks[id], current) && !IsAdmin(db.users, current) ==>
              (UpdateAllowed(db.users, db.tasks[id], current, keys) <==> keys == {"status"})
  {
    CardFlagsMatchBackend(db, id, current);
    UpdateAllowedCases(db.users, db.tasks[id], current, keys);
  }

  /**
   * A property of the component on an input the app never gives it: the only cards the
   * app renders come from the user-tasks listing, through the Dashboard's Kanban. Were a
   * card built from an admin-listing task, whose creator is hydrated, no user would be
   * recognised as its owner and the delete button would stay disabled even for the creator.
   */
  lemma HydratedCreatorNeverOwner(db: Db, id: Id, current: Id)
    requires id in db.tasks && db.tasks[id].userId in db.users && current != "[object Object]"
    ensures !IsOwner(AdminTaskView(db, id), current)
  {
    if db.tasks[id].userId != "" {
      assert AdminTaskView(db, id).owner.Resolved?;
    }
  }
}
