/**
 * The Kanban board of frontend/src/components/Kanban/Kanban.jsx: the tasks handed to
 * it are cleaned of null entries and bucketed into four status columns.
 */
module Kanban {
  import opened Common
  import opened Hydration

  /** The four columns, in the order the board shows them. */
  const Statuses: seq<string> := ["In Progress", "Paused", "Review", "Done"]

  /** The Spanish heading of each column. */
  function Label(status: string): string {
    if status == "In Progress" then "En Progreso"
    else if status == "Done" then "Hecho"
    else if status == "Paused" then "Pausado"
    else if status == "Review" then "Revisión"
    else ""
  }

  /**
   * `tasks.filter(task => task && typeof task === 'object')`: an entry that is null or not
   * an object is `None` here and is dropped.
   */
  function ValidTasks(entries: seq<Option<TaskResponse>>): (ts: seq<TaskResponse>)
    ensures forall t :: t in ts <==> Some(t) in entries
    ensures |ts| <= |entries|
  {
    if entries == [] then []
    else (if entries[0].Some? then [entries[0].value] else []) + ValidTasks(entries[1..])
  }

  /** Cleaning keeps the input order: it distributes over concatenation. */
  lemma {:induction false} ValidTasksAppend(a: seq<Option<TaskResponse>>, b: seq<Option<TaskResponse>>)
    ensures ValidTasks(a + b) == ValidTasks(a) + ValidTasks(b)
  {
    if a == [] {
      assert a + b == b;
    } else {
      assert (a + b)[0] == a[0] && (a + b)[1..] == a[1..] + b;
      ValidTasksAppend(a[1..], b);
    }
  }

  /** `validTasks.filter(task => task.status === status)`. */
  function WithStatus(ts: seq<TaskResponse>, status: string): (col: seq<TaskResponse>)
    ensures forall t :: t in col <==> t in ts && t.task.status == status
    ensures |col| <= |ts|
  {
    if ts == [] then []
    else (if ts[0].task.status == status then [ts[0]] else []) + WithStatus(ts[1..], status)
  }

  /** One column: its status, its heading, the header count and its cards. */
  datatype Column = Column(status: string, heading: string, count: nat, tasks: seq<TaskResponse>)

  function MakeColumn(ts: seq<TaskResponse>, status: string): (c: Column)
    ensures c.count == |c.tasks|
  {
    var col := WithStatus(ts, status);
    Column(status, Label(status), |col|, col)
  }

  /** The rendered board: one column per status, in order, each with its count. */
  function Board(entries: seq<Option<TaskResponse>>): (b: seq<Column>)
    ensures |b| == |Statuses|
    ensures forall i :: 0 <= i < |b| ==> b[i].status == Statuses[i] && b[i].count == |b[i].tasks|
    ensures forall i, t :: 0 <= i < |b| ==> (t in b[i].tasks <==> Some(t) in entries && t.task.status == Statuses[i])
  {
    var ts := ValidTasks(entries);
    seq(|Statuses|, i requires 0 <= i < |Statuses| => MakeColumn(ts, Statuses[i]))
  }

  /** The cards of a column keep their input order: bucketing distributes over concatenation. */
  lemma {:induction false} WithStatusAppend(a: seq<TaskResponse>, b: seq<TaskResponse>, status: string)
    ensures WithStatus(a + b, status) == WithStatus(a, status) + WithStatus(b, status)
  {
    if a == [] {
      assert a + b == b;
    } else {
      assert (a + b)[0] == a[0] && (a + b)[1..] == a[1..] + b;
      WithStatusAppend(a[1..], b, status);
    }
  }

  /** A task whose status is not one of the four is on no column. */
  lemma UnknownStatusShownNowhere(entries: seq<Option<TaskResponse>>, t: TaskResponse)
    requires t.task.status !in Statuses
    ensures forall i :: 0 <= i < |Board(entries)| ==> t !in Board(entries)[i].tasks
  {
  }

  /** Every valid task with one of the four statuses is on exactly one column. */
  lemma KnownStatusShownOnce(entries: seq<Option<TaskResponse>>, t: TaskResponse)
    requires Some(t) in entries && t.task.status in Statuses
    ensures exists i :: 0 <= i < |Board(entries)| && t in Board(entries)[i].tasks
    ensures forall i, j :: 0 <= i < j < |Board(entries)| ==> !(t in Board(entries)[i].tasks && t in Board(entries)[j].tasks)
  {
    var b := Board(entries);
    var i :| 0 <= i < |Statuses| && Statuses[i] == t.task.status;
    assert t in b[i].tasks;
  }

  /** The valid tasks whose status is none of the four. */
  function Unshown(ts: seq<TaskResponse>): (r: seq<TaskResponse>)
    ensures forall t :: t in r <==> t in ts && t.task.status !in Statuses
  {
    if ts == [] then []
    else (if ts[0].task.status !in Statuses then [ts[0]] else []) + Unshown(ts[1..])
  }

  /** The four header counts add up to the number of valid tasks, less those with an unknown status. */
  lemma {:induction false} CountsAddUp(ts: seq<TaskResponse>)
    ensures |WithStatus(ts, "In Progress")| + |WithStatus(ts, "Paused")| + |WithStatus(ts, "Review")|
            + |WithStatus(ts, "Done")| + |Unshown(ts)| == |ts|
  {
    if ts != [] {
      CountsAddUp(ts[1..]);
    }
  }

  lemma BoardCountsAddUp(entries: seq<Option<TaskResponse>>)
    ensures var b := Board(entries);
      b[0].count + b[1].count + b[2].count + b[3].count + |Unshown(ValidTasks(entries))| == |ValidTasks(entries)|
  {
    CountsAddUp(ValidTasks(entries));
  }
}
