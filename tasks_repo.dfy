/**
 * Personal tasks in the SQL store. Each successful change commits the row,
 * then appends one event to the outbox in a second, separate step; a lookup
 * that fails changes nothing and appends nothing.
 */
module TasksRepo {
  import opened Wrappers
  import opened Config
  import opened Text
  import opened Due
  import opened Models
  import opened OutboxStore

  /** The dict `tasks_list` produces for one row. */
  datatype TaskDict = TaskDict(taskId: string, task: string, fromName: string, dueStr: string, status: string, createdAt: string)

  function ToDict(t: Task): TaskDict {
    TaskDict(IntToString(t.id), t.taskText, t.fromName, DueToStr(t.dueAt), t.status, t.createdAt + "Z")
  }

  function Dicts(ts: seq<Task>): (r: seq<TaskDict>)
    ensures |r| == |ts| && forall k :: 0 <= k < |ts| ==> r[k] == ToDict(ts[k])
  {
    if ts == [] then [] else Dicts(ts[..|ts| - 1]) + [ToDict(ts[|ts| - 1])]
  }

  /** `SELECT ... WHERE assignee_name = a ORDER BY id DESC`, the table being in ascending id order. */
  function Selected(ts: seq<Task>, assignee: string): (r: seq<Task>)
    ensures |r| <= |ts|
    ensures forall k :: 0 <= k < |r| ==> r[k].assigneeName == assignee
  {
    if ts == [] then []
    else (if ts[|ts| - 1].assigneeName == assignee then [ts[|ts| - 1]] else []) + Selected(ts[..|ts| - 1], assignee)
  }

  /** The position of the task with this id and this assignee. */
  function FindTask(ts: seq<Task>, assignee: string, id: int): (r: Option<nat>)
    ensures r.Some? ==> r.value < |ts| && ts[r.value].id == id && ts[r.value].assigneeName == assignee
    ensures r.None? ==> forall k :: 0 <= k < |ts| ==> !(ts[k].id == id && ts[k].assigneeName == assignee)
  {
    if ts == [] then None
    else if ts[|ts| - 1].id == id && ts[|ts| - 1].assigneeName == assignee then Some(|ts| - 1)
    else FindTask(ts[..|ts| - 1], assignee, id)
  }

  /** `int(task_id)` followed by the lookup by (assignee_name, id). */
  function Locate(ts: seq<Task>, assignee: string, taskId: string): (r: Option<nat>)
    ensures r.Some? ==> r.value < |ts| && ts[r.value].assigneeName == assignee
  {
    var tid :- ParseInt(taskId);
    FindTask(ts, assignee, tid)
  }

  /** The field a single-field update writes. */
  datatype Edit = NewStatus(status: string) | NewText(text: string) | NewDue(due: Option<DateTime>)

  function ApplyEdit(t: Task, e: Edit): Task {
    match e
    case NewStatus(s) => t.(status := s)
    case NewText(x) => t.(taskText := x)
    case NewDue(d) => t.(dueAt := d)
  }

  function EditEvent(assignee: string, id: int, e: Edit): Event {
    match e
    case NewStatus(s) => TaskStatus(assignee, id, s)
    case NewText(x) => TaskText(assignee, id, x)
    case NewDue(d) => TaskDue(assignee, id, DueToStr(d))
  }

  /** DONE, with a due date strictly before the cutoff. */
  predicate Archivable(t: Task, cutoff: DateTime) {
    t.status == StatusDone && t.dueAt.Some? && Before(t.dueAt.value, cutoff)
  }

  function ArchiveOne(t: Task, cutoff: DateTime): Task {
    if Archivable(t, cutoff) then t.(status := StatusArchive) else t
  }

  /** The table after the archive sweep. */
  function ArchiveAll(ts: seq<Task>, cutoff: DateTime): (r: seq<Task>)
    ensures |r| == |ts| && forall k :: 0 <= k < |ts| ==> r[k] == ArchiveOne(ts[k], cutoff)
  {
    if ts == [] then [] else ArchiveAll(ts[..|ts| - 1], cutoff) + [ArchiveOne(ts[|ts| - 1], cutoff)]
  }

  /** How many rows the sweep changes. */
  function ArchiveCount(ts: seq<Task>, cutoff: DateTime): nat {
    if ts == [] then 0 else ArchiveCount(ts[..|ts| - 1], cutoff) + (if Archivable(ts[|ts| - 1], cutoff) then 1 else 0)
  }

  /**
   * The events a sweep that announces each archived task on its own would
   * record: one TASK_STATUS to ARCHIVE per archived task, in table order,
   * which is how the mirror's dispatch expects ARCHIVE to arrive.
   */
  function ArchiveStatusEvents(ts: seq<Task>, cutoff: DateTime): (r: seq<Event>)
    ensures |r| == ArchiveCount(ts, cutoff)
    ensures forall i :: 0 <= i < |r| ==> r[i].TaskStatus? && r[i].status == StatusArchive
  {
    if ts == [] then []
    else
      var t := ts[|ts| - 1];
      ArchiveStatusEvents(ts[..|ts| - 1], cutoff)
      + (if Archivable(t, cutoff) then [TaskStatus(t.assigneeName, t.id, StatusArchive)] else [])
  }

  /** Every task the sweep archives has its ARCHIVE event. */
  lemma {:induction false} ArchiveStatusEventsCover(ts: seq<Task>, cutoff: DateTime, k: nat)
    requires k < |ts| && Archivable(ts[k], cutoff)
    ensures TaskStatus(ts[k].assigneeName, ts[k].id, StatusArchive) in ArchiveStatusEvents(ts, cutoff)
  {
    if k < |ts| - 1 {
      ArchiveStatusEventsCover(ts[..|ts| - 1], cutoff, k);
    }
  }

  class TasksRepo {
    var tasks: seq<Task>
    var nextId: int
    const outbox: Outbox

    ghost predicate Valid()
      reads this, outbox
    {
      nextId >= 1 && TaskKeys(tasks, nextId) && outbox.Valid()
    }

    constructor(outbox: Outbox)
      requires outbox.Valid()
      ensures Valid() && tasks == [] && nextId == 1 && this.outbox == outbox
    {
      tasks := [];
      nextId := 1;
      this.outbox := outbox;
    }

    /**
     * `task_create`: one new row with a fresh id and the clock's time (the
     * caller's `createdAt` is ignored), then one TASK_CREATED event.
     */
    method Create(assignee: string, text: string, fromName: string, dueStr: string, status: string,
                  createdAt: string, now: string) returns (id: int)
      requires Valid()
      modifies this, outbox
      ensures Valid()
      ensures id == old(nextId) && nextId == id + 1
      ensures tasks == old(tasks) + [Task(id, assignee, text, fromName, ParseDueStr(dueStr), StatusOrTodo(status), now)]
      ensures outbox.rows == old(outbox.rows) +
        [OutboxRow(old(outbox.nextId), TaskCreated(assignee, id, text, fromName, DueToStr(ParseDueStr(dueStr)), StatusOrTodo(status)), None, None)]
    {
      var due := ParseDueStr(dueStr);
      var t := Task(nextId, assignee, text, fromName, due, StatusOrTodo(status), now);
      tasks := tasks + [t];
      id := nextId;
      nextId := nextId + 1;
      outbox.Add(TaskCreated(assignee, id, text, fromName, DueToStr(due), StatusOrTodo(status)));
    }

    /** `tasks_list`: the assignee's rows, newest first, each turned into a dict. */
    method List(assignee: string) returns (out: seq<TaskDict>)
      ensures out == Dicts(Selected(tasks, assignee))
    {
      var rows := Selected(tasks, assignee);
      out := [];
      for i := 0 to |rows|
        invariant out == Dicts(rows[..i])
      {
        assert rows[..i + 1][..i] == rows[..i];
        out := out + [ToDict(rows[i])];
      }
      assert rows[..|rows|] == rows;
    }

    /** The shared shape of `task_set_status`, `task_update_text` and `task_update_due`. */
    method EditTask(assignee: string, taskId: string, e: Edit) returns (ok: bool)
      requires Valid()
      modifies this, outbox
      ensures Valid() && nextId == old(nextId)
      ensures ok == Locate(old(tasks), assignee, taskId).Some?
      ensures !ok ==> tasks == old(tasks) && outbox.rows == old(outbox.rows)
      ensures ok ==>
        var k := Locate(old(tasks), assignee, taskId).value;
        && tasks == old(tasks)[k := ApplyEdit(old(tasks)[k], e)]
        && outbox.rows == old(outbox.rows) + [OutboxRow(old(outbox.nextId), EditEvent(assignee, old(tasks)[k].id, e), None, None)]
    {
      var tid := ParseInt(taskId);
      if tid.None? {
        return false;
      }
      var k := FindTask(tasks, assignee, tid.value);
      if k.None? {
        return false;
      }
      var t := tasks[k.value];
      tasks := tasks[k.value := ApplyEdit(t, e)];
      outbox.Add(EditEvent(assignee, tid.value, e));
      ok := true;
    }

    /** `task_set_status` */
    method SetStatus(assignee: string, taskId: string, status: string) returns (ok: bool)
      requires Valid()
      modifies this, outbox
      ensures Valid() && nextId == old(nextId)
      ensures ok == Locate(old(tasks), assignee, taskId).Some?
      ensures !ok ==> tasks == old(tasks) && outbox.rows == old(outbox.rows)
      ensures ok ==>
        var k := Locate(old(tasks), assignee, taskId).value;
        && tasks == old(tasks)[k := old(tasks)[k].(status := status)]
        && outbox.rows == old(outbox.rows) + [OutboxRow(old(outbox.nextId), TaskStatus(assignee, old(tasks)[k].id, status), None, None)]
    {
      ok := EditTask(assignee, taskId, NewStatus(status));
    }

    /** `task_update_text` */
    method UpdateText(assignee: string, taskId: string, newText: string) returns (ok: bool)
      requires Valid()
      modifies this, outbox
      ensures Valid() && nextId == old(nextId)
      ensures ok == Locate(old(tasks), assignee, taskId).Some?
      ensures !ok ==> tasks == old(tasks) && outbox.rows == old(outbox.rows)
      ensures ok ==>
        var k := Locate(old(tasks), assignee, taskId).value;
        && tasks == old(tasks)[k := old(tasks)[k].(taskText := newText)]
        && outbox.rows == old(outbox.rows) + [OutboxRow(old(outbox.nextId), TaskText(assignee, old(tasks)[k].id, newText), None, None)]
    {
      ok := EditTask(assignee, taskId, NewText(newText));
    }

    /** `task_update_due`: unparseable due text clears the due date. */
    method UpdateDue(assignee: string, taskId: string, dueStr: string) returns (ok: bool)
      requires Valid()
      modifies this, outbox
      ensures Valid() && nextId == old(nextId)
      ensures ok == Locate(old(tasks), assignee, taskId).Some?
      ensures !ok ==> tasks == old(tasks) && outbox.rows == old(outbox.rows)
      ensures ok ==>
        var k := Locate(old(tasks), assignee, taskId).value;
        && tasks == old(tasks)[k := old(tasks)[k].(dueAt := ParseDueStr(dueStr))]
        && outbox.rows == old(outbox.rows) +
             [OutboxRow(old(outbox.nextId), TaskDue(assignee, old(tasks)[k].id, DueToStr(ParseDueStr(dueStr))), None, None)]
    {
      ok := EditTask(assignee, taskId, NewDue(ParseDueStr(dueStr)));
    }

    /** `task_delete` */
    method Delete(assignee: string, taskId: string) returns (ok: bool)
      requires Valid()
      modifies this, outbox
      ensures Valid() && nextId == old(nextId)
      ensures ok == Locate(old(tasks), assignee, taskId).Some?
      ensures !ok ==> tasks == old(tasks) && outbox.rows == old(outbox.rows)
      ensures ok ==>
        var k := Locate(old(tasks), assignee, taskId).value;
        && tasks == old(tasks)[..k] + old(tasks)[k + 1..]
        && outbox.rows == old(outbox.rows) + [OutboxRow(old(outbox.nextId), TaskDelete(assignee, old(tasks)[k].id), None, None)]
    {
      var tid := ParseInt(taskId);
      if tid.None? {
        return false;
      }
      var k := FindTask(tasks, assignee, tid.value);
      if k.None? {
        return false;
      }
      TaskKeysRemove(tasks, nextId, k.value);
      tasks := tasks[..k.value] + tasks[k.value + 1..];
      outbox.Add(TaskDelete(assignee, tid.value));
      ok := true;
    }

    /** The loop of `archive_done_before` that moves the selected rows to ARCHIVE. */
    method Sweep(cutoff: DateTime) returns (count: nat)
      modifies this
      ensures tasks == ArchiveAll(old(tasks), cutoff) && count == ArchiveCount(old(tasks), cutoff)
      ensures nextId == old(nextId)
    {
      ghost var before := tasks;
      count := 0;
      for i := 0 to |tasks|
        invariant |tasks| == |before| && nextId == old(nextId)
        invariant tasks == ArchiveAll(before[..i], cutoff) + before[i..]
        invariant count == ArchiveCount(before[..i], cutoff)
      {
        ArchiveStep(before, i, cutoff);
        SpliceAt(ArchiveAll(before[..i], cutoff), before[i..], ArchiveOne(before[i], cutoff));
        assert before[i..][1..] == before[i + 1..];
        if Archivable(tasks[i], cutoff) {
          tasks := tasks[i := tasks[i].(status := StatusArchive)];
          count := count + 1;
        } else {
          assert tasks == tasks[i := ArchiveOne(before[i], cutoff)];
        }
      }
      assert before[..|before|] == before;
    }

    /**
     * `archive_done_before`: every DONE task due strictly before the cutoff
     * becomes ARCHIVE; one batch event follows only when some row changed.
     */
    method ArchiveDoneBefore(cutoff: DateTime) returns (count: nat)
      requires Valid()
      modifies this, outbox
      ensures Valid() && nextId == old(nextId)
      ensures tasks == ArchiveAll(old(tasks), cutoff) && count == ArchiveCount(old(tasks), cutoff)
      ensures count == 0 ==> outbox.rows == old(outbox.rows)
      ensures count > 0 ==> outbox.rows == old(outbox.rows) + [OutboxRow(old(outbox.nextId), TaskArchiveBatch(cutoff, Personal), None, None)]
    {
      ArchiveKeepsKeys(tasks, nextId, cutoff);
      count := Sweep(cutoff);
      if count == 0 {
        return;
      }
      outbox.Add(TaskArchiveBatch(cutoff, Personal));
    }
  }

  // ----- properties -----

  lemma ArchiveKeepsKeys(ts: seq<Task>, next: int, cutoff: DateTime)
    requires TaskKeys(ts, next)
    ensures TaskKeys(ArchiveAll(ts, cutoff), next)
  {
  }

  lemma SpliceAt<T>(a: seq<T>, b: seq<T>, x: T)
    requires |b| > 0
    ensures (a + b)[|a| := x] == a + [x] + b[1..]
  {
  }

  /** Dropping a row keeps the remaining keys ascending. */
  lemma TaskKeysRemove(ts: seq<Task>, next: int, k: int)
    requires TaskKeys(ts, next) && 0 <= k < |ts|
    ensures TaskKeys(ts[..k] + ts[k + 1..], next)
  {
    var r := ts[..k] + ts[k + 1..];
    forall i, j | 0 <= i < j < |r|
      ensures r[i].id < r[j].id
    {
      var i' := if i < k then i else i + 1;
      var j' := if j < k then j else j + 1;
      assert r[i] == ts[i'] && r[j] == ts[j'];
    }
  }

  /**
   * The lookup succeeds exactly for a well-formed integer id naming a task of
   * that same assignee; the id alone is not enough.
   */
  lemma LocateIff(ts: seq<Task>, next: int, assignee: string, taskId: string, k: nat)
    requires TaskKeys(ts, next) && k < |ts|
    ensures Locate(ts, assignee, taskId) == Some(k) <==> ParseInt(taskId) == Some(ts[k].id) && ts[k].assigneeName == assignee
  {
    match ParseInt(taskId)
    case None =>
    case Some(tid) =>
      FindTaskIff(ts, next, assignee, tid, k);
  }

  lemma FindTaskIff(ts: seq<Task>, next: int, assignee: string, id: int, k: nat)
    requires TaskKeys(ts, next) && k < |ts|
    ensures FindTask(ts, assignee, id) == Some(k) <==> ts[k].id == id && ts[k].assigneeName == assignee
  {
    if ts[k].id == id && ts[k].assigneeName == assignee {
      var r := FindTask(ts, assignee, id);
      assert r.Some?;
      TaskKeysUnique(ts, next, r.value, k);
    }
  }

  /** Text that is not an integer finds nothing, so no row changes and no event follows. */
  lemma LocateNeedsInteger(ts: seq<Task>, assignee: string, taskId: string)
    requires ParseInt(taskId).None?
    ensures Locate(ts, assignee, taskId).None?
  {
  }

  lemma {:induction false} SelectedMembers(ts: seq<Task>, assignee: string, t: Task)
    ensures t in Selected(ts, assignee) <==> t in ts && t.assigneeName == assignee
  {
    if ts != [] {
      var init := ts[..|ts| - 1];
      SelectedMembers(init, assignee, t);
      assert ts == init + [ts[|ts| - 1]];
    }
  }

  lemma {:induction false} SelectedDescending(ts: seq<Task>, next: int, assignee: string)
    requires TaskKeys(ts, next)
    ensures var s := Selected(ts, assignee);
      forall i, j :: 0 <= i < j < |s| ==> s[i].id > s[j].id
  {
    if ts != [] {
      var init := ts[..|ts| - 1];
      SelectedDescending(init, next, assignee);
      var rest := Selected(init, assignee);
      forall j | 0 <= j < |rest|
        ensures ts[|ts| - 1].id > rest[j].id
      {
        SelectedMembers(init, assignee, rest[j]);
        var m :| 0 <= m < |init| && init[m] == rest[j];
        assert ts[m].id < ts[|ts| - 1].id;
      }
    }
  }

  /**
   * `tasks_list(a)` lists exactly the tasks assigned to `a`, newest (highest
   * id) first, and each dict's task_id reads back as the row's id.
   */
  lemma ListProperties(ts: seq<Task>, next: int, assignee: string)
    requires TaskKeys(ts, next)
    ensures var s := Selected(ts, assignee);
      && (forall t :: t in s <==> t in ts && t.assigneeName == assignee)
      && (forall i, j :: 0 <= i < j < |s| ==> s[i].id > s[j].id)
      && (forall k :: 0 <= k < |s| ==> ParseInt(Dicts(s)[k].taskId) == Some(s[k].id))
  {
    var s := Selected(ts, assignee);
    forall t
      ensures t in s <==> t in ts && t.assigneeName == assignee
    {
      SelectedMembers(ts, assignee, t);
    }
    SelectedDescending(ts, next, assignee);
    forall k | 0 <= k < |s|
      ensures ParseInt(Dicts(s)[k].taskId) == Some(s[k].id)
    {
      IntRoundTrip(s[k].id);
    }
  }

  /** One more row of the sweep: the prefix result grows by that row, archived or not. */
  lemma ArchiveStep(ts: seq<Task>, i: nat, cutoff: DateTime)
    requires i < |ts|
    ensures ArchiveAll(ts[..i + 1], cutoff) == ArchiveAll(ts[..i], cutoff) + [ArchiveOne(ts[i], cutoff)]
    ensures ArchiveCount(ts[..i + 1], cutoff) == ArchiveCount(ts[..i], cutoff) + (if Archivable(ts[i], cutoff) then 1 else 0)
  {
    assert ts[..i + 1][..i] == ts[..i];
  }

  /** A task due exactly at the cutoff is not archived: the comparison is strict. */
  lemma ArchiveIsStrict(t: Task, cutoff: DateTime)
    requires t.dueAt == Some(cutoff)
    ensures ArchiveOne(t, cutoff) == t
  {
    BeforeIrreflexive(cutoff);
  }

  lemma BeforeIrreflexive(d: DateTime)
    ensures !Before(d, d)
  {
  }

  /** The sweep reports a positive count exactly when it changed some row. */
  lemma {:induction false} ArchiveCountZeroIff(ts: seq<Task>, cutoff: DateTime)
    ensures ArchiveCount(ts, cutoff) == 0 <==> ArchiveAll(ts, cutoff) == ts
  {
    if ts != [] {
      var init := ts[..|ts| - 1];
      ArchiveCountZeroIff(init, cutoff);
      if ArchiveAll(ts, cutoff) == ts {
        assert ArchiveAll(init, cutoff) == ArchiveAll(ts, cutoff)[..|ts| - 1];
      }
      if ArchiveCount(ts, cutoff) == 0 {
        assert ts == init + [ts[|ts| - 1]];
      }
      if Archivable(ts[|ts| - 1], cutoff) {
        assert ArchiveAll(ts, cutoff)[|ts| - 1].status != ts[|ts| - 1].status;
      }
    }
  }

  /** A second sweep with the same cutoff changes nothing and emits no event. */
  lemma ArchiveIdempotent(ts: seq<Task>, cutoff: DateTime)
    ensures ArchiveAll(ArchiveAll(ts, cutoff), cutoff) == ArchiveAll(ts, cutoff)
    ensures ArchiveCount(ArchiveAll(ts, cutoff), cutoff) == 0
  {
    var a := ArchiveAll(ts, cutoff);
    assert forall k :: 0 <= k < |a| ==> ArchiveOne(a[k], cutoff) == a[k];
    ArchiveCountZeroIff(a, cutoff);
  }

  /** `task_update_due` with text that holds no digit clears the due date. */
  lemma GarbageDueClears(t: Task, dueStr: string)
    requires forall k :: 0 <= k < |dueStr| ==> !IsDigit(dueStr[k])
    ensures ApplyEdit(t, NewDue(ParseDueStr(dueStr))).dueAt == None
  {
    ParseWithoutDigits(dueStr);
  }
}
