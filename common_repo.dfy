/**
 * Common tasks (one row per task, shared by everybody) and the progress rows
 * recording who has completed which of them.
 */
module CommonRepo {
  import opened Wrappers
  import opened Config
  import opened Text
  import opened Due
  import opened Models
  import opened OutboxStore
  import opened TasksRepo

  function CommonToDict(t: CommonTask): TaskDict {
    TaskDict(IntToString(t.id), t.taskText, t.fromName, DueToStr(t.dueAt), t.status, t.createdAt + "Z")
  }

  function CommonDicts(ts: seq<CommonTask>): (r: seq<TaskDict>)
    ensures |r| == |ts| && forall k :: 0 <= k < |ts| ==> r[k] == CommonToDict(ts[k])
  {
    if ts == [] then [] else CommonDicts(ts[..|ts| - 1]) + [CommonToDict(ts[|ts| - 1])]
  }

  /** `SELECT ... ORDER BY id DESC`, the table being in ascending id order. */
  function NewestFirst(ts: seq<CommonTask>): (r: seq<CommonTask>)
    ensures |r| == |ts|
  {
    if ts == [] then [] else [ts[|ts| - 1]] + NewestFirst(ts[..|ts| - 1])
  }

  /** The progress row for (task, user), if there is one. */
  function FindProgress(ps: seq<CommonProgress>, taskId: int, user: string): (r: Option<nat>)
    ensures r.Some? ==> r.value < |ps| && ps[r.value].taskId == taskId && ps[r.value].userName == user
    ensures r.None? ==> forall k :: 0 <= k < |ps| ==> !(ps[k].taskId == taskId && ps[k].userName == user)
  {
    if ps == [] then None
    else if ps[|ps| - 1].taskId == taskId && ps[|ps| - 1].userName == user then Some(|ps| - 1)
    else FindProgress(ps[..|ps| - 1], taskId, user)
  }

  /** `common_progress_is_done` */
  predicate IsDone(ps: seq<CommonProgress>, taskId: int, user: string)
    ensures IsDone(ps, taskId, user) ==>
      exists k :: 0 <= k < |ps| && ps[k].taskId == taskId && ps[k].userName == user && ps[k].status == StatusDone
  {
    var k := FindProgress(ps, taskId, user);
    k.Some? && ps[k.value].status == StatusDone
  }

  /**
   * The progress rows after `common_progress_set_done` for an integer id:
   * the existing pair's row becomes DONE, else a new DONE row is inserted;
   * None when the insert would break the foreign key.
   */
  function SetDoneRows(ts: seq<CommonTask>, ps: seq<CommonProgress>, taskId: int, user: string, now: string, nextId: int): (r: Option<seq<CommonProgress>>)
    ensures r.Some? ==> |ps| <= |r.value| <= |ps| + 1
    ensures r.Some? ==> forall k :: 0 <= k < |ps| ==>
      r.value[k].id == ps[k].id && r.value[k].taskId == ps[k].taskId && r.value[k].userName == ps[k].userName
  {
    match FindProgress(ps, taskId, user)
    case Some(k) => Some(ps[k := ps[k].(status := StatusDone, updatedAt := now)])
    case None =>
      if HasCommonTask(ts, taskId) then Some(ps + [CommonProgress(nextId, taskId, user, StatusDone, now)]) else None
  }

  predicate CommonArchivable(t: CommonTask, cutoff: DateTime) {
    t.status == StatusDone && t.dueAt.Some? && Before(t.dueAt.value, cutoff)
  }

  function CommonArchiveOne(t: CommonTask, cutoff: DateTime): CommonTask {
    if CommonArchivable(t, cutoff) then t.(status := StatusArchive) else t
  }

  function CommonArchiveAll(ts: seq<CommonTask>, cutoff: DateTime): (r: seq<CommonTask>)
    ensures |r| == |ts| && forall k :: 0 <= k < |ts| ==> r[k] == CommonArchiveOne(ts[k], cutoff)
  {
    if ts == [] then [] else CommonArchiveAll(ts[..|ts| - 1], cutoff) + [CommonArchiveOne(ts[|ts| - 1], cutoff)]
  }

  function CommonArchiveCount(ts: seq<CommonTask>, cutoff: DateTime): nat {
    if ts == [] then 0
    else CommonArchiveCount(ts[..|ts| - 1], cutoff) + (if CommonArchivable(ts[|ts| - 1], cutoff) then 1 else 0)
  }

  class CommonRepo {
    var commonTasks: seq<CommonTask>
    var nextTaskId: int
    var progress: seq<CommonProgress>
    var nextProgressId: int
    const outbox: Outbox

    ghost predicate Valid()
      reads this, outbox
    {
      && nextTaskId >= 1 && CommonTaskKeys(commonTasks, nextTaskId)
      && nextProgressId >= 1 && ProgressKeys(progress, nextProgressId)
      && UniqueProgressPairs(progress)
      && ProgressReferencesTasks(commonTasks, progress)
      && outbox.Valid()
    }

    constructor(outbox: Outbox)
      requires outbox.Valid()
      ensures Valid() && commonTasks == [] && progress == [] && this.outbox == outbox
    {
      commonTasks := [];
      nextTaskId := 1;
      progress := [];
      nextProgressId := 1;
      this.outbox := outbox;
    }

    /** `common_task_create`: one new row, then one COMMON_CREATED event. */
    method Create(text: string, fromName: string, dueStr: string, status: string, now: string) returns (id: int)
      requires Valid()
      modifies this, outbox
      ensures Valid()
      ensures id == old(nextTaskId) && nextTaskId == id + 1
      ensures commonTasks == old(commonTasks) + [CommonTask(id, text, fromName, ParseDueStr(dueStr), StatusOrTodo(status), now)]
      ensures progress == old(progress) && nextProgressId == old(nextProgressId)
      ensures outbox.rows == old(outbox.rows) +
        [OutboxRow(old(outbox.nextId), CommonCreated(id, text, fromName, DueToStr(ParseDueStr(dueStr)), StatusOrTodo(status)), None, None)]
    {
      var due := ParseDueStr(dueStr);
      var t := CommonTask(nextTaskId, text, fromName, due, StatusOrTodo(status), now);
      ReferencesGrow(commonTasks, progress, t);
      commonTasks := commonTasks + [t];
      id := nextTaskId;
      nextTaskId := nextTaskId + 1;
      outbox.Add(CommonCreated(id, text, fromName, DueToStr(due), StatusOrTodo(status)));
    }

    /** `common_tasks_list`: every common task, newest first, as dicts. */
    method List() returns (out: seq<TaskDict>)
      ensures out == CommonDicts(NewestFirst(commonTasks))
    {
      var rows := NewestFirst(commonTasks);
      out := CommonDicts(rows);
    }

    /**
     * `common_progress_set_done`: a non-integer id raises before any change;
     * a missing task makes the insert violate the foreign key; otherwise the
     * pair's row is DONE and one COMMON_PROGRESS event follows, on every call.
     */
    method SetDone(taskId: string, user: string, now: string) returns (r: Outcome)
      requires Valid()
      modifies this, outbox
      ensures Valid()
      ensures commonTasks == old(commonTasks) && nextTaskId == old(nextTaskId)
      ensures ParseInt(taskId).None? ==> r.Fail? && unchanged(this) && unchanged(outbox)
      ensures ParseInt(taskId).Some? ==>
        var tid := ParseInt(taskId).value;
        match SetDoneRows(old(commonTasks), old(progress), tid, user, now, old(nextProgressId))
        case None => r.Fail? && unchanged(this) && unchanged(outbox)
        case Some(ps) =>
          && r == Pass && progress == ps
          && outbox.rows == old(outbox.rows) + [OutboxRow(old(outbox.nextId), CommonProgressSet(tid, user, StatusDone), None, None)]
    {
      var parsed := ParseInt(taskId);
      if parsed.None? {
        return Fail("ValueError: invalid literal for int()");
      }
      var tid := parsed.value;
      var k := FindProgress(progress, tid, user);
      if k.Some? {
        UpdateKeepsInvariants(commonTasks, progress, nextProgressId, k.value, now);
        progress := progress[k.value := progress[k.value].(status := StatusDone, updatedAt := now)];
      } else if !HasCommonTask(commonTasks, tid) {
        return Fail("IntegrityError: common_progress.task_id violates foreign key");
      } else {
        InsertKeepsInvariants(commonTasks, progress, nextProgressId, tid, user, now);
        progress := progress + [CommonProgress(nextProgressId, tid, user, StatusDone, now)];
        nextProgressId := nextProgressId + 1;
      }
      outbox.Add(CommonProgressSet(tid, user, StatusDone));
      r := Pass;
    }

    /** The loop of `archive_common_done_before`. */
    method Sweep(cutoff: DateTime) returns (count: nat)
      modifies this
      ensures commonTasks == CommonArchiveAll(old(commonTasks), cutoff) && count == CommonArchiveCount(old(commonTasks), cutoff)
      ensures nextTaskId == old(nextTaskId) && progress == old(progress) && nextProgressId == old(nextProgressId)
    {
      ghost var before := commonTasks;
      count := 0;
      for i := 0 to |commonTasks|
        invariant |commonTasks| == |before|
        invariant nextTaskId == old(nextTaskId) && progress == old(progress) && nextProgressId == old(nextProgressId)
        invariant commonTasks == CommonArchiveAll(before[..i], cutoff) + before[i..]
        invariant count == CommonArchiveCount(before[..i], cutoff)
      {
        CommonArchiveStep(before, i, cutoff);
        SpliceAt(CommonArchiveAll(before[..i], cutoff), before[i..], CommonArchiveOne(before[i], cutoff));
        assert before[i..][1..] == before[i + 1..];
        if CommonArchivable(commonTasks[i], cutoff) {
          commonTasks := commonTasks[i := commonTasks[i].(status := StatusArchive)];
          count := count + 1;
        } else {
          assert commonTasks == commonTasks[i := CommonArchiveOne(before[i], cutoff)];
        }
      }
      assert before[..|before|] == before;
    }

    /** `archive_common_done_before`: as for personal tasks, with an event of type "common". */
    method ArchiveDoneBefore(cutoff: DateTime) returns (count: nat)
      requires Valid()
      modifies this, outbox
      ensures Valid()
      ensures commonTasks == CommonArchiveAll(old(commonTasks), cutoff) && count == CommonArchiveCount(old(commonTasks), cutoff)
      ensures progress == old(progress)
      ensures count == 0 ==> outbox.rows == old(outbox.rows)
      ensures count > 0 ==> outbox.rows == old(outbox.rows) + [OutboxRow(old(outbox.nextId), TaskArchiveBatch(cutoff, Common), None, None)]
    {
      CommonArchiveKeeps(commonTasks, progress, nextTaskId, cutoff);
      count := Sweep(cutoff);
      if count == 0 {
        return;
      }
      outbox.Add(TaskArchiveBatch(cutoff, Common));
    }
  }

  // ----- properties -----

  lemma ReferencesGrow(ts: seq<CommonTask>, ps: seq<CommonProgress>, t: CommonTask)
    requires ProgressReferencesTasks(ts, ps)
    ensures ProgressReferencesTasks(ts + [t], ps)
  {
    forall k | 0 <= k < |ps|
      ensures HasCommonTask(ts + [t], ps[k].taskId)
    {
      var m :| 0 <= m < |ts| && ts[m].id == ps[k].taskId;
      assert (ts + [t])[m] == ts[m];
    }
  }

  lemma UpdateKeepsInvariants(ts: seq<CommonTask>, ps: seq<CommonProgress>, next: int, k: nat, now: string)
    requires ProgressKeys(ps, next) && UniqueProgressPairs(ps) && ProgressReferencesTasks(ts, ps) && k < |ps|
    ensures var ps' := ps[k := ps[k].(status := StatusDone, updatedAt := now)];
      ProgressKeys(ps', next) && UniqueProgressPairs(ps') && ProgressReferencesTasks(ts, ps')
  {
    var ps' := ps[k := ps[k].(status := StatusDone, updatedAt := now)];
    assert forall m :: 0 <= m < |ps| ==> ps'[m].taskId == ps[m].taskId && ps'[m].userName == ps[m].userName && ps'[m].id == ps[m].id;
  }

  lemma InsertUnique(ps: seq<CommonProgress>, p: CommonProgress)
    requires UniqueProgressPairs(ps) && FindProgress(ps, p.taskId, p.userName).None?
    ensures UniqueProgressPairs(ps + [p])
  {
  }

  lemma InsertKeepsInvariants(ts: seq<CommonTask>, ps: seq<CommonProgress>, next: int, tid: int, user: string, now: string)
    requires ProgressKeys(ps, next) && next >= 1 && UniqueProgressPairs(ps) && ProgressReferencesTasks(ts, ps)
    requires FindProgress(ps, tid, user).None? && HasCommonTask(ts, tid)
    ensures var ps' := ps + [CommonProgress(next, tid, user, StatusDone, now)];
      ProgressKeys(ps', next + 1) && UniqueProgressPairs(ps') && ProgressReferencesTasks(ts, ps')
  {
  }

  lemma CommonArchiveStep(ts: seq<CommonTask>, i: nat, cutoff: DateTime)
    requires i < |ts|
    ensures CommonArchiveAll(ts[..i + 1], cutoff) == CommonArchiveAll(ts[..i], cutoff) + [CommonArchiveOne(ts[i], cutoff)]
    ensures CommonArchiveCount(ts[..i + 1], cutoff) == CommonArchiveCount(ts[..i], cutoff) + (if CommonArchivable(ts[i], cutoff) then 1 else 0)
  {
    assert ts[..i + 1][..i] == ts[..i];
  }

  lemma CommonArchiveKeeps(ts: seq<CommonTask>, ps: seq<CommonProgress>, next: int, cutoff: DateTime)
    requires CommonTaskKeys(ts, next) && ProgressReferencesTasks(ts, ps)
    ensures CommonTaskKeys(CommonArchiveAll(ts, cutoff), next) && ProgressReferencesTasks(CommonArchiveAll(ts, cutoff), ps)
  {
    var a := CommonArchiveAll(ts, cutoff);
    forall k | 0 <= k < |ps|
      ensures HasCommonTask(a, ps[k].taskId)
    {
      var m :| 0 <= m < |ts| && ts[m].id == ps[k].taskId;
      assert a[m].id == ts[m].id;
    }
  }

  /** `common_progress_is_done` holds exactly when a DONE row exists for the pair. */
  lemma IsDoneIff(ps: seq<CommonProgress>, taskId: int, user: string)
    requires UniqueProgressPairs(ps)
    ensures IsDone(ps, taskId, user) <==>
      exists k :: 0 <= k < |ps| && ps[k].taskId == taskId && ps[k].userName == user && ps[k].status == StatusDone
  {
    if exists k :: 0 <= k < |ps| && ps[k].taskId == taskId && ps[k].userName == user && ps[k].status == StatusDone {
      var k :| 0 <= k < |ps| && ps[k].taskId == taskId && ps[k].userName == user && ps[k].status == StatusDone;
      var f := FindProgress(ps, taskId, user);
      assert f.Some?;
      assert f.value == k;
    }
  }

  /** After a successful `common_progress_set_done` the pair reads as done. */
  lemma SetDoneThenIsDone(ts: seq<CommonTask>, ps: seq<CommonProgress>, taskId: int, user: string, now: string, next: int)
    requires UniqueProgressPairs(ps) && ProgressKeys(ps, next)
    requires SetDoneRows(ts, ps, taskId, user, now, next).Some?
    ensures IsDone(SetDoneRows(ts, ps, taskId, user, now, next).value, taskId, user)
  {
    var ps' := SetDoneRows(ts, ps, taskId, user, now, next).value;
    var f := FindProgress(ps, taskId, user);
    var k := if f.Some? then f.value else |ps|;
    assert ps'[k].taskId == taskId && ps'[k].userName == user && ps'[k].status == StatusDone;
    if f.None? {
      InsertUnique(ps, CommonProgress(next, taskId, user, StatusDone, now));
    } else {
      assert forall m :: 0 <= m < |ps| ==> ps'[m].taskId == ps[m].taskId && ps'[m].userName == ps[m].userName;
    }
    IsDoneIff(ps', taskId, user);
  }

  /**
   * Repeating `common_progress_set_done` adds no further row: the second call
   * finds the pair and only restamps it (while still emitting an event).
   */
  lemma SetDoneTwiceNoGrowth(ts: seq<CommonTask>, ps: seq<CommonProgress>, taskId: int, user: string, now1: string, now2: string, next: int)
    requires SetDoneRows(ts, ps, taskId, user, now1, next).Some?
    ensures var ps1 := SetDoneRows(ts, ps, taskId, user, now1, next).value;
      var again := SetDoneRows(ts, ps1, taskId, user, now2, next + 1);
      again.Some? && |again.value| == |ps1|
  {
    var ps1 := SetDoneRows(ts, ps, taskId, user, now1, next).value;
    var f := FindProgress(ps, taskId, user);
    var k := if f.Some? then f.value else |ps|;
    assert ps1[k].taskId == taskId && ps1[k].userName == user;
    assert FindProgress(ps1, taskId, user).Some?;
  }

  lemma {:induction false} NewestFirstAt(ts: seq<CommonTask>, k: nat)
    requires k < |ts|
    ensures NewestFirst(ts)[k] == ts[|ts| - 1 - k]
  {
    if k > 0 {
      NewestFirstAt(ts[..|ts| - 1], k - 1);
    }
  }

  /**
   * `common_tasks_list` holds every common task once, newest (highest id)
   * first, and each dict's task_id reads back as the row's id.
   */
  lemma ListProperties(ts: seq<CommonTask>, next: int)
    requires CommonTaskKeys(ts, next)
    ensures var s := NewestFirst(ts);
      && (forall k :: 0 <= k < |ts| ==> s[k] == ts[|ts| - 1 - k])
      && (forall i, j :: 0 <= i < j < |s| ==> s[i].id > s[j].id)
      && (forall k :: 0 <= k < |s| ==> ParseInt(CommonDicts(s)[k].taskId) == Some(s[k].id))
  {
    var s := NewestFirst(ts);
    forall k | 0 <= k < |ts|
      ensures s[k] == ts[|ts| - 1 - k]
    {
      NewestFirstAt(ts, k);
    }
    forall k | 0 <= k < |s|
      ensures ParseInt(CommonDicts(s)[k].taskId) == Some(s[k].id)
    {
      IntRoundTrip(s[k].id);
    }
  }

  /** The common sweep is strict in the cutoff and a second sweep changes nothing. */
  lemma CommonArchiveIdempotent(ts: seq<CommonTask>, cutoff: DateTime)
    ensures CommonArchiveAll(CommonArchiveAll(ts, cutoff), cutoff) == CommonArchiveAll(ts, cutoff)
    ensures CommonArchiveCount(CommonArchiveAll(ts, cutoff), cutoff) == 0
    ensures forall k :: 0 <= k < |ts| && ts[k].dueAt == Some(cutoff) ==> CommonArchiveAll(ts, cutoff)[k] == ts[k]
  {
    var a := CommonArchiveAll(ts, cutoff);
    assert forall k :: 0 <= k < |a| ==> CommonArchiveOne(a[k], cutoff) == a[k];
    CommonCountZero(a, cutoff);
    forall k | 0 <= k < |ts| && ts[k].dueAt == Some(cutoff)
      ensures a[k] == ts[k]
    {
      BeforeIrreflexive(cutoff);
    }
  }

  lemma {:induction false} CommonCountZero(ts: seq<CommonTask>, cutoff: DateTime)
    requires forall k :: 0 <= k < |ts| ==> !CommonArchivable(ts[k], cutoff)
    ensures CommonArchiveCount(ts, cutoff) == 0
  {
    if ts != [] {
      CommonCountZero(ts[..|ts| - 1], cutoff);
    }
  }
}
