/**
 * One pass of the sync worker: make sure the mirror's worksheets exist,
 * fetch the oldest unprocessed outbox rows (at most 200), apply them one
 * at a time, record the error of each one that raises, and stamp the ones
 * that went through as processed in a single update.
 *
 * The spreadsheet client can raise for reasons the model does not see
 * (network, quota, permissions); `failing` maps the outbox ids whose
 * application raises that way to the exception text.
 */
module SyncWorker {
  import opened Wrappers
  import opened Config
  import opened Models
  import opened Sheets
  import opened OutboxStore
  import opened UsersRepo
  import opened MirrorSchema
  import opened MirrorApply
  import TasksRepo
  import Due
  import Text

  /** The mirror after applying a batch event by event, and each event's outcome. */
  datatype Drain = Drain(sheets: map<string, Grid>, outcomes: seq<Outcome>)

  /** How one event is applied to the mirror. */
  type Applier = (map<string, Grid>, OutboxRow) -> Applied

  /** `apply_events([(id, type, payload)])` for one row: the client's own failure, else the dispatch. */
  function ApplyOne(sheets: map<string, Grid>, row: OutboxRow, failing: map<int, string>): (r: Applied)
    ensures r.Applied? ==> row.id !in failing && r.sheets.Keys == sheets.Keys
  {
    if row.id in failing then Raised(failing[row.id]) else ApplySpec(sheets, row.event)
  }

  /** The worker's applier when the client raises for the ids in `failing`. */
  function Client(failing: map<int, string>): Applier {
    (sheets: map<string, Grid>, row: OutboxRow) => ApplyOne(sheets, row, failing)
  }

  /**
   * The mirror and the outcomes after applying `batch` in order with
   * `apply`; a raising event writes nothing.
   */
  function DrainSpec(sheets: map<string, Grid>, batch: seq<OutboxRow>, apply: Applier): (d: Drain)
    ensures |d.outcomes| == |batch|
  {
    if batch == [] then Drain(sheets, [])
    else
      var d := DrainSpec(sheets, batch[..|batch| - 1], apply);
      match apply(d.sheets, batch[|batch| - 1])
      case Applied(s) => Drain(s, d.outcomes + [Pass])
      case Raised(m) => Drain(d.sheets, d.outcomes + [Fail(m)])
  }

  /** The ids appended to `processed_ids`: those of the rows that went through, in batch order. */
  function PassedIds(batch: seq<OutboxRow>, outs: seq<Outcome>): seq<int>
    requires |outs| == |batch|
  {
    if batch == [] then []
    else PassedIds(batch[..|batch| - 1], outs[..|outs| - 1])
         + (if outs[|outs| - 1].Pass? then [batch[|batch| - 1].id] else [])
  }

  /** The `outbox_mark_error(id, str(ex))` calls made, in batch order. */
  function Failures(batch: seq<OutboxRow>, outs: seq<Outcome>): seq<(int, string)>
    requires |outs| == |batch|
  {
    if batch == [] then []
    else Failures(batch[..|batch| - 1], outs[..|outs| - 1])
         + (if outs[|outs| - 1].Fail? then [(batch[|batch| - 1].id, outs[|outs| - 1].error)] else [])
  }

  /** The outbox rows after the error calls `errs`, made in order. */
  function MarkErrorsAll(rows: seq<OutboxRow>, errs: seq<(int, string)>): (r: seq<OutboxRow>)
    ensures |r| == |rows|
  {
    if errs == [] then rows
    else MarkErrorRows(MarkErrorsAll(rows, errs[..|errs| - 1]), errs[|errs| - 1].0, errs[|errs| - 1].1)
  }

  /** The message of the last error call for `id`, if any. */
  function LastError(errs: seq<(int, string)>, id: int): Option<string> {
    if errs == [] then None
    else if errs[|errs| - 1].0 == id then Some(errs[|errs| - 1].1)
    else LastError(errs[..|errs| - 1], id)
  }

  /** `list(users_map.keys())`: the user names, in table order. */
  function UserSheetNames(us: seq<User>): (r: seq<string>)
    ensures |r| == |us| && forall i :: 0 <= i < |us| ==> r[i] == us[i].name
  {
    seq(|us|, i requires 0 <= i < |us| => us[i].name)
  }

  /** One more event of the batch: its outcome is appended, and the mirror, the ids and the errors follow it. */
  lemma DrainStep(sheets: map<string, Grid>, batch: seq<OutboxRow>, i: nat, apply: Applier)
    requires i < |batch|
    ensures var d := DrainSpec(sheets, batch[..i], apply);
      var d' := DrainSpec(sheets, batch[..i + 1], apply);
      var id := batch[i].id;
      match apply(d.sheets, batch[i])
      case Applied(s) =>
        && d'.sheets == s && d'.outcomes == d.outcomes + [Pass]
        && PassedIds(batch[..i + 1], d'.outcomes) == PassedIds(batch[..i], d.outcomes) + [id]
        && Failures(batch[..i + 1], d'.outcomes) == Failures(batch[..i], d.outcomes)
      case Raised(m) =>
        && d'.sheets == d.sheets && d'.outcomes == d.outcomes + [Fail(m)]
        && PassedIds(batch[..i + 1], d'.outcomes) == PassedIds(batch[..i], d.outcomes)
        && Failures(batch[..i + 1], d'.outcomes) == Failures(batch[..i], d.outcomes) + [(id, m)]
  {
    assert batch[..i + 1][..i] == batch[..i];
    var d := DrainSpec(sheets, batch[..i], apply);
    var d' := DrainSpec(sheets, batch[..i + 1], apply);
    assert d'.outcomes[..i] == d.outcomes;
  }

  /** The loop's state after the first `i` events of `batch`, applied to `base` from outbox rows `rows0`. */
  ghost predicate Drained(outbox: Outbox, ss: Spreadsheet, base: map<string, Grid>, rows0: seq<OutboxRow>,
                          batch: seq<OutboxRow>, failing: map<int, string>, i: nat, processed: seq<int>)
    reads outbox, ss
    requires i <= |batch|
  {
    var d := DrainSpec(base, batch[..i], Client(failing));
    && outbox.Valid()
    && ss.sheets == d.sheets
    && processed == PassedIds(batch[..i], d.outcomes)
    && outbox.rows == MarkErrorsAll(rows0, Failures(batch[..i], d.outcomes))
  }

  /** One turn of the loop: the event at `i` is applied, its error recorded or its id collected. */
  method ApplyNext(outbox: Outbox, ss: Spreadsheet, ghost base: map<string, Grid>, ghost rows0: seq<OutboxRow>,
                   batch: seq<OutboxRow>, failing: map<int, string>, i: nat, processed: seq<int>)
    returns (processed': seq<int>)
    requires i < |batch| && Drained(outbox, ss, base, rows0, batch, failing, i, processed)
    modifies outbox, ss
    ensures Drained(outbox, ss, base, rows0, batch, failing, i + 1, processed')
  {
    DrainStep(base, batch, i, Client(failing));
    ghost var a := ApplyOne(ss.sheets, batch[i], failing);
    assert Client(failing)(ss.sheets, batch[i]) == a;
    var r: Outcome;
    if batch[i].id in failing {
      r := Fail(failing[batch[i].id]);
    } else {
      r := ApplyEvent(ss, batch[i].event);
    }
    assert r == (if a.Applied? then Pass else Fail(a.error));
    processed' := processed;
    match r
    case Pass =>
      processed' := processed + [batch[i].id];
    case Fail(m) =>
      outbox.MarkError(batch[i].id, m);
  }

  /**
   * The loop of `run_once` over a fetched batch: each event is applied in
   * turn, a raising one has its error recorded at once, and the ids of the
   * ones that went through are collected for the final update.
   */
  method ApplyBatch(outbox: Outbox, ss: Spreadsheet, batch: seq<OutboxRow>, failing: map<int, string>)
    returns (processed: seq<int>)
    requires outbox.Valid()
    modifies outbox, ss
    ensures outbox.Valid()
    ensures var d := DrainSpec(old(ss.sheets), batch, Client(failing));
      && ss.sheets == d.sheets
      && processed == PassedIds(batch, d.outcomes)
      && outbox.rows == MarkErrorsAll(old(outbox.rows), Failures(batch, d.outcomes))
  {
    ghost var base := ss.sheets;
    ghost var rows0 := outbox.rows;
    processed := [];
    assert batch[..0] == [];
    for i := 0 to |batch|
      invariant Drained(outbox, ss, base, rows0, batch, failing, i, processed)
    {
      processed := ApplyNext(outbox, ss, base, rows0, batch, failing, i, processed);
    }
    assert batch[..|batch|] == batch;
  }

  /** `run_once()` */
  method RunOnce(users: UsersRepo, ss: Spreadsheet, failing: map<int, string>, now: string)
    requires users.Valid()
    modifies users.outbox, ss
    ensures users.Valid()
    ensures var base := EnsureList(old(ss.sheets), Required(UserSheetNames(users.users)));
      var batch := Fetch(old(users.outbox.rows), BatchLimit);
      var d := DrainSpec(base, batch, Client(failing));
      && ss.sheets == d.sheets
      && users.outbox.rows == (if batch == [] then old(users.outbox.rows)
           else MarkProcessedRows(MarkErrorsAll(old(users.outbox.rows), Failures(batch, d.outcomes)),
                                  PassedIds(batch, d.outcomes), now))
  {
    // The names are the keys of `users_get_map()`; see SheetNamesAreMapKeys.
    var names := UserSheetNames(users.users);
    EnsureBaseStructure(ss, names);
    var batch := users.outbox.FetchBatch(BatchLimit);
    if batch == [] {
      return;
    }
    var processed := ApplyBatch(users.outbox, ss, batch, failing);
    users.outbox.MarkProcessed(processed, now);
  }

  // ----- properties -----

  /** The sheet names handed to `ensure_base_structure` are exactly the keys of the users map, without repeats. */
  lemma SheetNamesAreMapKeys(us: seq<User>)
    requires UniqueNames(us)
    ensures var names := UserSheetNames(us);
      && (forall n :: n in names <==> n in GetMap(us))
      && (forall i, j :: 0 <= i < j < |names| ==> names[i] != names[j])
  {
    MapKeysAreNames(us);
  }

  lemma {:induction false} MapKeysAreNames(us: seq<User>)
    ensures forall n :: n in GetMap(us) <==> exists i :: 0 <= i < |us| && us[i].name == n
  {
    if us != [] {
      var init := us[..|us| - 1];
      MapKeysAreNames(init);
      assert forall i :: 0 <= i < |init| ==> init[i] == us[i];
    }
  }

  /**
   * Fault isolation: an event that raises leaves no trace. Dropping it from
   * the batch gives the same mirror, and every other event the same outcome.
   */
  lemma {:induction false} FailedEventLeavesNoTrace(sheets: map<string, Grid>, batch: seq<OutboxRow>,
                                                    apply: Applier, k: nat)
    requires k < |batch| && DrainSpec(sheets, batch, apply).outcomes[k].Fail?
    ensures var d := DrainSpec(sheets, batch, apply);
      var d' := DrainSpec(sheets, batch[..k] + batch[k + 1..], apply);
      d'.sheets == d.sheets && d'.outcomes == d.outcomes[..k] + d.outcomes[k + 1..]
    decreases |batch|, 1
  {
    if k == |batch| - 1 {
      FailedLastLeavesNoTrace(sheets, batch, apply);
    } else {
      FailedInnerLeavesNoTrace(sheets, batch, apply, k);
    }
  }

  /** The last event of the batch raised: the batch without it drains alike. */
  lemma FailedLastLeavesNoTrace(sheets: map<string, Grid>, batch: seq<OutboxRow>, apply: Applier)
    requires |batch| >= 1 && DrainSpec(sheets, batch, apply).outcomes[|batch| - 1].Fail?
    ensures var d := DrainSpec(sheets, batch, apply);
      var d' := DrainSpec(sheets, batch[..|batch| - 1] + batch[|batch|..], apply);
      d'.sheets == d.sheets && d'.outcomes == d.outcomes[..|batch| - 1] + d.outcomes[|batch|..]
  {
    var d := DrainSpec(sheets, batch, apply);
    DropLast(batch);
    DropLast(d.outcomes);
  }

  /** An inner event raised: drop it from the batch without its last event, then put that back. */
  lemma {:induction false} FailedInnerLeavesNoTrace(sheets: map<string, Grid>, batch: seq<OutboxRow>,
                                                    apply: Applier, k: nat)
    requires k < |batch| - 1 && DrainSpec(sheets, batch, apply).outcomes[k].Fail?
    ensures var d := DrainSpec(sheets, batch, apply);
      var d' := DrainSpec(sheets, batch[..k] + batch[k + 1..], apply);
      d'.sheets == d.sheets && d'.outcomes == d.outcomes[..k] + d.outcomes[k + 1..]
    decreases |batch|, 0
  {
    var n := |batch|;
    var init := batch[..n - 1];
    var b' := batch[..k] + batch[k + 1..];
    var d0 := DrainSpec(sheets, init, apply);
    var d := DrainSpec(sheets, batch, apply);
    DrainLast(sheets, batch, apply);
    DropInner(batch, k);
    assert d.outcomes[k] == d0.outcomes[k];
    FailedEventLeavesNoTrace(sheets, init, apply, k);
    DrainLast(sheets, b', apply);
    DropInner(d.outcomes, k);
  }

  /** Draining a non-empty batch is draining all but its last event, then applying that one. */
  lemma DrainLast(sheets: map<string, Grid>, batch: seq<OutboxRow>, apply: Applier)
    requires batch != []
    ensures var d0 := DrainSpec(sheets, batch[..|batch| - 1], apply);
      var d := DrainSpec(sheets, batch, apply);
      var a := apply(d0.sheets, batch[|batch| - 1]);
      && d.outcomes == d0.outcomes + [if a.Applied? then Pass else Fail(a.error)]
      && d.sheets == (if a.Applied? then a.sheets else d0.sheets)
  {
  }

  lemma DropLast<T>(s: seq<T>)
    requires |s| >= 1
    ensures s[..|s| - 1] + s[|s|..] == s[..|s| - 1]
  {
  }

  /** Dropping an inner element, then the last, is dropping the last, then that element. */
  lemma DropInner<T>(s: seq<T>, k: nat)
    requires k < |s| - 1
    ensures var t := s[..k] + s[k + 1..];
      && |t| == |s| - 1
      && t[..|t| - 1] == s[..|s| - 1][..k] + s[..|s| - 1][k + 1..]
      && t[|t| - 1] == s[|s| - 1]
      && t == s[..|s| - 1][..k] + s[..|s| - 1][k + 1..] + [s[|s| - 1]]
  {
    var t := s[..k] + s[k + 1..];
    assert t[..|t| - 1] == s[..|s| - 1][..k] + s[..|s| - 1][k + 1..];
  }

  /** Events with pairwise different ids. */
  predicate DistinctIds(batch: seq<OutboxRow>) {
    forall i, j :: 0 <= i < j < |batch| ==> batch[i].id != batch[j].id
  }

  /**
   * Exactly the events that went through are reported processed, and the
   * last recorded error of each event is its own exception text; ids from
   * outside the batch are neither.
   */
  lemma {:induction false} OutcomesRecorded(batch: seq<OutboxRow>, outs: seq<Outcome>, id: int)
    requires |outs| == |batch| && DistinctIds(batch)
    ensures forall j :: 0 <= j < |batch| && batch[j].id == id ==>
      && (id in PassedIds(batch, outs) <==> outs[j].Pass?)
      && LastError(Failures(batch, outs), id) == (if outs[j].Fail? then Some(outs[j].error) else None)
    ensures (forall j :: 0 <= j < |batch| ==> batch[j].id != id) ==>
      id !in PassedIds(batch, outs) && LastError(Failures(batch, outs), id) == None
  {
    if batch != [] {
      var n := |batch|;
      var init := batch[..n - 1];
      var oinit := outs[..n - 1];
      assert forall j :: 0 <= j < |init| ==> init[j] == batch[j];
      OutcomesRecorded(init, oinit, id);
      LastErrorAppend(Failures(init, oinit), if outs[n - 1].Fail? then [(batch[n - 1].id, outs[n - 1].error)] else [], id);
      if batch[n - 1].id == id {
        assert forall j :: 0 <= j < |init| ==> init[j].id != id;
      }
    }
  }

  lemma LastErrorAppend(errs: seq<(int, string)>, more: seq<(int, string)>, id: int)
    requires |more| <= 1
    ensures LastError(errs + more, id) ==
      if more != [] && more[0].0 == id then Some(more[0].1) else LastError(errs, id)
  {
    if more != [] {
      assert (errs + more)[..|errs + more| - 1] == errs;
    } else {
      assert errs + more == errs;
    }
  }

  /** After the error calls, each row carries the last error recorded for its id, and nothing else changes. */
  lemma {:induction false} MarkErrorsAllAt(rows: seq<OutboxRow>, errs: seq<(int, string)>, k: nat)
    requires k < |rows|
    ensures MarkErrorsAll(rows, errs)[k] ==
      match LastError(errs, rows[k].id)
      case None => rows[k]
      case Some(m) => rows[k].(error := Some(m))
  {
    if errs != [] {
      MarkErrorsAllAt(rows, errs[..|errs| - 1], k);
    }
  }

  /**
   * What one pass does to the outbox: at most 200 events are applied; a
   * row that went through is stamped processed with its error cleared; a
   * row that raised stays unprocessed, so the next pass retries it, and
   * carries its exception text; every other row is unchanged. With nothing
   * pending, the outbox and the mirror keep their state after the setup.
   */
  lemma RunOnceOutcome(rows: seq<OutboxRow>, next: int, sheets: map<string, Grid>,
                       apply: Applier, now: string)
    requires OutboxKeys(rows, next)
    ensures var batch := Fetch(rows, BatchLimit);
      var d := DrainSpec(sheets, batch, apply);
      var after := if batch == [] then rows
        else MarkProcessedRows(MarkErrorsAll(rows, Failures(batch, d.outcomes)), PassedIds(batch, d.outcomes), now);
      && |batch| <= BatchLimit
      && (Pending(rows) == [] ==> after == rows && d.sheets == sheets)
      && |after| == |rows|
      && (forall j, k :: 0 <= j < |batch| && 0 <= k < |rows| && rows[k].id == batch[j].id ==>
            && (d.outcomes[j].Pass? ==> after[k] == rows[k].(processedAt := Some(now), error := None))
            && (d.outcomes[j].Fail? ==> after[k] == rows[k].(error := Some(d.outcomes[j].error))))
      && (forall k :: 0 <= k < |rows| && (forall j :: 0 <= j < |batch| ==> batch[j].id != rows[k].id) ==>
            after[k] == rows[k])
  {
    var batch := Fetch(rows, BatchLimit);
    var d := DrainSpec(sheets, batch, apply);
    FetchProperties(rows, BatchLimit, next);
    if batch != [] {
      var after := MarkProcessedRows(MarkErrorsAll(rows, Failures(batch, d.outcomes)), PassedIds(batch, d.outcomes), now);
      forall k | 0 <= k < |rows|
        ensures forall j :: 0 <= j < |batch| && rows[k].id == batch[j].id ==>
            && (d.outcomes[j].Pass? ==> after[k] == rows[k].(processedAt := Some(now), error := None))
            && (d.outcomes[j].Fail? ==> after[k] == rows[k].(error := Some(d.outcomes[j].error)))
        ensures (forall j :: 0 <= j < |batch| ==> batch[j].id != rows[k].id) ==> after[k] == rows[k]
      {
        RowAfterRun(rows, next, batch, d.outcomes, now, k);
      }
    }
  }

  /** One row of the outbox after a pass, given the batch and its outcomes. */
  lemma RowAfterRun(rows: seq<OutboxRow>, next: int, batch: seq<OutboxRow>, outs: seq<Outcome>, now: string, k: nat)
    requires OutboxKeys(rows, next) && OutboxKeys(batch, next) && |outs| == |batch| && k < |rows|
    requires forall j :: 0 <= j < |batch| ==> batch[j] in rows && batch[j].Pending()
    ensures var after := MarkProcessedRows(MarkErrorsAll(rows, Failures(batch, outs)), PassedIds(batch, outs), now);
      && (forall j :: 0 <= j < |batch| && rows[k].id == batch[j].id ==>
            && (outs[j].Pass? ==> after[k] == rows[k].(processedAt := Some(now), error := None))
            && (outs[j].Fail? ==> after[k] == rows[k].(error := Some(outs[j].error))))
      && ((forall j :: 0 <= j < |batch| ==> batch[j].id != rows[k].id) ==> after[k] == rows[k])
  {
    var errs := Failures(batch, outs);
    OutcomesRecorded(batch, outs, rows[k].id);
    MarkErrorsAllAt(rows, errs, k);
    forall j | 0 <= j < |batch| && rows[k].id == batch[j].id
      ensures rows[k] == batch[j]
    {
      var k' :| 0 <= k' < |rows| && rows[k'] == batch[j];
      assert k' == k;
    }
  }

  // ----- the monthly archive and the mirror -----

  /**
   * As written, the archive sweep records only TASK_ARCHIVE_BATCH and the
   * dispatch skips it: a task the store now holds as ARCHIVE keeps, in the
   * mirror, whatever its last TASK_STATUS wrote, which was DONE.
   */
  lemma ArchiveNeverReachesMirror(ts: seq<Task>, cutoff: Due.DateTime, k: nat, sheets: map<string, Grid>, r: nat, c: nat)
    requires k < |ts| && TasksRepo.Archivable(ts[k], cutoff)
    requires ts[k].assigneeName in sheets
    requires r < |sheets[ts[k].assigneeName]| && c < |sheets[ts[k].assigneeName][r]|
    requires sheets[ts[k].assigneeName][r][c] == StatusDone
    ensures TasksRepo.ArchiveAll(ts, cutoff)[k].status == StatusArchive
    ensures var a := ApplySpec(sheets, TaskArchiveBatch(cutoff, Personal));
      a.Applied? && a.sheets[ts[k].assigneeName][r][c] == StatusDone
  {
    NoOpEvents(sheets, TaskArchiveBatch(cutoff, Personal));
  }

  /**
   * Announced one by one, every archived task whose row is in the mirror
   * gets ARCHIVE written into that row's Status cell.
   */
  lemma ArchiveStatusReachesMirror(ts: seq<Task>, cutoff: Due.DateTime, k: nat, sheets: map<string, Grid>)
    requires k < |ts| && TasksRepo.Archivable(ts[k], cutoff)
    requires ts[k].assigneeName in sheets
    requires FindTaskRow(sheets[ts[k].assigneeName], Text.IntToString(ts[k].id)).Some?
    ensures TaskStatus(ts[k].assigneeName, ts[k].id, StatusArchive) in TasksRepo.ArchiveStatusEvents(ts, cutoff)
    ensures var e := TaskStatus(ts[k].assigneeName, ts[k].id, StatusArchive);
      var row := FindTaskRow(sheets[ts[k].assigneeName], Text.IntToString(ts[k].id)).value;
      var a := ApplySpec(sheets, e);
      && a.Applied?
      && row - 1 < |a.sheets[ts[k].assigneeName]|
      && HeaderColumn("Status") - 1 < |a.sheets[ts[k].assigneeName][row - 1]|
      && a.sheets[ts[k].assigneeName][row - 1][HeaderColumn("Status") - 1] == StatusArchive
  {
    TasksRepo.ArchiveStatusEventsCover(ts, cutoff, k);
    var e := TaskStatus(ts[k].assigneeName, ts[k].id, StatusArchive);
    var g := sheets[e.sheet];
    var row := FindTaskRow(g, Text.IntToString(e.taskId)).value;
    FieldEventTouchesOneCell(sheets, e);
    PutCellOnly(g[row - 1], HeaderColumn("Status"), StatusArchive);
  }
}
