/**
 * Common tasks without duplicates: the tasks live once, in the "Общие"
 * sheet, and each user's progress on them lives in CommonProgress as rows
 * (TaskID, Name, Status, DoneAt). A user sees every common task with a
 * personal status: DONE when their progress row says so, TODO otherwise.
 */
module SheetsCommon {
  import opened Wrappers
  import opened Text
  import opened Config
  import opened Sheets
  import opened MirrorSchema
  import opened SheetsTasks
  import opened Dates

  /** The CommonProgress worksheet and its header row. */
  const ProgressReq := Requirement(CommonProgressSheet, CommonProgressHeaders)

  /** `values[1:]`: the rows below the header. */
  function Body(g: Grid): Grid {
    if g == [] then [] else g[1..]
  }

  /** The (TaskID, Name) a progress row adds to the done set, read from its first four cells. */
  function DonePair(row: Row): Option<(string, string)> {
    var p := PadTo(row, 4);
    if Strip(p[0]) != "" && Strip(p[1]) != "" && Upper(Strip(p[2])) == StatusDone
    then Some((Strip(p[0]), Strip(p[1])))
    else None
  }

  /** The done set of a list of progress rows. */
  function DoneSet(rows: Grid): (r: set<(string, string)>)
    ensures |r| <= |rows|
  {
    if rows == [] then {}
    else DoneSet(rows[..|rows| - 1]) + match DonePair(rows[|rows| - 1]) case Some(p) => {p} case None => {}
  }

  /** A progress row names this (task, user) pair, compared after stripping the cells but not the arguments. */
  predicate RowMatches(row: Row, taskId: string, name: string) {
    var p := PadTo(row, 2);
    Strip(p[0]) == taskId && Strip(p[1]) == name
  }

  /** The first row below the header that names the pair, 1-based. */
  function FirstProgressRow(g: Grid, taskId: string, name: string): (r: Option<nat>)
    ensures r.Some? ==> 2 <= r.value <= |g| && RowMatches(g[r.value - 1], taskId, name)
    ensures r.Some? ==> forall j :: 1 <= j < r.value - 1 ==> !RowMatches(g[j], taskId, name)
    ensures r.None? ==> forall j :: 1 <= j < |g| ==> !RowMatches(g[j], taskId, name)
  {
    if |g| <= 1 then None
    else
      match FirstProgressRow(g[..|g| - 1], taskId, name)
      case Some(i) => Some(i)
      case None => if RowMatches(g[|g| - 1], taskId, name) then Some(|g|) else None
  }

  /** The progress row written for the pair. */
  function DoneRow(taskId: string, name: string, now: string): Row {
    [taskId, name, StatusDone, now]
  }

  /** The CommonProgress worksheet after `common_progress_set_done_sync` wrote its row. */
  function SetDoneGrid(g: Grid, taskId: string, name: string, now: string): (r: Grid)
    ensures |r| == |g| <==> FirstProgressRow(g, taskId, name).Some?
    ensures |r| == |g| + 1 <==> FirstProgressRow(g, taskId, name).None?
  {
    match FirstProgressRow(g, taskId, name)
    case Some(i) => WriteRow(g, i, DoneRow(taskId, name, now))
    case None => g + [DoneRow(taskId, name, now)]
  }

  /** `common_progress_done_set_sync()` */
  method DoneSetSync(ss: Spreadsheet) returns (done: set<(string, string)>)
    modifies ss
    ensures ss.sheets == Ensured(old(ss.sheets), ProgressReq)
    ensures done == DoneSet(Body(ss.sheets[CommonProgressSheet]))
  {
    EnsureWs(ss, CommonProgressSheet);
    EnsureHeaders(ss, CommonProgressSheet, CommonProgressHeaders);
    var values := ss.GetAllValues(CommonProgressSheet);
    done := DoneOfRows(Body(values));
  }

  /** The loop of `_done_set` over the progress rows below the header. */
  method DoneOfRows(rows: Grid) returns (done: set<(string, string)>)
    ensures done == DoneSet(rows)
  {
    done := {};
    for i := 0 to |rows|
      invariant done == DoneSet(rows[..i])
    {
      assert rows[..i + 1][..i] == rows[..i];
      var row := rows[i];
      while |row| < 4
        invariant PadTo(row, 4) == PadTo(rows[i], 4)
        decreases 4 - |row|
      {
        row := row + [""];
      }
      var taskId, name, status := row[0], row[1], row[2];
      if Strip(taskId) != "" && Strip(name) != "" && Upper(Strip(status)) == StatusDone {
        done := done + {(Strip(taskId), Strip(name))};
      }
    }
    assert rows[..|rows|] == rows;
  }

  /** `common_progress_set_done_sync(task_id, name)`; `now` is the `now_iso()` stamp. */
  method SetDoneSync(ss: Spreadsheet, taskId: string, name: string, now: string)
    modifies ss
    ensures var s := Ensured(old(ss.sheets), ProgressReq);
      ss.sheets == s[CommonProgressSheet := SetDoneGrid(s[CommonProgressSheet], taskId, name, now)]
  {
    EnsureWs(ss, CommonProgressSheet);
    EnsureHeaders(ss, CommonProgressSheet, CommonProgressHeaders);
    var values := ss.GetAllValues(CommonProgressSheet);
    for idx := 2 to |values| + 1
      invariant forall j :: 1 <= j < idx - 1 ==> !RowMatches(values[j], taskId, name)
    {
      var row := values[idx - 1];
      while |row| < 2
        invariant PadTo(row, 2) == PadTo(values[idx - 1], 2)
        decreases 2 - |row|
      {
        row := row + [""];
      }
      if Strip(row[0]) == taskId && Strip(row[1]) == name {
        FirstProgressRowAt(values, taskId, name, idx);
        assert SetDoneGrid(values, taskId, name, now) == WriteRow(values, idx, DoneRow(taskId, name, now));
        ss.Update(CommonProgressSheet, idx, DoneRow(taskId, name, now));
        return;
      }
    }
    FirstProgressRowNone(values, taskId, name);
    assert SetDoneGrid(values, taskId, name, now) == AppendRow(values, DoneRow(taskId, name, now));
    ss.Append(CommonProgressSheet, DoneRow(taskId, name, now));
  }

  /** A user's view of one common task: the personal status replaces the task's own. */
  function PersonalView(t: TaskRow, done: set<(string, string)>, user: string): (r: TaskRow)
    ensures r.(status := t.status) == t
    ensures r.status == StatusDone || r.status == StatusTodo
  {
    t.(status := if (t.taskId, user) in done then StatusDone else StatusTodo)
  }

  /** The tabs: "my" hides DONE, "done" shows only DONE, "overdue" only open overdue tasks; any other mode shows all. */
  predicate KeepInMode(t: TaskRow, mode: string, today: string) {
    if mode == "my" then t.status != StatusDone
    else if mode == "done" then t.status == StatusDone
    else if mode == "overdue" then t.status != StatusDone && t.dueStr != "" && Overdue(t.dueStr, today)
    else true
  }

  /** The rows a tab keeps, in order. */
  function ModeFilter(ts: seq<TaskRow>, mode: string, today: string): (r: seq<TaskRow>)
    ensures |r| <= |ts|
    ensures forall k :: 0 <= k < |r| ==> KeepInMode(r[k], mode, today)
  {
    if ts == [] then []
    else ModeFilter(ts[..|ts| - 1], mode, today)
         + (if KeepInMode(ts[|ts| - 1], mode, today) then [ts[|ts| - 1]] else [])
  }

  /** The result list `common_tasks_for_user_sync` builds, one task at a time. */
  function CommonView(ts: seq<TaskRow>, done: set<(string, string)>, user: string, mode: string, today: string): (r: seq<TaskRow>)
    ensures |r| <= |ts|
    ensures forall k :: 0 <= k < |r| ==> KeepInMode(r[k], mode, today) && (r[k].status == StatusDone || r[k].status == StatusTodo)
  {
    if ts == [] then []
    else
      var v := PersonalView(ts[|ts| - 1], done, user);
      CommonView(ts[..|ts| - 1], done, user, mode, today) + (if KeepInMode(v, mode, today) then [v] else [])
  }

  /**
   * `common_tasks_for_user_sync(user_name, mode)`; the common tasks as
   * `tasks_list("Общие")` returns them and today's date are parameters.
   */
  method CommonTasksForUserSync(ss: Spreadsheet, commonTasks: seq<TaskRow>, user: string, mode: string, today: string)
    returns (result: seq<TaskRow>)
    modifies ss
    ensures ss.sheets == Ensured(old(ss.sheets), ProgressReq)
    ensures result == CommonView(commonTasks, DoneSet(Body(ss.sheets[CommonProgressSheet])), user, mode, today)
  {
    var done := DoneSetSync(ss);
    result := [];
    for i := 0 to |commonTasks|
      invariant result == CommonView(commonTasks[..i], done, user, mode, today)
    {
      assert commonTasks[..i + 1][..i] == commonTasks[..i];
      var t := commonTasks[i];
      var personal := if (t.taskId, user) in done then StatusDone else StatusTodo;
      var view := TaskRow(t.taskId, t.task, t.fromName, t.dueStr, personal, t.createdAt);
      if mode == "my" && view.status == StatusDone {
        continue;
      }
      if mode == "done" && view.status != StatusDone {
        continue;
      }
      if mode == "overdue" {
        if view.status == StatusDone {
          continue;
        }
        if view.dueStr == "" || !Overdue(view.dueStr, today) {
          continue;
        }
      }
      result := result + [view];
    }
    assert commonTasks[..|commonTasks|] == commonTasks;
  }

  // ----- properties -----

  lemma FirstProgressRowAt(g: Grid, taskId: string, name: string, i: nat)
    requires 2 <= i <= |g| && RowMatches(g[i - 1], taskId, name)
    requires forall j :: 1 <= j < i - 1 ==> !RowMatches(g[j], taskId, name)
    ensures FirstProgressRow(g, taskId, name) == Some(i)
  {
  }

  lemma FirstProgressRowNone(g: Grid, taskId: string, name: string)
    requires forall j :: 1 <= j < |g| ==> !RowMatches(g[j], taskId, name)
    ensures FirstProgressRow(g, taskId, name) == None
  {
  }

  /** The done set holds exactly the pairs some row contributes; short rows simply contribute blanks. */
  lemma {:induction false} DoneSetMembers(rows: Grid, p: (string, string))
    ensures p in DoneSet(rows) <==> exists i :: 0 <= i < |rows| && DonePair(rows[i]) == Some(p)
  {
    if rows != [] {
      var init := rows[..|rows| - 1];
      DoneSetMembers(init, p);
      assert forall i :: 0 <= i < |init| ==> init[i] == rows[i];
    }
  }

  /** A pair enters the done set only with a non-blank, stripped id and name. */
  lemma DonePairShape(row: Row)
    ensures DonePair(row).Some? ==>
      var (t, n) := DonePair(row).value;
      t != "" && n != "" && Strip(t) == t && Strip(n) == n
  {
    var p := PadTo(row, 4);
    StripIdempotent(p[0]);
    StripIdempotent(p[1]);
  }

  /**
   * Marking a common task done for a user puts the pair into the done set
   * the per-user view reads, when the id and name are non-blank, carry no
   * surrounding whitespace, and the sheet has its header row.
   */
  lemma SetDoneThenDone(g: Grid, taskId: string, name: string, now: string)
    requires |g| >= 1
    requires taskId != "" && Strip(taskId) == taskId && name != "" && Strip(name) == name
    ensures (taskId, name) in DoneSet(Body(SetDoneGrid(g, taskId, name, now)))
  {
    var g' := SetDoneGrid(g, taskId, name, now);
    var row: Row;
    var i: nat;
    match FirstProgressRow(g, taskId, name) {
      case Some(k) =>
        i := k - 1;
        row := Overlay(g[k - 1], DoneRow(taskId, name, now));
      case None =>
        i := |g|;
        row := DoneRow(taskId, name, now);
    }
    assert g'[i] == row && i >= 1;
    assert row[..4] == DoneRow(taskId, name, now);
    assert PadTo(row, 4) == row;
    assert row[0] == taskId && row[1] == name && row[2] == "DONE";
    StripUnchanged("DONE");
    assert Upper("DONE") == "DONE";
    assert Body(g')[i - 1] == row;
    DoneSetMembers(Body(g'), (taskId, name));
  }

  /**
   * A second DONE mark for the same pair rewrites the row the first one
   * left instead of adding one, so repeated marks never grow the sheet.
   */
  lemma SetDoneTwiceNoGrowth(g: Grid, taskId: string, name: string, now1: string, now2: string)
    requires |g| >= 1
    requires Strip(taskId) == taskId && Strip(name) == name
    ensures var once := SetDoneGrid(g, taskId, name, now1);
      && |SetDoneGrid(once, taskId, name, now2)| == |once|
      && FirstProgressRow(once, taskId, name).Some?
  {
    var once := SetDoneGrid(g, taskId, name, now1);
    var d := DoneRow(taskId, name, now1);
    match FirstProgressRow(g, taskId, name)
    case Some(k) =>
      var row := Overlay(g[k - 1], d);
      assert once[k - 1] == row;
      assert PadTo(row, 2) == row;
      assert RowMatches(once[k - 1], taskId, name);
    case None =>
      assert once[|g|] == d;
      assert PadTo(d, 2) == d;
      assert RowMatches(once[|g|], taskId, name);
  }

  /** The view is the tab's filter applied to the per-user views, in the tasks' order. */
  lemma {:induction false} CommonViewIsFiltered(ts: seq<TaskRow>, done: set<(string, string)>, user: string,
                                                mode: string, today: string)
    ensures CommonView(ts, done, user, mode, today) ==
      ModeFilter(seq(|ts|, i requires 0 <= i < |ts| => PersonalView(ts[i], done, user)), mode, today)
  {
    var vs := seq(|ts|, i requires 0 <= i < |ts| => PersonalView(ts[i], done, user));
    if ts != [] {
      var init := ts[..|ts| - 1];
      CommonViewIsFiltered(init, done, user, mode, today);
      assert vs[..|vs| - 1] == seq(|init|, i requires 0 <= i < |init| => PersonalView(init[i], done, user));
    }
  }

  /**
   * Every row a tab shows is a kept row of the input, and every kept row is
   * shown; the filter keeps the input order (it is a subsequence).
   */
  lemma {:induction false} ModeFilterMembers(ts: seq<TaskRow>, mode: string, today: string, t: TaskRow)
    ensures t in ModeFilter(ts, mode, today) <==> t in ts && KeepInMode(t, mode, today)
  {
    if ts != [] {
      var init := ts[..|ts| - 1];
      ModeFilterMembers(init, mode, today, t);
      assert ts == init + [ts[|ts| - 1]];
    }
  }

  /** Modes other than "my", "done" and "overdue" keep everything. */
  lemma {:induction false} OtherModesKeepAll(ts: seq<TaskRow>, mode: string, today: string)
    requires mode != "my" && mode != "done" && mode != "overdue"
    ensures ModeFilter(ts, mode, today) == ts
  {
    if ts != [] {
      OtherModesKeepAll(ts[..|ts| - 1], mode, today);
    }
  }

  /** Every task shows in exactly one of the "my" and "done" tabs. */
  lemma {:induction false} MyAndDonePartition(ts: seq<TaskRow>, today: string)
    ensures |ModeFilter(ts, "my", today)| + |ModeFilter(ts, "done", today)| == |ts|
  {
    if ts != [] {
      MyAndDonePartition(ts[..|ts| - 1], today);
    }
  }

  /**
   * In the per-user view the status is DONE exactly when the user's pair
   * is in the done set, whatever the task's own status; the other fields
   * are the task's.
   */
  lemma PersonalStatus(t: TaskRow, done: set<(string, string)>, user: string)
    ensures var v := PersonalView(t, done, user);
      && (v.status == StatusDone <==> (t.taskId, user) in done)
      && (v.status == StatusTodo <==> (t.taskId, user) !in done)
      && v.taskId == t.taskId && v.task == t.task && v.fromName == t.fromName
      && v.dueStr == t.dueStr && v.createdAt == t.createdAt
  {
  }
}
