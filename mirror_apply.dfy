/**
 * Replaying one outbox event onto the spreadsheet mirror. A missing
 * worksheet raises; everything else is a best-effort edit of one sheet.
 */
module MirrorApply {
  import opened Wrappers
  import opened Config
  import opened Text
  import opened Models
  import opened Sheets

  /** The mirror after an event, or the exception the spreadsheet client raised. */
  datatype Applied = Applied(sheets: map<string, Grid>) | Raised(error: string)

  /** The message of gspread's WorksheetNotFound. */
  function NotFound(name: string): string {
    "WorksheetNotFound: " + name
  }

  /** `TASK_HEADERS.index(header) + 1` */
  function HeaderColumn(header: string): (c: nat)
    requires header in TaskHeaders
    ensures 1 <= c <= |TaskHeaders| && TaskHeaders[c - 1] == header
    ensures forall j :: 0 <= j < c - 1 ==> TaskHeaders[j] != header
  {
    if TaskHeaders[0] == header then 1
    else if TaskHeaders[1] == header then 2
    else if TaskHeaders[2] == header then 3
    else if TaskHeaders[3] == header then 4
    else if TaskHeaders[4] == header then 5
    else 6
  }

  /** `_append_task_row`: the six cells of a task row. */
  function TaskRow(id: int, task: string, fromName: string, due: string, status: string): Row {
    [IntToString(id), task, fromName, due, status, ""]
  }

  /** The first of `rows` whose first cell is `v` (0-based). */
  function FirstWithKey(rows: Grid, v: string): (r: Option<nat>)
    ensures r.Some? ==> r.value < |rows| && |rows[r.value]| >= 1 && rows[r.value][0] == v
    ensures r.Some? ==> forall j :: 0 <= j < r.value ==> !(|rows[j]| >= 1 && rows[j][0] == v)
    ensures r.None? ==> forall j :: 0 <= j < |rows| ==> !(|rows[j]| >= 1 && rows[j][0] == v)
  {
    if rows == [] then None
    else if |rows[0]| >= 1 && rows[0][0] == v then Some(0)
    else match FirstWithKey(rows[1..], v)
      case None => None
      case Some(i) => Some(i + 1)
  }

  /**
   * `_find_row_by_task_id` as written: `ws.find(str(task_id))` returns the
   * first cell anywhere in the sheet, row by row, whose text is the id.
   */
  function FindRowAnyCell(g: Grid, v: string): (r: Option<nat>)
    ensures r.Some? ==> 1 <= r.value <= |g| && v in g[r.value - 1]
    ensures r.None? ==> forall i :: 0 <= i < |g| ==> v !in g[i]
  {
    if g == [] then None
    else if v in g[0] then Some(1)
    else match FindRowAnyCell(g[1..], v)
      case None => None
      case Some(i) => Some(i + 1)
  }

  /** The task's row found in the TaskID column only (`ws.find(str(task_id), in_column=1)`). */
  function FindTaskRow(g: Grid, v: string): (r: Option<nat>)
    ensures r.Some? ==> 1 <= r.value <= |g| && |g[r.value - 1]| >= 1 && g[r.value - 1][0] == v
    ensures r.Some? ==> forall j :: 0 <= j < r.value - 1 ==> !(|g[j]| >= 1 && g[j][0] == v)
    ensures r.None? ==> forall j :: 0 <= j < |g| ==> !(|g[j]| >= 1 && g[j][0] == v)
  {
    match FirstWithKey(g, v)
    case None => None
    case Some(i) => Some(i + 1)
  }

  /** The row `_upsert_user_in_users_sheet` and `_delete_user_from_users_sheet` look for: the first non-header row naming the user. */
  function UserRow(g: Grid, name: string): (r: Option<nat>)
    ensures r.Some? ==> 2 <= r.value <= |g|
  {
    if g == [] then None
    else match FirstWithKey(g[1..], name)
      case None => None
      case Some(i) => Some(i + 2)
  }

  /** The sheet an event writes to; None for the events that write nothing. */
  function TargetSheet(e: Event): Option<string> {
    match e
    case UserUpsert(_, _) => Some(UsersSheet)
    case UserDelete(_, _) => Some(UsersSheet)
    case TaskCreated(sheet, _, _, _, _, _) => Some(sheet)
    case TaskStatus(sheet, _, _) => Some(sheet)
    case TaskText(sheet, _, _) => Some(sheet)
    case TaskDue(sheet, _, _) => Some(sheet)
    case TaskDelete(sheet, _) => Some(sheet)
    case CommonCreated(_, _, _, _, _) => Some(CommonSheet)
    case CommonProgressSet(_, _, _) => Some(CommonProgressSheet)
    case TaskArchiveBatch(_, _) => None
    case Unknown(_) => None
  }

  /** The number of `rows` whose first cell is `v`. */
  function CountKey(rows: Grid, v: string): nat {
    if rows == [] then 0 else (if |rows[0]| >= 1 && rows[0][0] == v then 1 else 0) + CountKey(rows[1..], v)
  }

  /** Write `v` under `header` in the found row of the task, if there is one. */
  function UpdateTaskCell(sheets: map<string, Grid>, sheet: string, taskId: int, header: string, v: string): Applied
    requires header in TaskHeaders
  {
    if sheet !in sheets then Raised(NotFound(sheet))
    else
      var g := sheets[sheet];
      match FindTaskRow(g, IntToString(taskId))
      case None => Applied(sheets)
      case Some(r) => Applied(sheets[sheet := SetCell(g, r, HeaderColumn(header), v)])
  }

  /** Append a row to a sheet that must exist. */
  function AppendTo(sheets: map<string, Grid>, sheet: string, row: Row): Applied {
    if sheet !in sheets then Raised(NotFound(sheet)) else Applied(sheets[sheet := AppendRow(sheets[sheet], row)])
  }

  /** `apply_events` for a single event. */
  function ApplySpec(sheets: map<string, Grid>, e: Event): (r: Applied)
    ensures r.Applied? ==> r.sheets.Keys == sheets.Keys
  {
    match e
    case UserUpsert(name, tid) =>
      if UsersSheet !in sheets then Raised(NotFound(UsersSheet))
      else
        var g := sheets[UsersSheet];
        var vals := [name, IntToString(tid)];
        (match UserRow(g, name)
         case Some(i) => Applied(sheets[UsersSheet := WriteRow(g, i, vals)])
         case None => Applied(sheets[UsersSheet := AppendRow(g, vals)]))
    case UserDelete(name, _) =>
      if UsersSheet !in sheets then Raised(NotFound(UsersSheet))
      else
        var g := sheets[UsersSheet];
        (match UserRow(g, name)
         case Some(i) => Applied(sheets[UsersSheet := DeleteRow(g, i)])
         case None => Applied(sheets))
    case TaskCreated(sheet, id, task, fromName, due, status) =>
      AppendTo(sheets, sheet, TaskRow(id, task, fromName, due, status))
    case TaskStatus(sheet, id, status) => UpdateTaskCell(sheets, sheet, id, "Status", status)
    case TaskText(sheet, id, task) => UpdateTaskCell(sheets, sheet, id, "Task", task)
    case TaskDue(sheet, id, due) => UpdateTaskCell(sheets, sheet, id, "Due", due)
    case TaskDelete(sheet, id) =>
      if sheet !in sheets then Raised(NotFound(sheet))
      else
        var g := sheets[sheet];
        (match FindTaskRow(g, IntToString(id))
         case Some(r) => if r > 1 then Applied(sheets[sheet := DeleteRow(g, r)]) else Applied(sheets)
         case None => Applied(sheets))
    case CommonCreated(id, task, fromName, due, status) =>
      AppendTo(sheets, CommonSheet, TaskRow(id, task, fromName, due, status))
    case CommonProgressSet(id, user, status) =>
      AppendTo(sheets, CommonProgressSheet, [IntToString(id), user, status, ""])
    case TaskArchiveBatch(_, _) => Applied(sheets)
    case Unknown(_) => Applied(sheets)
  }

  /** `_upsert_user_in_users_sheet` */
  method UpsertUserInUsersSheet(ss: Spreadsheet, name: string, tid: int) returns (r: Outcome)
    modifies ss
    ensures match ApplySpec(old(ss.sheets), UserUpsert(name, tid))
      case Applied(s) => r == Pass && ss.sheets == s
      case Raised(m) => r == Fail(m) && ss.sheets == old(ss.sheets)
  {
    if UsersSheet !in ss.sheets {
      return Fail(NotFound(UsersSheet));
    }
    var values := ss.GetAllValues(UsersSheet);
    var i := 1;
    while i < |values|
      invariant 1 <= i <= |values| || values == []
      invariant values != [] ==> forall j :: 1 <= j < i ==> !(|values[j]| >= 1 && values[j][0] == name)
    {
      if |values[i]| >= 1 && values[i][0] == name {
        assert UserRow(values, name) == Some(i + 1) by {
          FirstWithKeyAt(values[1..], name, i - 1);
        }
        ss.Update(UsersSheet, i + 1, [name, IntToString(tid)]);
        return Pass;
      }
      i := i + 1;
    }
    assert UserRow(values, name).None? by {
      if values != [] {
        FirstWithKeyNone(values[1..], name);
      }
    }
    ss.Append(UsersSheet, [name, IntToString(tid)]);
    r := Pass;
  }

  /** `_delete_user_from_users_sheet` */
  method DeleteUserFromUsersSheet(ss: Spreadsheet, name: string, tid: int) returns (r: Outcome)
    modifies ss
    ensures match ApplySpec(old(ss.sheets), UserDelete(name, tid))
      case Applied(s) => r == Pass && ss.sheets == s
      case Raised(m) => r == Fail(m) && ss.sheets == old(ss.sheets)
  {
    if UsersSheet !in ss.sheets {
      return Fail(NotFound(UsersSheet));
    }
    var values := ss.GetAllValues(UsersSheet);
    var i := 1;
    while i < |values|
      invariant 1 <= i <= |values| || values == []
      invariant values != [] ==> forall j :: 1 <= j < i ==> !(|values[j]| >= 1 && values[j][0] == name)
    {
      if |values[i]| >= 1 && values[i][0] == name {
        assert UserRow(values, name) == Some(i + 1) by {
          FirstWithKeyAt(values[1..], name, i - 1);
        }
        ss.DeleteRows(UsersSheet, i + 1);
        return Pass;
      }
      i := i + 1;
    }
    assert UserRow(values, name).None? by {
      if values != [] {
        FirstWithKeyNone(values[1..], name);
      }
    }
    r := Pass;
  }

  /** `apply_events([event])`: dispatch on the event type. */
  method ApplyEvent(ss: Spreadsheet, e: Event) returns (r: Outcome)
    modifies ss
    ensures match ApplySpec(old(ss.sheets), e)
      case Applied(s) => r == Pass && ss.sheets == s
      case Raised(m) => r == Fail(m) && ss.sheets == old(ss.sheets)
  {
    match e
    case UserUpsert(name, tid) =>
      r := UpsertUserInUsersSheet(ss, name, tid);
    case UserDelete(name, tid) =>
      r := DeleteUserFromUsersSheet(ss, name, tid);
    case TaskCreated(sheet, id, task, fromName, due, status) =>
      if sheet !in ss.sheets {
        return Fail(NotFound(sheet));
      }
      ss.Append(sheet, TaskRow(id, task, fromName, due, status));
      r := Pass;
    case TaskStatus(sheet, id, status) =>
      r := UpdateCellByHeader(ss, sheet, id, "Status", status);
    case TaskText(sheet, id, task) =>
      r := UpdateCellByHeader(ss, sheet, id, "Task", task);
    case TaskDue(sheet, id, due) =>
      r := UpdateCellByHeader(ss, sheet, id, "Due", due);
    case TaskDelete(sheet, id) =>
      if sheet !in ss.sheets {
        return Fail(NotFound(sheet));
      }
      var row := FindTaskRow(ss.sheets[sheet], IntToString(id));
      if row.Some? && row.value > 1 {
        ss.DeleteRows(sheet, row.value);
      }
      r := Pass;
    case CommonCreated(id, task, fromName, due, status) =>
      if CommonSheet !in ss.sheets {
        return Fail(NotFound(CommonSheet));
      }
      ss.Append(CommonSheet, TaskRow(id, task, fromName, due, status));
      r := Pass;
    case CommonProgressSet(id, user, status) =>
      if CommonProgressSheet !in ss.sheets {
        return Fail(NotFound(CommonProgressSheet));
      }
      ss.Append(CommonProgressSheet, [IntToString(id), user, status, ""]);
      r := Pass;
    case TaskArchiveBatch(_, _) =>
      r := Pass;
    case Unknown(_) =>
      r := Pass;
  }

  /** Find the task's row, then `_update_cell_by_header` on it. */
  method UpdateCellByHeader(ss: Spreadsheet, sheet: string, id: int, header: string, v: string) returns (r: Outcome)
    requires header in TaskHeaders
    modifies ss
    ensures match UpdateTaskCell(old(ss.sheets), sheet, id, header, v)
      case Applied(s) => r == Pass && ss.sheets == s
      case Raised(m) => r == Fail(m) && ss.sheets == old(ss.sheets)
  {
    if sheet !in ss.sheets {
      return Fail(NotFound(sheet));
    }
    var row := FindTaskRow(ss.sheets[sheet], IntToString(id));
    if row.Some? {
      ss.UpdateCell(sheet, row.value, HeaderColumn(header), v);
    }
    r := Pass;
  }

  // ----- properties -----

  lemma FirstWithKeyAt(rows: Grid, v: string, i: nat)
    requires i < |rows| && |rows[i]| >= 1 && rows[i][0] == v
    requires forall j :: 0 <= j < i ==> !(|rows[j]| >= 1 && rows[j][0] == v)
    ensures FirstWithKey(rows, v) == Some(i)
  {
  }

  lemma FirstWithKeyNone(rows: Grid, v: string)
    requires forall j :: 0 <= j < |rows| ==> !(|rows[j]| >= 1 && rows[j][0] == v)
    ensures FirstWithKey(rows, v) == None
  {
  }

  /**
   * Applying an event raises exactly when the worksheet it writes to is
   * missing; TASK_ARCHIVE_BATCH and unknown events never raise.
   */
  lemma RaisesIff(sheets: map<string, Grid>, e: Event)
    ensures ApplySpec(sheets, e).Raised? <==> TargetSheet(e).Some? && TargetSheet(e).value !in sheets
  {
  }

  /** TASK_ARCHIVE_BATCH and unknown event types leave the mirror as it is. */
  lemma NoOpEvents(sheets: map<string, Grid>, e: Event)
    requires e.TaskArchiveBatch? || e.Unknown?
    ensures ApplySpec(sheets, e) == Applied(sheets)
  {
  }

  /**
   * TASK_STATUS, TASK_TEXT and TASK_DUE write one cell, in the column of
   * their header, of the row whose TaskID is the event's id; every other
   * row and every other sheet is kept. Without such a row nothing changes.
   */
  lemma FieldEventTouchesOneCell(sheets: map<string, Grid>, e: Event)
    requires e.TaskStatus? || e.TaskText? || e.TaskDue?
    requires e.sheet in sheets
    ensures var g := sheets[e.sheet];
      var header := if e.TaskStatus? then "Status" else if e.TaskText? then "Task" else "Due";
      var v := if e.TaskStatus? then e.status else if e.TaskText? then e.task else e.due;
      match FindTaskRow(g, IntToString(e.taskId))
      case None => ApplySpec(sheets, e) == Applied(sheets)
      case Some(r) =>
        && g[r - 1][0] == IntToString(e.taskId)
        && ApplySpec(sheets, e).Applied?
        && var s := ApplySpec(sheets, e).sheets;
        && s.Keys == sheets.Keys
        && (forall n :: n in sheets && n != e.sheet ==> s[n] == sheets[n])
        && |s[e.sheet]| == |g|
        && (forall i :: 0 <= i < |g| && i != r - 1 ==> s[e.sheet][i] == g[i])
        && s[e.sheet][r - 1] == PutCell(g[r - 1], HeaderColumn(header), v)
        && TaskHeaders[HeaderColumn(header) - 1] == header
  {
    var g := sheets[e.sheet];
    var header := if e.TaskStatus? then "Status" else if e.TaskText? then "Task" else "Due";
    var v := if e.TaskStatus? then e.status else if e.TaskText? then e.task else e.due;
    assert ApplySpec(sheets, e) == UpdateTaskCell(sheets, e.sheet, e.taskId, header, v);
    match FindTaskRow(g, IntToString(e.taskId))
    case None =>
    case Some(r) =>
      SetCellOnly(g, r, HeaderColumn(header), v);
  }

  /** TASK_DELETE never deletes row 1, the header row. */
  lemma DeleteKeepsHeader(sheets: map<string, Grid>, sheet: string, id: int)
    requires sheet in sheets && |sheets[sheet]| >= 1
    ensures var a := ApplySpec(sheets, TaskDelete(sheet, id));
      a.Applied? && |a.sheets[sheet]| >= 1 && a.sheets[sheet][0] == sheets[sheet][0]
  {
  }

  /**
   * TASK_CREATED appends unconditionally: replaying the same event adds a
   * second copy of the row, so the event is not idempotent.
   */
  lemma CreatedTwiceDuplicates(sheets: map<string, Grid>, e: Event)
    requires e.TaskCreated? && e.sheet in sheets
    ensures var once := ApplySpec(sheets, e);
      && once.Applied?
      && var twice := ApplySpec(once.sheets, e);
      && twice.Applied?
      && twice.sheets[e.sheet] == sheets[e.sheet] + [TaskRow(e.taskId, e.task, e.fromName, e.due, e.status)] + [TaskRow(e.taskId, e.task, e.fromName, e.due, e.status)]
  {
  }

  /** COMMON_PROGRESS is a log: every application appends one more row. */
  lemma ProgressTwiceDuplicates(sheets: map<string, Grid>, e: Event)
    requires e.CommonProgressSet? && CommonProgressSheet in sheets
    ensures var once := ApplySpec(sheets, e);
      && once.Applied?
      && var twice := ApplySpec(once.sheets, e);
      && twice.Applied?
      && |twice.sheets[CommonProgressSheet]| == |sheets[CommonProgressSheet]| + 2
  {
  }

  /**
   * USER_UPSERT is idempotent on a Users sheet that has its header row:
   * the second application finds the row the first one wrote or appended,
   * and rewrites the same two cells.
   */
  lemma UserUpsertIdempotent(sheets: map<string, Grid>, name: string, tid: int)
    requires UsersSheet in sheets && |sheets[UsersSheet]| >= 1
    ensures var once := ApplySpec(sheets, UserUpsert(name, tid));
      once.Applied? && ApplySpec(once.sheets, UserUpsert(name, tid)) == once
  {
    var g := sheets[UsersSheet];
    var vals := [name, IntToString(tid)];
    var once := ApplySpec(sheets, UserUpsert(name, tid));
    var g1 := once.sheets[UsersSheet];
    match UserRow(g, name)
    case Some(i) =>
      assert g1 == g[i - 1 := Overlay(g[i - 1], vals)];
      FirstWithKeyAt(g1[1..], name, i - 2);
      OverlayIdempotent(g[i - 1], vals);
      assert WriteRow(g1, i, vals) == g1;
    case None =>
      assert g1 == g + [vals];
      assert g1[1..] == g[1..] + [vals];
      FirstWithKeyNone(g[1..], name);
      FirstWithKeyAt(g1[1..], name, |g| - 1);
      assert WriteRow(g1, |g| + 1, vals) == g1;
  }

  /**
   * USER_DELETE removes exactly one row naming the user, the first below
   * the header, and keeps every other row; without one, nothing changes.
   */
  lemma UserDeleteRemovesOne(sheets: map<string, Grid>, name: string, tid: int)
    requires UsersSheet in sheets && |sheets[UsersSheet]| >= 1
    ensures var g := sheets[UsersSheet];
      var a := ApplySpec(sheets, UserDelete(name, tid));
      && a.Applied?
      && |a.sheets[UsersSheet]| >= 1 && a.sheets[UsersSheet][0] == g[0]
      && (CountKey(g[1..], name) == 0 ==> a.sheets == sheets)
      && (CountKey(g[1..], name) > 0 ==> CountKey(a.sheets[UsersSheet][1..], name) == CountKey(g[1..], name) - 1
                                           && |a.sheets[UsersSheet]| == |g| - 1)
  {
    var g := sheets[UsersSheet];
    var a := ApplySpec(sheets, UserDelete(name, tid));
    match UserRow(g, name)
    case None =>
      CountKeyZero(g[1..], name);
    case Some(i) =>
      var g1 := a.sheets[UsersSheet];
      assert g1 == g[..i - 1] + g[i..];
      assert g[1..] == g[1..i - 1] + [g[i - 1]] + g[i..];
      assert g1[1..] == g[1..i - 1] + g[i..];
      CountKeyAppend(g[1..i - 1] + [g[i - 1]], g[i..], name);
      CountKeyAppend(g[1..i - 1], [g[i - 1]], name);
      CountKeyAppend(g[1..i - 1], g[i..], name);
  }

  lemma {:induction false} CountKeyAppend(a: Grid, b: Grid, v: string)
    ensures CountKey(a + b, v) == CountKey(a, v) + CountKey(b, v)
  {
    if a != [] {
      assert (a + b)[0] == a[0];
      assert (a + b)[1..] == a[1..] + b;
      CountKeyAppend(a[1..], b, v);
    } else {
      assert a + b == b;
    }
  }

  lemma {:induction false} CountKeyZero(rows: Grid, v: string)
    requires FirstWithKey(rows, v).None?
    ensures CountKey(rows, v) == 0
  {
    if rows != [] {
      FirstWithKeyNone(rows[1..], v);
      CountKeyZero(rows[1..], v);
    }
  }

  /**
   * On a Users sheet with its header row and no row for the name, USER_UPSERT
   * followed by USER_DELETE of the same name restores the sheet.
   */
  lemma UpsertThenDeleteRestores(sheets: map<string, Grid>, name: string, tid: int)
    requires UsersSheet in sheets && |sheets[UsersSheet]| >= 1
    requires UserRow(sheets[UsersSheet], name).None?
    ensures var once := ApplySpec(sheets, UserUpsert(name, tid));
      once.Applied? && ApplySpec(once.sheets, UserDelete(name, tid)) == Applied(sheets)
  {
    var g := sheets[UsersSheet];
    var vals := [name, IntToString(tid)];
    var g1 := g + [vals];
    assert g1[1..] == g[1..] + [vals];
    FirstWithKeyNone(g[1..], name);
    FirstWithKeyAt(g1[1..], name, |g| - 1);
    assert DeleteRow(g1, |g| + 1) == g;
  }

  /**
   * The lookup of the as-written code can land on another task: with task 3
   * whose text is "7" above task 7, `ws.find("7")` returns task 3's row, so
   * a TASK_STATUS for task 7 would overwrite task 3's status. The TaskID
   * column lookup returns task 7's row.
   */
  lemma AnyCellFindHitsWrongTask()
    ensures var g := [TaskHeaders, ["3", "7", "Ann", "", "TODO", ""], ["7", "call", "Bob", "", "TODO", ""]];
      && FindRowAnyCell(g, IntToString(7)) == Some(2) && g[1][0] == "3"
      && SetCell(g, 2, HeaderColumn("Status"), "DONE")[1] == ["3", "7", "Ann", "", "DONE", ""]
      && FindTaskRow(g, IntToString(7)) == Some(3) && g[2][0] == "7"
  {
    var g := [TaskHeaders, ["3", "7", "Ann", "", "TODO", ""], ["7", "call", "Bob", "", "TODO", ""]];
    assert IntToString(7) == "7";
    assert "7" !in g[0];
    assert "7" in g[1];
    assert g[1..][0] == g[1];
    assert !(|g[0]| >= 1 && g[0][0] == "7");
    assert !(|g[1]| >= 1 && g[1][0] == "7");
    FirstWithKeyAt(g, "7", 2);
  }
}
