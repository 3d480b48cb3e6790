/**
 * The task facade the bot's handlers call: personal tasks are created,
 * listed and re-statused through the SQL store; the spreadsheet is reached
 * only through the outbox. A listed task travels as a `TaskRow` of texts.
 */
module SheetsTasks {
  import opened Wrappers
  import opened Text
  import opened Config
  import opened Models
  import opened Due
  import opened OutboxStore
  import opened TasksRepo

  /** One task as the handlers see it: every field a text. */
  datatype TaskRow = TaskRow(taskId: string, task: string, fromName: string, dueStr: string, status: string, createdAt: string)

  /** `TaskRow(**r)` */
  function FromDict(d: TaskDict): TaskRow {
    TaskRow(d.taskId, d.task, d.fromName, d.dueStr, d.status, d.createdAt)
  }

  /** `[TaskRow(**r) for r in rows]` */
  function FromDicts(ds: seq<TaskDict>): (r: seq<TaskRow>)
    ensures |r| == |ds| && forall k :: 0 <= k < |ds| ==> r[k] == FromDict(ds[k])
  {
    if ds == [] then [] else FromDicts(ds[..|ds| - 1]) + [FromDict(ds[|ds| - 1])]
  }

  /**
   * `task_append(sheet_name, row)`: a new task assigned to `sheet_name`; the
   * row's own id and created_at are not used (the store stamps `now`).
   */
  method TaskAppend(repo: TasksRepo, sheetName: string, row: TaskRow, now: string) returns (id: string)
    requires repo.Valid()
    modifies repo, repo.outbox
    ensures repo.Valid()
    ensures id == IntToString(old(repo.nextId))
    ensures repo.tasks == old(repo.tasks) +
      [Task(old(repo.nextId), sheetName, row.task, row.fromName, ParseDueStr(row.dueStr), StatusOrTodo(row.status), now)]
    ensures repo.outbox.rows == old(repo.outbox.rows) +
      [OutboxRow(old(repo.outbox.nextId),
                 TaskCreated(sheetName, old(repo.nextId), row.task, row.fromName,
                             DueToStr(ParseDueStr(row.dueStr)), StatusOrTodo(row.status)), None, None)]
  {
    var status := if row.status != "" then row.status else StatusTodo;
    var n := repo.Create(sheetName, row.task, row.fromName, row.dueStr, status, row.createdAt, now);
    id := IntToString(n);
  }

  /** `tasks_list(sheet_name)` */
  method TasksList(repo: TasksRepo, sheetName: string) returns (rows: seq<TaskRow>)
    ensures rows == FromDicts(Dicts(Selected(repo.tasks, sheetName)))
  {
    var ds := repo.List(sheetName);
    rows := FromDicts(ds);
  }

  /** `task_set_done(sheet_name, task_id)`: `task_set_status` with DONE. */
  method TaskSetDone(repo: TasksRepo, sheetName: string, taskId: string) returns (ok: bool)
    requires repo.Valid()
    modifies repo, repo.outbox
    ensures repo.Valid() && repo.nextId == old(repo.nextId)
    ensures ok == Locate(old(repo.tasks), sheetName, taskId).Some?
    ensures !ok ==> repo.tasks == old(repo.tasks) && repo.outbox.rows == old(repo.outbox.rows)
    ensures ok ==>
      var k := Locate(old(repo.tasks), sheetName, taskId).value;
      && repo.tasks == old(repo.tasks)[k := old(repo.tasks)[k].(status := StatusDone)]
      && repo.outbox.rows == old(repo.outbox.rows) +
           [OutboxRow(old(repo.outbox.nextId), TaskStatus(sheetName, old(repo.tasks)[k].id, StatusDone), None, None)]
  {
    ok := repo.SetStatus(sheetName, taskId, StatusDone);
  }

  /** `task_set_todo(sheet_name, task_id)`: `task_set_status` with TODO. */
  method TaskSetTodo(repo: TasksRepo, sheetName: string, taskId: string) returns (ok: bool)
    requires repo.Valid()
    modifies repo, repo.outbox
    ensures repo.Valid() && repo.nextId == old(repo.nextId)
    ensures ok == Locate(old(repo.tasks), sheetName, taskId).Some?
    ensures !ok ==> repo.tasks == old(repo.tasks) && repo.outbox.rows == old(repo.outbox.rows)
    ensures ok ==>
      var k := Locate(old(repo.tasks), sheetName, taskId).value;
      && repo.tasks == old(repo.tasks)[k := old(repo.tasks)[k].(status := StatusTodo)]
      && repo.outbox.rows == old(repo.outbox.rows) +
           [OutboxRow(old(repo.outbox.nextId), TaskStatus(sheetName, old(repo.tasks)[k].id, StatusTodo), None, None)]
  {
    ok := repo.SetStatus(sheetName, taskId, StatusTodo);
  }

  // ----- properties -----

  /**
   * The id text `task_append` returns finds the new task again: handed back
   * to `task_set_done` and the other edits with the same sheet name, it
   * locates the appended row.
   */
  lemma AppendedIdLocates(ts: seq<Task>, next: int, t: Task)
    requires TaskKeys(ts, next) && t.id == next
    ensures Locate(ts + [t], t.assigneeName, IntToString(next)) == Some(|ts|)
  {
    IntRoundTrip(next);
  }

  /**
   * Every row `tasks_list` returns is one of that sheet's tasks, and its id
   * text locates that task for the edits, so a listed task can always be
   * marked done from the list.
   */
  lemma ListedRowsLocate(ts: seq<Task>, next: int, sheetName: string, k: nat)
    requires TaskKeys(ts, next)
    requires k < |Selected(ts, sheetName)|
    ensures var s := Selected(ts, sheetName);
      var row := FromDicts(Dicts(s))[k];
      && row.taskId == IntToString(s[k].id) && row.task == s[k].taskText && row.status == s[k].status
      && var loc := Locate(ts, sheetName, row.taskId);
      loc.Some? && ts[loc.value] == s[k]
  {
    var s := Selected(ts, sheetName);
    var t := s[k];
    assert FromDicts(Dicts(s))[k] == FromDict(ToDict(t));
    SelectedMembers(ts, sheetName, t);
    IntRoundTrip(t.id);
    var i :| 0 <= i < |ts| && ts[i] == t;
    LocateIff(ts, next, sheetName, IntToString(t.id), i);
  }
}
