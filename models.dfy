/**
 * The rows of the SQL store: users, personal tasks, common tasks, progress on
 * common tasks and the outbox of events that mirror every change onto the
 * spreadsheet. JSON payloads are modelled as one constructor per event type.
 */
module Models {
  import opened Wrappers
  import opened Due
  import opened Config

  datatype User = User(id: int, telegramId: int, name: string)

  /** A personal task; `assigneeName` is also the name of the assignee's sheet. */
  datatype Task = Task(id: int, assigneeName: string, taskText: string, fromName: string,
                       dueAt: Option<DateTime>, status: string, createdAt: string)

  datatype CommonTask = CommonTask(id: int, taskText: string, fromName: string,
                                   dueAt: Option<DateTime>, status: string, createdAt: string)

  datatype CommonProgress = CommonProgress(id: int, taskId: int, userName: string, status: string, updatedAt: string)

  /** Which table an archive sweep ran over (the payload's "type"). */
  datatype ArchiveKind = Personal | Common

  /** An outbox event: its type together with its payload. */
  datatype Event =
    | UserUpsert(name: string, telegramId: int)
    | UserDelete(name: string, telegramId: int)
    | TaskCreated(sheet: string, taskId: int, task: string, fromName: string, due: string, status: string)
    | TaskStatus(sheet: string, taskId: int, status: string)
    | TaskText(sheet: string, taskId: int, task: string)
    | TaskDue(sheet: string, taskId: int, due: string)
    | TaskDelete(sheet: string, taskId: int)
    | CommonCreated(taskId: int, task: string, fromName: string, due: string, status: string)
    | CommonProgressSet(taskId: int, user: string, status: string)
    | TaskArchiveBatch(cutoff: DateTime, kind: ArchiveKind)
    | Unknown(eventType: string)
  {
    /** The `event_type` column. */
    function TypeName(): string {
      match this
      case UserUpsert(_, _) => "USER_UPSERT"
      case UserDelete(_, _) => "USER_DELETE"
      case TaskCreated(_, _, _, _, _, _) => "TASK_CREATED"
      case TaskStatus(_, _, _) => "TASK_STATUS"
      case TaskText(_, _, _) => "TASK_TEXT"
      case TaskDue(_, _, _) => "TASK_DUE"
      case TaskDelete(_, _) => "TASK_DELETE"
      case CommonCreated(_, _, _, _, _) => "COMMON_CREATED"
      case CommonProgressSet(_, _, _) => "COMMON_PROGRESS"
      case TaskArchiveBatch(_, _) => "TASK_ARCHIVE_BATCH"
      case Unknown(t) => t
    }
  }

  /**
   * An outbox row. It is unprocessed exactly when `processedAt` is None; the
   * error text is independent of that and may be present on either.
   */
  datatype OutboxRow = OutboxRow(id: int, event: Event, processedAt: Option<string>, error: Option<string>) {
    predicate Pending() {
      processedAt.None?
    }
  }

  /** `status or STATUS_TODO`: the status a created task gets. */
  function StatusOrTodo(status: string): (r: string)
    ensures r != ""
    ensures status != "" ==> r == status
  {
    if status == "" then StatusTodo else status
  }

  // ----- table invariants -----

  /** `telegram_id` is UNIQUE. */
  predicate UniqueTelegramIds(us: seq<User>) {
    forall i, j :: 0 <= i < |us| && 0 <= j < |us| && us[i].telegramId == us[j].telegramId ==> i == j
  }

  /** `name` is UNIQUE. */
  predicate UniqueNames(us: seq<User>) {
    forall i, j :: 0 <= i < |us| && 0 <= j < |us| && us[i].name == us[j].name ==> i == j
  }

  /** UNIQUE(task_id, user_name) on common progress. */
  predicate UniqueProgressPairs(ps: seq<CommonProgress>) {
    forall i, j :: 0 <= i < |ps| && 0 <= j < |ps| && ps[i].taskId == ps[j].taskId && ps[i].userName == ps[j].userName ==> i == j
  }

  predicate HasCommonTask(ts: seq<CommonTask>, id: int) {
    exists k :: 0 <= k < |ts| && ts[k].id == id
  }

  /** The foreign key common_progress.task_id -> common_tasks.id. */
  predicate ProgressReferencesTasks(ts: seq<CommonTask>, ps: seq<CommonProgress>) {
    forall k :: 0 <= k < |ps| ==> HasCommonTask(ts, ps[k].taskId)
  }

  // Integer primary keys: each table is kept in insertion order, so its keys
  // ascend, and every key is below the next one to hand out.

  predicate UserKeys(us: seq<User>, next: int) {
    && (forall i, j :: 0 <= i < j < |us| ==> us[i].id < us[j].id)
    && (forall k :: 0 <= k < |us| ==> 1 <= us[k].id < next)
  }

  predicate TaskKeys(ts: seq<Task>, next: int) {
    && (forall i, j :: 0 <= i < j < |ts| ==> ts[i].id < ts[j].id)
    && (forall k :: 0 <= k < |ts| ==> 1 <= ts[k].id < next)
  }

  predicate CommonTaskKeys(ts: seq<CommonTask>, next: int) {
    && (forall i, j :: 0 <= i < j < |ts| ==> ts[i].id < ts[j].id)
    && (forall k :: 0 <= k < |ts| ==> 1 <= ts[k].id < next)
  }

  predicate ProgressKeys(ps: seq<CommonProgress>, next: int) {
    && (forall i, j :: 0 <= i < j < |ps| ==> ps[i].id < ps[j].id)
    && (forall k :: 0 <= k < |ps| ==> 1 <= ps[k].id < next)
  }

  predicate OutboxKeys(rs: seq<OutboxRow>, next: int) {
    && (forall i, j :: 0 <= i < j < |rs| ==> rs[i].id < rs[j].id)
    && (forall k :: 0 <= k < |rs| ==> 1 <= rs[k].id < next)
  }

  /** Ascending keys are unique keys. */
  lemma TaskKeysUnique(ts: seq<Task>, next: int, i: int, j: int)
    requires TaskKeys(ts, next) && 0 <= i < |ts| && 0 <= j < |ts| && ts[i].id == ts[j].id
    ensures i == j
  {
  }
}
