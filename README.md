# taskbot, modelled in Dafny

taskbot is a Telegram bot for team tasks. People register a sheet name with
`/register`, create personal or common tasks through the `/newtask` dialog, list
them by tab (`/my`, `/overdue`, `/done`, `/all`) and mark them done from inline
buttons. The SQL database is the source of truth. It has four tables: users,
personal tasks, common tasks (one row per task) and the progress rows that record
who has completed which common task. Every successful change appends one typed
event to an outbox table. Once a minute a sync worker drains that outbox onto a
Google spreadsheet, which serves only as a mirror.

This project models that core:

- The store (`TasksRepo`, `CommonRepo`, `UsersRepo`, over the table
  datatypes of `Models`) and its outbox (`OutboxStore`). Each class updates its
  rows in place. Each state-changing method first makes the row change, then
  appends the event, in two separate steps, as the code's two sessions do.
- The sync worker's `run_once` (`SyncWorker`). It ensures the worksheets,
  fetches at most 200 pending events and applies them one at a time. A raising
  event has its error recorded. The ids of the events that went through are
  stamped processed at the end.
- The mirror (`Sheets`) as a class holding `map<string, seq<seq<string>>>`,
  with the gspread calls the code uses. On top of it sit the event dispatch
  (`MirrorApply`), the worksheet and header set-up (`MirrorSchema`,
  `SheetsSchema`) and the progress facade (`SheetsCommon`).
- The bot side. This covers the `/newtask` dialog as a class over its
  conversation state (`NewTaskDialog`), the callback and command parsing
  (`Handlers`), the tabs, the overdue-first in-place sort and the DONE buttons
  (`TaskViews`), the line formatter and message chunking (`Formatters`) and the
  keyboards' callback data (`Keyboards`).
- Python's string and integer built-ins that these rely on (`Text`): `strip`,
  `int()`, `str()`, `split` with a limit, `rsplit`, `upper` and string order.
  `strptime`/`strftime` for the due dates are in `Due`. The configuration
  constants are in `Config`.

Clocks, uuids, today's date, the date parser `normalize_due_date` and the
spreadsheet client's own failures are parameters. Payloads are one datatype
case per event type instead of JSON.

Where the files of the repository disagree, each is modelled as it is written:

- `taskbot/tg/handlers.py:112` moves the dialog to `entering_due_date`, a state
  that `taskbot/tg/fsm.py:6-10` does not declare. The model follows the handlers.
- `taskbot/sheets/common.py:13` imports a `tasks_list_sync` that
  `taskbot/sheets/tasks.py` does not define. The common-task list is therefore a
  parameter of the per-user view.
- `taskbot/config.py` has no `STATUS_ARCHIVE` and no `USERS_HEADERS`. The model
  uses "ARCHIVE" and the `["Name", "TelegramID"]` header of
  `taskbot/sheets/schema.py:40`.
- `is_overdue` (`taskbot/utils/dates.py:20-25`) parses the due text with
  `date.fromisoformat`, which takes only "YYYY-MM-DD". The store hands out due
  texts "YYYY-MM-DD HH:MM", so the code raises for every open task with a due
  date. `Dates.IsOverdueAsWritten` models that call; the views use
  `Dates.Overdue`, which compares the texts and is proved to be the order of the
  days (see "## Findings").

## Model

| member | source | states |
|---|---|---|
| Models.StatusOrTodo | taskbot/storage/sql/tasks_repo.py:49 | A created task's status is never empty, and a non-empty status given by the caller is kept. |
| Models.TaskKeysUnique | taskbot/storage/sql/models.py:34 | Integer primary keys handed out in ascending order never repeat. |
| OutboxStore.Pending | taskbot/storage/sql/outbox.py:27 | The rows `processed_at IS NULL` selects are never more than the table holds, and each of them is unprocessed. |
| OutboxStore.OutboxIds | taskbot/storage/sql/outbox.py:41 | The id list of some rows holds each row's id, in order. |
| OutboxStore.MarkProcessedRows | taskbot/storage/sql/outbox.py:39-43 | The bulk update keeps the number of rows and acts on each row on its own. |
| OutboxStore.MarkErrorRows | taskbot/storage/sql/outbox.py:52-54 | The error update keeps the number of rows and acts on each row on its own. |
| OutboxStore.Outbox.constructor | taskbot/storage/sql/models.py:76-88 | A new outbox is empty and hands out id 1 first. |
| OutboxStore.Outbox.Add | taskbot/storage/sql/outbox.py:13-19 | Exactly one row is appended: a fresh id, the event, not processed and no error. |
| OutboxStore.Outbox.FetchBatch | taskbot/storage/sql/outbox.py:22-29 | Returns the first `limit` unprocessed rows in id order and changes nothing. |
| OutboxStore.Outbox.MarkProcessed | taskbot/storage/sql/outbox.py:32-44 | The rows whose id is listed are stamped processed with their error cleared; an empty list changes nothing. |
| OutboxStore.Outbox.MarkError | taskbot/storage/sql/outbox.py:47-55 | Only the error of the row with that id is set. |
| OutboxStore.PendingMembers | taskbot/storage/sql/outbox.py:27 | A row is pending exactly when it is in the table with `processed_at` null. |
| OutboxStore.PendingAscending | taskbot/storage/sql/outbox.py:27 | The pending rows keep ascending ids, since the table does. |
| OutboxStore.FetchProperties | taskbot/storage/sql/outbox.py:27-29 | A batch holds at most `limit` rows, only unprocessed rows of the table, in ascending id order, and it is a prefix of the pending rows: it stops short only at the limit. |
| OutboxStore.Fetch | taskbot/storage/sql/outbox.py:27-29 | A batch holds at most `limit` rows, no more than the table, and each of them is unprocessed. |
| OutboxStore.MarkProcessedNone | taskbot/storage/sql/outbox.py:36-37 | Marking an empty id list changes no row. |
| OutboxStore.MarkProcessedEffect | taskbot/storage/sql/outbox.py:39-43 | A listed row is stamped and its error cleared; any other row is unchanged; ids and events never change. |
| OutboxStore.MarkErrorKeepsPending | taskbot/storage/sql/outbox.py:47-55 | Recording an error keeps the pending set, so the row is fetched and retried again; only the error of that id changes. |
| OutboxStore.PendingIdsMarkError | taskbot/storage/sql/outbox.py:52-54 | The ids of the pending rows are the same before and after an error is recorded. |
| OutboxStore.PendingAfterMarkProcessed | taskbot/storage/sql/outbox.py:39-43 | After marking, the pending rows are the former pending rows whose id was not listed. |
| Due.DueToStr | taskbot/storage/sql/tasks_repo.py:30-33 | No due date gives "", and every due date gives sixteen characters "YYYY-MM-DD HH:MM" with its separators in place. |
| Due.ParseDueStr | taskbot/storage/sql/tasks_repo.py:15-27 | Whatever the parser accepts is a real calendar date and time. |
| Due.ParseWithoutDigits | taskbot/storage/sql/tasks_repo.py:26-27 | A text with no digit in it parses to no due date, without an error. |
| Due.DatePartOf | taskbot/storage/sql/tasks_repo.py:30-33 | The date part of a formatted due date reads back as its year, month and day. |
| Due.TimePartOf | taskbot/storage/sql/tasks_repo.py:30-33 | The time part of a formatted due date reads back as its hour and minute. |
| Due.DueRoundTrip | taskbot/storage/sql/tasks_repo.py:15-33 | `_parse_due_str(_due_to_str(d)) == d` for every minute-precision datetime. |
| Dates.Overdue | taskbot/utils/dates.py:20-25 | The corrected overdue test of the fifth finding: on two "YYYY-MM-DD" texts, the due text is before today's exactly when the due day comes before today in (year, month, day) order. |
| Dates.IsOverdueAsWritten | taskbot/utils/dates.py:20-25 | `is_overdue` as written: it answers exactly when `date.fromisoformat` accepts the due text as a real calendar day, and then agrees with `Dates.Overdue`. |
| Dates.StoredDueRaises | taskbot/storage/sql/tasks_repo.py:30-33 | Every due date the store hands out is sixteen characters long, so `is_overdue` as written raises on it. |
| Dates.StoredDueOverdue | taskbot/utils/dates.py:20-25 | A stored due date "YYYY-MM-DD HH:MM" is overdue under `Dates.Overdue` exactly when its day comes before today. |
| Dates.IsoOrderAgrees | taskbot/utils/dates.py:25 | On texts of the shape "YYYY-MM-DD", comparing the texts is comparing the days. |
| TasksRepo.Dicts | taskbot/storage/sql/tasks_repo.py:80-87 | One dict per row, in row order. |
| TasksRepo.FindTask | taskbot/storage/sql/tasks_repo.py:101-104 | The lookup finds a row with this id and this assignee, or says that no row has both. |
| TasksRepo.Locate | taskbot/storage/sql/tasks_repo.py:95-104 | A task that is found belongs to the given assignee. |
| TasksRepo.ArchiveAll | taskbot/storage/sql/tasks_repo.py:178-179 | The sweep decides each row on its own and keeps the number of rows. |
| TasksRepo.ArchiveStatusEvents | taskbot/storage/sql/tasks_repo.py:178-186 | The corrected outbox record of the sixth finding: one TASK_STATUS event with status ARCHIVE per archived task. |
| TasksRepo.ArchiveStatusEventsCover | taskbot/storage/sql/tasks_repo.py:178-186 | Every task the sweep archives has its TASK_STATUS ARCHIVE event among them. |
| TasksRepo.TasksRepo.constructor | taskbot/storage/sql/models.py:27-40 | A new table is empty and hands out id 1 first. |
| TasksRepo.TasksRepo.Create | taskbot/storage/sql/tasks_repo.py:36-65 | One row with the next id, the parsed due date, the status or TODO and the clock's time (the caller's created_at is ignored), then one TASK_CREATED event with the same fields; returns the new id. |
| TasksRepo.TasksRepo.List | taskbot/storage/sql/tasks_repo.py:68-88 | The assignee's rows, newest first, as dicts; the table is unchanged. |
| TasksRepo.TasksRepo.EditTask | taskbot/storage/sql/tasks_repo.py:91-147 | Succeeds exactly when the id text locates a task of the assignee. On success that one task gets the edit and one event follows; otherwise nothing changes and no event follows. |
| TasksRepo.TasksRepo.SetStatus | taskbot/storage/sql/tasks_repo.py:91-109 | As above: only the status of the located task changes, then one TASK_STATUS event follows. |
| TasksRepo.TasksRepo.UpdateText | taskbot/storage/sql/tasks_repo.py:112-127 | As above: only the text changes, then one TASK_TEXT event follows. |
| TasksRepo.TasksRepo.UpdateDue | taskbot/storage/sql/tasks_repo.py:130-147 | As above: the due date becomes the parsed text (None when it does not parse), then one TASK_DUE event carrying the formatted due follows. |
| TasksRepo.TasksRepo.Delete | taskbot/storage/sql/tasks_repo.py:150-165 | The located row, and only it, is removed, then one TASK_DELETE event follows; a failed lookup changes nothing. |
| TasksRepo.TasksRepo.Sweep | taskbot/storage/sql/tasks_repo.py:173-181 | The loop leaves the table swept and counts the archived rows. |
| TasksRepo.TasksRepo.ArchiveDoneBefore | taskbot/storage/sql/tasks_repo.py:168-187 | Every DONE task due strictly before the cutoff becomes ARCHIVE and the count is returned; one TASK_ARCHIVE_BATCH event follows only when the count is positive. This is the as-written event of the sixth finding; `TasksRepo.ArchiveStatusEvents` is the corrected one. |
| TasksRepo.ArchiveKeepsKeys | taskbot/storage/sql/tasks_repo.py:178-179 | The sweep keeps the primary keys. |
| TasksRepo.TaskKeysRemove | taskbot/storage/sql/tasks_repo.py:160-161 | Deleting a row keeps the remaining keys ascending. |
| TasksRepo.LocateIff | taskbot/storage/sql/tasks_repo.py:95-104 | The lookup finds row k exactly when the id text is an integer equal to k's id and k's assignee is the one given; the id alone is not enough. |
| TasksRepo.FindTaskIff | taskbot/storage/sql/tasks_repo.py:101-104 | The query by (assignee, id) finds row k exactly when k has both. |
| TasksRepo.LocateNeedsInteger | taskbot/storage/sql/tasks_repo.py:95-98 | A non-integer id text finds nothing, so no row changes and no event follows. |
| TasksRepo.SelectedMembers | taskbot/storage/sql/tasks_repo.py:72-75 | A task is listed exactly when it is in the table under that assignee. |
| TasksRepo.Selected | taskbot/storage/sql/tasks_repo.py:72-76 | The tasks selected for an assignee are no more than the table holds, and each of them is that assignee's. |
| TasksRepo.SelectedDescending | taskbot/storage/sql/tasks_repo.py:74 | The listed tasks come in strictly descending id order. |
| TasksRepo.ListProperties | taskbot/storage/sql/tasks_repo.py:68-88 | `tasks_list(a)` lists exactly a's tasks, newest first, and each dict's task_id reads back as the row's id. |
| TasksRepo.ArchiveStep | taskbot/storage/sql/tasks_repo.py:178-179 | Each turn of the loop extends the swept prefix by one row and the count by its archivability. |
| TasksRepo.ArchiveIsStrict | taskbot/storage/sql/tasks_repo.py:173 | A task due exactly at the cutoff is not archived. |
| TasksRepo.BeforeIrreflexive | taskbot/storage/sql/tasks_repo.py:173 | No datetime is before itself. |
| TasksRepo.ArchiveCountZeroIff | taskbot/storage/sql/tasks_repo.py:175-186 | The count is zero exactly when the sweep changed nothing, so the event is emitted exactly when some row changed. |
| TasksRepo.ArchiveIdempotent | taskbot/storage/sql/tasks_repo.py:168-187 | A second sweep with the same cutoff changes nothing and counts zero, so it emits no event. |
| TasksRepo.GarbageDueClears | taskbot/storage/sql/tasks_repo.py:136-143 | `task_update_due` with text holding no digit clears the due date. |
| CommonRepo.CommonDicts | taskbot/storage/sql/common_repo.py:63-71 | One dict per common task, in order. |
| CommonRepo.NewestFirst | taskbot/storage/sql/common_repo.py:59 | The ordered list has as many rows as the table. |
| CommonRepo.FindProgress | taskbot/storage/sql/common_repo.py:80-84 | Finds the progress row of the (task, user) pair, or says that there is none. |
| CommonRepo.CommonArchiveAll | taskbot/storage/sql/common_repo.py:108-112 | The common sweep decides each row on its own and keeps the number of rows. |
| CommonRepo.CommonRepo.constructor | taskbot/storage/sql/models.py:43-73 | New common and progress tables are empty. |
| CommonRepo.CommonRepo.Create | taskbot/storage/sql/common_repo.py:32-54 | Exactly one common row with the next id and the status or TODO, then one COMMON_CREATED event; progress is untouched. |
| CommonRepo.CommonRepo.List | taskbot/storage/sql/common_repo.py:57-72 | All common tasks, newest first, as dicts. |
| CommonRepo.CommonRepo.SetDone | taskbot/storage/sql/common_repo.py:75-92 | A non-integer id fails before any change. Otherwise the pair's row becomes DONE, or a DONE row is inserted; the insert fails on the foreign key when the task does not exist. Every successful call appends one COMMON_PROGRESS event. |
| CommonRepo.CommonRepo.Sweep | taskbot/storage/sql/common_repo.py:108-112 | The loop leaves the common table swept and counts the archived rows. |
| CommonRepo.CommonRepo.ArchiveDoneBefore | taskbot/storage/sql/common_repo.py:104-117 | The same strict, DONE-only, dated rule as for personal tasks; one event of type "common" only when the count is positive. |
| CommonRepo.ReferencesGrow | taskbot/storage/sql/common_repo.py:47-50 | Adding a common task keeps every progress row referencing a task. |
| CommonRepo.UpdateKeepsInvariants | taskbot/storage/sql/common_repo.py:85-86 | Restamping a progress row keeps its keys, the pair's uniqueness and the foreign key. |
| CommonRepo.InsertUnique | taskbot/storage/sql/common_repo.py:87-89 | Inserting a pair that had no row keeps at most one row per (task, user). |
| CommonRepo.InsertKeepsInvariants | taskbot/storage/sql/common_repo.py:87-89 | Inserting a DONE row for an existing task and a new pair keeps keys, uniqueness and the foreign key. |
| CommonRepo.CommonArchiveStep | taskbot/storage/sql/common_repo.py:108-112 | Each turn of the loop extends the swept prefix by one row and the count by its archivability. |
| CommonRepo.CommonArchiveKeeps | taskbot/storage/sql/common_repo.py:104-117 | The common sweep keeps the keys, and every progress row still references a task. |
| CommonRepo.IsDoneIff | taskbot/storage/sql/common_repo.py:95-101 | `common_progress_is_done` holds exactly when a DONE row exists for the pair. |
| CommonRepo.IsDone | taskbot/storage/sql/common_repo.py:95-101 | A task counts as done for a user only when some progress row of that task and user has status DONE. |
| CommonRepo.SetDoneRows | taskbot/storage/sql/common_repo.py:75-92 | Marking done adds at most one progress row, and every existing row keeps its id, task and user. |
| CommonRepo.SetDoneThenIsDone | taskbot/storage/sql/common_repo.py:75-101 | After a successful `common_progress_set_done` the pair reads as done. |
| CommonRepo.SetDoneTwiceNoGrowth | taskbot/storage/sql/common_repo.py:80-90 | A second `common_progress_set_done` for the pair succeeds and adds no row. |
| CommonRepo.NewestFirstAt | taskbot/storage/sql/common_repo.py:59 | Position k of the list is the k-th row from the end of the table. |
| CommonRepo.ListProperties | taskbot/storage/sql/common_repo.py:57-72 | `common_tasks_list` holds every common task once, in strictly descending id order, and each dict's task_id reads back as the row's id. |
| CommonRepo.CommonArchiveIdempotent | taskbot/storage/sql/common_repo.py:104-117 | A second common sweep changes nothing and counts zero; a task due exactly at the cutoff is kept. |
| CommonRepo.CommonCountZero | taskbot/storage/sql/common_repo.py:113-114 | With nothing archivable the count is zero, so no event follows. |
| UsersRepo.FindByTelegramId | taskbot/storage/sql/users_repo.py:47-48 | Finds the user holding the telegram id, or says that nobody does. |
| UsersRepo.FindByName | taskbot/storage/sql/users_repo.py:49-50 | Finds the user holding the name, or says that nobody does. |
| UsersRepo.UsersRepo.constructor | taskbot/storage/sql/models.py:18-24 | A new users table is empty. |
| UsersRepo.UsersRepo.GetUsersMap | taskbot/storage/sql/users_repo.py:12-16 | The map of the current table; nothing changes. |
| UsersRepo.UsersRepo.Upsert | taskbot/storage/sql/users_repo.py:40-62 | The holder of the telegram id is renamed, else the holder of the name is rebound, else a user is inserted; a rename onto another user's name is rejected with no change and no event; otherwise one USER_UPSERT event follows. |
| UsersRepo.UsersRepo.DeleteByTelegramId | taskbot/storage/sql/users_repo.py:65-76 | Removes only the holder of the id and returns their name, then one USER_DELETE event; for an absent id returns None with no change and no event. |
| UsersRepo.UsersRepo.DeleteByName | taskbot/storage/sql/users_repo.py:79-90 | Removes only the holder of the name and returns their telegram id, then one USER_DELETE event; for an absent name returns None with no change and no event. |
| UsersRepo.UpsertKeepsInvariants | taskbot/storage/sql/users_repo.py:52-57 | Every accepted upsert keeps the keys and keeps telegram id and name unique. |
| UsersRepo.RenameKeeps | taskbot/storage/sql/users_repo.py:52-53 | Renaming to a name nobody else holds keeps both columns unique. |
| UsersRepo.RebindKeeps | taskbot/storage/sql/users_repo.py:54-55 | Binding a telegram id nobody holds keeps both columns unique. |
| UsersRepo.InsertKeeps | taskbot/storage/sql/users_repo.py:56-57 | A new user with the next id, a fresh name and a fresh telegram id keeps the keys and both columns unique. |
| UsersRepo.RemoveKeepsInvariants | taskbot/storage/sql/users_repo.py:71-72 | Deleting a user keeps the keys and both columns unique. |
| UsersRepo.GetMapSpec | taskbot/storage/sql/users_repo.py:12-16 | The map's keys are exactly the users' names, and each name maps to that user's telegram id. |
| UsersRepo.GetMap | taskbot/storage/sql/users_repo.py:12-16 | The name-to-id map has no more entries than there are users. |
| UsersRepo.Upserted | taskbot/storage/sql/users_repo.py:40-59 | A successful upsert adds at most one user and keeps every existing user's id in place. |
| UsersRepo.GetMapLookup | taskbot/storage/sql/users_repo.py:12-16 | A name is a key exactly when the table holds it, and maps to that user's id. |
| UsersRepo.UpsertFailsIff | taskbot/storage/sql/users_repo.py:52-59 | The upsert is rejected exactly when one user holds the telegram id and a different user holds the name. |
| UsersRepo.UpsertThenMap | taskbot/storage/sql/users_repo.py:40-62 | After an accepted upsert the map sends the name to the telegram id. |
| UsersRepo.DeleteThenMap | taskbot/storage/sql/users_repo.py:65-90 | Deleting a user removes exactly that name from the map. |
| SheetsTasks.FromDict | taskbot/sheets/tasks.py:48 | A row made from a dict carries the dict's fields. |
| SheetsTasks.FromDicts | taskbot/sheets/tasks.py:46-48 | One TaskRow per dict, in the same order. |
| SheetsTasks.TaskAppend | taskbot/sheets/tasks.py:30-43 | Creates the task through `task_create` on that sheet, with an empty status defaulting to TODO, and returns the new id as text; the row's own id and created_at are not used. |
| SheetsTasks.TasksList | taskbot/sheets/tasks.py:46-48 | The store's list for the sheet, each dict as a TaskRow, in order. |
| SheetsTasks.TaskSetDone | taskbot/sheets/tasks.py:51-52 | Has exactly the effect and result of `task_set_status` with DONE. |
| SheetsTasks.TaskSetTodo | taskbot/sheets/tasks.py:55-56 | Has exactly the effect and result of `task_set_status` with TODO. |
| SheetsTasks.AppendedIdLocates | taskbot/sheets/tasks.py:30-52 | The id text `task_append` returns locates the appended task for `task_set_done` and the other edits on that sheet. |
| SheetsTasks.ListedRowsLocate | taskbot/sheets/tasks.py:46-52 | Every listed row is one of that sheet's tasks, and its id text locates that task, so a listed task can be marked done from the list. |
| Sheets.PadTo | taskbot/sheets/common.py:28-29 | A padded row keeps its cells and has at least the asked length. |
| Sheets.Overlay | taskbot/sheets/mirror_apply.py:48 | Writing values into the start of a row keeps the later cells. |
| Sheets.TrimTrailingEmpty | taskbot/sheets/mirror_schema.py:21 | The cells `row_values` returns are a prefix of the row that ends in a non-empty cell. |
| Sheets.Spreadsheet.constructor | taskbot/sheets/mirror_client.py:22-23 | A spreadsheet opened with the given worksheets. |
| Sheets.Spreadsheet.AddWorksheet | taskbot/sheets/mirror_schema.py:17 | Adds an empty worksheet under the name and touches no other. |
| Sheets.Spreadsheet.GetAllValues | taskbot/sheets/mirror_apply.py:45 | Returns the worksheet's rows and changes nothing. |
| Sheets.Spreadsheet.GetRowValues | taskbot/sheets/mirror_schema.py:21 | Returns row r without its trailing empty cells and changes nothing. |
| Sheets.Spreadsheet.Append | taskbot/sheets/mirror_apply.py:36-39 | Appends one row to the named worksheet. |
| Sheets.Spreadsheet.UpdateCell | taskbot/sheets/mirror_apply.py:32 | Writes one cell of the named worksheet. |
| Sheets.Spreadsheet.Update | taskbot/sheets/mirror_apply.py:48 | Writes values into the start of one row of the named worksheet. |
| Sheets.Spreadsheet.DeleteRows | taskbot/sheets/mirror_apply.py:58 | Removes one row of the named worksheet. |
| Sheets.OverlayIdempotent | taskbot/sheets/mirror_apply.py:48 | Writing the same values twice is writing them once. |
| Sheets.PutCellOnly | taskbot/sheets/mirror_apply.py:32 | Writing a cell sets that cell and keeps every other cell, padding with empty ones. |
| Sheets.SetCellOnly | taskbot/sheets/mirror_apply.py:32 | `update_cell` changes one row only, and in it only the one cell. |
| MirrorApply.HeaderColumn | taskbot/sheets/mirror_apply.py:31 | The column of a header is its 1-based position in TASK_HEADERS. |
| MirrorApply.FirstWithKey | taskbot/sheets/mirror_apply.py:46-47 | Finds the first row whose first cell is the key, or says that none has it. |
| MirrorApply.FindRowAnyCell | taskbot/sheets/mirror_apply.py:19-27 | As written: the row returned holds the id in some cell, in any column; None only when no cell holds it. |
| MirrorApply.FindTaskRow | taskbot/sheets/mirror_apply.py:19-27 | The row found holds the id in its TaskID column, and it is the first such row. |
| MirrorApply.UserRow | taskbot/sheets/mirror_apply.py:46-47 | The row found is never the header row and lies within the sheet. |
| MirrorApply.UpsertUserInUsersSheet | taskbot/sheets/mirror_apply.py:42-50 | The loop rewrites A:B of the first row below the header naming the user, or appends the pair. |
| MirrorApply.DeleteUserFromUsersSheet | taskbot/sheets/mirror_apply.py:53-59 | The loop deletes the first row below the header naming the user, if there is one. |
| MirrorApply.ApplyEvent | taskbot/sheets/mirror_apply.py:62-125 | Dispatches on the event type: the mirror becomes the event's effect, or is unchanged and the missing worksheet's error is raised. Task rows are found by the corrected TaskID-column lookup of the first finding, not by the any-cell `ws.find`. |
| MirrorApply.UpdateCellByHeader | taskbot/sheets/mirror_apply.py:30-32 | Writes the value under the header in the task's row, if there is one; the row is found by the corrected TaskID-column lookup of the first finding. |
| MirrorApply.RaisesIff | taskbot/sheets/mirror_apply.py:62-125 | An event raises exactly when the worksheet it writes to is missing; TASK_ARCHIVE_BATCH and unknown events never raise. |
| MirrorApply.ApplySpec | taskbot/sheets/mirror_apply.py:62-125 | An applied event leaves the set of worksheets as it was. Task rows are found by the corrected TaskID-column lookup of the first finding. |
| MirrorApply.NoOpEvents | taskbot/sheets/mirror_apply.py:117-125 | TASK_ARCHIVE_BATCH and unknown event types leave the mirror as it is. |
| MirrorApply.FieldEventTouchesOneCell | taskbot/sheets/mirror_apply.py:84-100 | TASK_STATUS, TASK_TEXT and TASK_DUE write one cell, in their header's column, of the task's row; everything else is kept; without the row nothing changes. |
| MirrorApply.DeleteKeepsHeader | taskbot/sheets/mirror_apply.py:105 | TASK_DELETE never deletes row 1. |
| MirrorApply.CreatedTwiceDuplicates | taskbot/sheets/mirror_apply.py:80-82 | Replaying TASK_CREATED appends a second copy of the row, so the event is not idempotent. |
| MirrorApply.ProgressTwiceDuplicates | taskbot/sheets/mirror_apply.py:112-115 | Every COMMON_PROGRESS application appends one more log row. |
| MirrorApply.UserUpsertIdempotent | taskbot/sheets/mirror_apply.py:42-50 | On a Users sheet with its header row, applying USER_UPSERT twice equals applying it once. |
| MirrorApply.UserDeleteRemovesOne | taskbot/sheets/mirror_apply.py:53-59 | USER_DELETE removes exactly the first row below the header naming the user and keeps every other row; without one nothing changes. |
| MirrorApply.UpsertThenDeleteRestores | taskbot/sheets/mirror_apply.py:42-59 | On a Users sheet with a header and no row for the name, USER_UPSERT then USER_DELETE of the name restores the sheet. |
| MirrorApply.AnyCellFindHitsWrongTask | taskbot/sheets/mirror_apply.py:19-27 | With task 3 whose text is "7" above task 7, the as-written lookup for task 7 returns task 3's row, and the TaskID-column lookup returns task 7's. |
| MirrorSchema.Required | taskbot/sheets/mirror_schema.py:30-45 | The worksheets ensured: Users, Общие and CommonProgress with their headers, then one task sheet per user name, in that order. |
| MirrorSchema.EnsureWs | taskbot/sheets/mirror_schema.py:12-17 | An existing worksheet is left untouched; a missing one is created empty. |
| MirrorSchema.EnsureHeaders | taskbot/sheets/mirror_schema.py:20-23 | Row 1 is overwritten with the headers only when it reads differently. |
| MirrorSchema.EnsureBaseStructure | taskbot/sheets/mirror_schema.py:26-45 | The loop leaves the mirror with every requirement ensured in order. |
| MirrorSchema.HeadersFixedShape | taskbot/sheets/mirror_schema.py:20-23 | Afterwards row 1 begins with the headers, and every later row is kept. |
| MirrorSchema.HeadersFixedIsWrite | taskbot/sheets/mirror_schema.py:22-23 | For headers ending in a non-empty title, the comparison only skips writes that would change nothing. |
| MirrorSchema.HeadersFixedIdempotent | taskbot/sheets/mirror_schema.py:20-23 | A second `_ensure_headers` with the same headers leaves the sheet as the first left it. |
| MirrorSchema.HeadersSettle | taskbot/sheets/mirror_schema.py:21-23 | When row 1 holds nothing past the headers, the next call writes nothing; cells right of the headers make it rewrite row 1 every time. |
| MirrorSchema.TrimToPrefix | taskbot/sheets/mirror_schema.py:21 | Trimming a row that is `p` followed by empty cells, `p` ending non-empty, gives `p`. |
| MirrorSchema.TrimKeepsNonEmpty | taskbot/sheets/mirror_schema.py:21 | Trimming keeps every cell up to a non-empty one. |
| MirrorSchema.EnsuredFrame | taskbot/sheets/mirror_schema.py:12-23 | Ensuring one requirement changes only the worksheet it names. |
| MirrorSchema.EnsureListFrame | taskbot/sheets/mirror_schema.py:26-45 | Afterwards every required worksheet exists, no other is added, and one not required is unchanged. |
| MirrorSchema.EnsureListKeepsData | taskbot/sheets/mirror_schema.py:23 | No row below the header of an existing worksheet is touched. |
| MirrorSchema.EnsureListHeaders | taskbot/sheets/mirror_schema.py:26-45 | Row 1 of each required worksheet begins with the headers of the last requirement naming it. |
| MirrorSchema.EnsuredCommute | taskbot/sheets/mirror_schema.py:26-45 | Two differently named worksheets can be ensured in either order. |
| MirrorSchema.EnsuredAt | taskbot/sheets/mirror_schema.py:12-23 | Ensuring one worksheet adds at most that name, sets its headers, and touches no other worksheet. |
| MirrorSchema.EnsuredIdempotent | taskbot/sheets/mirror_schema.py:12-23 | Ensuring the same requirement twice is ensuring it once. |
| MirrorSchema.EnsuredCommutesWithList | taskbot/sheets/mirror_schema.py:26-45 | A requirement for a worksheet no other requirement names commutes with all of them. |
| MirrorSchema.EnsureListIdempotent | taskbot/sheets/mirror_schema.py:26-45 | A second `ensure_base_structure` with the same distinct requirements changes nothing. |
| MirrorSchema.RequiredDistinct | taskbot/sheets/mirror_schema.py:30-45 | The requirements name distinct worksheets when no user sheet repeats or shares a base title. |
| SheetsSchema.EnsureBaseStructureSync | taskbot/sheets/schema.py:31-48 | Ensures Users with `["Name", "TelegramID"]`, Общие with TASK_HEADERS and CommonProgress with COMMON_PROGRESS_HEADERS, in that order. |
| SheetsSchema.BaseStructureReady | taskbot/sheets/schema.py:11-48 | Afterwards the three worksheets exist with their headers at the top, every other worksheet is as it was, and a second run changes nothing. |
| SheetsCommon.FirstProgressRow | taskbot/sheets/common.py:47-52 | The row found is below the header and names the pair, and no earlier one does. |
| SheetsCommon.DoneSetSync | taskbot/sheets/common.py:17-34 | Ensures CommonProgress with its headers, then returns the done set of its rows below the header. |
| SheetsCommon.DoneOfRows | taskbot/sheets/common.py:27-32 | The loop collects the done set of the rows. |
| SheetsCommon.SetDoneSync | taskbot/sheets/common.py:37-55 | Ensures CommonProgress with its headers, then writes the DONE row for the pair. |
| SheetsCommon.CommonTasksForUserSync | taskbot/sheets/common.py:58-94 | The user's views of the common tasks that the mode keeps, in order. |
| SheetsCommon.DoneSetMembers | taskbot/sheets/common.py:27-32 | The done set holds exactly the pairs some row below the header contributes; short rows contribute blanks. |
| SheetsCommon.DoneSet | taskbot/sheets/common.py:24-34 | The done set has no more pairs than the sheet has rows. |
| SheetsCommon.SetDoneGrid | taskbot/sheets/common.py:44-55 | The sheet keeps its length exactly when a row for the task and user exists, which is then rewritten, and grows by one row exactly when none does. |
| SheetsCommon.DonePairShape | taskbot/sheets/common.py:31-32 | A pair enters the done set only with a non-blank, stripped id and name, and a status that is DONE after strip and upper. |
| SheetsCommon.SetDoneThenDone | taskbot/sheets/common.py:37-55 | After marking a pair done, it is in the done set, when the id and name are non-blank and stripped and the sheet has its header row. |
| SheetsCommon.SetDoneTwiceNoGrowth | taskbot/sheets/common.py:47-55 | A second DONE mark for the same pair rewrites a row instead of adding one. |
| SheetsCommon.CommonViewIsFiltered | taskbot/sheets/common.py:70-92 | The view is the mode's filter applied to the per-user views, in the tasks' order. |
| SheetsCommon.ModeFilterMembers | taskbot/sheets/common.py:82-90 | A row is shown exactly when it is in the input and the mode keeps it. |
| SheetsCommon.OtherModesKeepAll | taskbot/sheets/common.py:82-90 | Modes other than "my", "done" and "overdue" keep everything. |
| SheetsCommon.MyAndDonePartition | taskbot/sheets/common.py:82-85 | The "my" and "done" tabs together hold as many rows as the input: each task shows in exactly one of them. |
| SheetsCommon.PersonalStatus | taskbot/sheets/common.py:71-80 | In the per-user view the status is DONE exactly when the pair is in the done set, whatever the task's own status; the other fields are the task's. |
| SheetsCommon.PersonalView | taskbot/sheets/common.py:71-80 | The personal view differs from the common task only in its status, which is DONE or TODO. |
| SheetsCommon.ModeFilter | taskbot/sheets/common.py:82-90 | The filter keeps no more rows than it is given, and each kept row passes the mode's test. |
| SheetsCommon.CommonView | taskbot/sheets/common.py:58-94 | The common view has no more rows than there are common tasks, and each passes the mode's test with status DONE or TODO. |
| SyncWorker.DrainSpec | taskbot/sync_worker.py:29-34 | Draining a batch records exactly one outcome per event. |
| SyncWorker.ApplyOne | taskbot/sync_worker.py:29-34 | An event that goes through is not one the client fails on, and leaves the set of worksheets as it was. |
| SyncWorker.ArchiveNeverReachesMirror | taskbot/storage/sql/tasks_repo.py:178-186 | As written (sixth finding): a DONE task the sweep archives is ARCHIVE in the store, while the TASK_ARCHIVE_BATCH event leaves its mirror cell DONE. |
| SyncWorker.ArchiveStatusReachesMirror | taskbot/storage/sql/tasks_repo.py:178-186 | Corrected (sixth finding): the TASK_STATUS ARCHIVE event of an archived task writes ARCHIVE into its mirror row's Status cell. |
| SyncWorker.MarkErrorsAll | taskbot/sync_worker.py:34 | The error calls keep the number of outbox rows. |
| SyncWorker.UserSheetNames | taskbot/sync_worker.py:16-17 | The names passed to `ensure_base_structure` are the users' names, in table order. |
| SyncWorker.DrainStep | taskbot/sync_worker.py:29-34 | One more event appends its outcome; the mirror, the processed ids and the error calls follow that outcome. |
| SyncWorker.ApplyNext | taskbot/sync_worker.py:30-34 | One turn of the loop: the event is applied, then its id is collected or its error recorded. |
| SyncWorker.ApplyBatch | taskbot/sync_worker.py:28-34 | After the loop the mirror is the drained mirror, the collected ids are those of the events that went through, in order, and each raising event has its error recorded. The events are applied by `MirrorApply.ApplyEvent`, with the corrected row lookup of the first finding. |
| SyncWorker.RunOnce | taskbot/sync_worker.py:14-37 | Ensures the worksheets for every user name, then fetches at most 200 pending events. An empty batch changes no outbox row. Otherwise each event is applied on its own, errors are recorded, and exactly the ids that went through are marked processed. The mirror is updated with the corrected row lookup of the first finding. |
| SyncWorker.SheetNamesAreMapKeys | taskbot/sync_worker.py:16-17 | The names handed over are exactly the keys of the users map, without repeats. |
| SyncWorker.MapKeysAreNames | taskbot/storage/sql/users_repo.py:12-16 | The map's keys are exactly the names in the table. |
| SyncWorker.FailedEventLeavesNoTrace | taskbot/sync_worker.py:29-34 | A raising event leaves no trace: the batch without it gives the same mirror, and every other event the same outcome. |
| SyncWorker.FailedLastLeavesNoTrace | taskbot/sync_worker.py:29-34 | The same when the last event raised. |
| SyncWorker.FailedInnerLeavesNoTrace | taskbot/sync_worker.py:29-34 | The same when an earlier event raised. |
| SyncWorker.DrainLast | taskbot/sync_worker.py:29-34 | Draining a batch is draining all but its last event, then applying that one. |
| SyncWorker.OutcomesRecorded | taskbot/sync_worker.py:28-37 | Exactly the events that went through are reported processed, and the last error recorded for each event is its own exception text; ids outside the batch are neither. |
| SyncWorker.MarkErrorsAllAt | taskbot/sync_worker.py:34 | After the error calls each row carries the last error recorded for its id, and nothing else about it changes. |
| SyncWorker.RunOnceOutcome | taskbot/sync_worker.py:14-37 | A row that went through is stamped processed with its error cleared; a raising row stays pending, so the next pass retries it, and carries its exception text; every other row is unchanged. |
| SyncWorker.RowAfterRun | taskbot/sync_worker.py:34-37 | What a pass does to one outbox row, given the batch and its outcomes. |
| Handlers.MapItems | taskbot/tg/handlers.py:27 | The map's items are the users' (name, telegram id) pairs, in table order. |
| Handlers.Keys | taskbot/tg/handlers.py:85 | The map's keys, in order. |
| Handlers.Lookup | taskbot/tg/handlers.py:151-154 | A name found maps to that id in the items; a name not found is no key. |
| Handlers.GetMySheetNameOrNone | taskbot/tg/handlers.py:25-30 | The name returned is bound to the id; None exactly when no name is bound to it. |
| Handlers.MySheetIsTheUser | taskbot/tg/handlers.py:25-30 | With unique ids, the sheet found for an id is the name of its one holder, and the map sends that name back to the id. |
| Handlers.LookupIsTheUser | taskbot/tg/handlers.py:151-154 | Looking up a user's name gives that user's own telegram id. |
| Handlers.RegisterArg | taskbot/tg/handlers.py:56-61 | An accepted name is non-empty and carries no surrounding whitespace. |
| Handlers.RegisterArgOfName | taskbot/tg/handlers.py:56-61 | The name typed after the command comes back as typed, inner spaces included. |
| Handlers.RegisterArgMissing | taskbot/tg/handlers.py:56-59 | A bare command, or one followed by whitespace only, gets the usage reply. |
| Handlers.CmdRegister | taskbot/tg/handlers.py:50-67 | Without a name only the usage reply, and nothing changes; otherwise `users_upsert` binds the sender's telegram id to the stripped name. |
| Handlers.AssigneeRoundTrip | taskbot/tg/keyboards.py:43 | The assignee button's data, read back by `pick_assignee`, gives the stripped name, and the name itself when it has no surrounding whitespace. |
| Handlers.DoneCommonRoundTrip | taskbot/tg/keyboards.py:97 | The common DONE button hands its id back, stripped. |
| Handlers.DonePersonalAsWrittenRoundTrip | taskbot/tg/handlers.py:318 | As written, the (sheet, id) pair comes back whenever the sheet name holds no colon. |
| Handlers.DonePersonalAsWrittenCutsSheet | taskbot/tg/handlers.py:318 | As written, a sheet name `a:b` is cut at its first colon and the rest is glued to the task id. |
| Handlers.ParseDonePersonalAsWritten | taskbot/tg/handlers.py:318 | `split(":", 2)` as written: the sheet name it reads never holds a colon. |
| Handlers.ParseDonePersonal | taskbot/tg/handlers.py:318 | The corrected reading of the third finding: the task id it reads never holds a colon. |
| Handlers.RegisterAcceptsColon | taskbot/tg/handlers.py:56-61 | `/register` accepts a name with a colon in it. |
| Handlers.DonePersonalRoundTrip | taskbot/tg/keyboards.py:91 | Read as intended, every personal DONE button hands back its sheet and task id. |
| Handlers.DonePersonalReadingsAgree | taskbot/tg/handlers.py:318 | The two readings agree on every button whose sheet name holds no colon. |
| Handlers.CbDonePersonal | taskbot/tg/handlers.py:315-326 | The task named by the button is marked DONE through `task_set_done`, and the result says whether it was found; unreadable data changes nothing. The data is read by the corrected `Handlers.ParseDonePersonal` of the third finding: for "done_personal:A:B:5" the model marks task 5 of sheet "A:B", where the code looks up sheet "A" with id "B:5" and answers not found. |
| Handlers.CbDoneCommon | taskbot/tg/handlers.py:329-346 | A sender with no sheet is told to register and nothing changes; otherwise the sender's progress row for the task becomes DONE. |
| NewTaskDialog.NoticeText | taskbot/tg/handlers.py:155-157 | The notice is the task line between the greeting and the /my hint. |
| NewTaskDialog.NoticeFor | taskbot/tg/handlers.py:149-160 | A notice is sent exactly for a personal task whose assignee is registered, to the assignee's telegram id. |
| NewTaskDialog.Dialog.constructor | taskbot/tg/handlers.py:70-85 | A fresh conversation is idle and holds no data. |
| NewTaskDialog.Dialog.NewTask | taskbot/tg/handlers.py:70-85 | With nobody registered nothing changes; otherwise the sender's name is kept, the state becomes choosing_assignee and the picker is shown. |
| NewTaskDialog.Dialog.PickAssignee | taskbot/tg/handlers.py:88-100 | Runs only while choosing and only for "assignee:" data; it keeps the stripped text after the first colon and moves on to the task text. |
| NewTaskDialog.Dialog.EnterTaskText | taskbot/tg/handlers.py:103-114 | Blank text asks again with nothing changed; otherwise the stripped text is kept and the dialog moves on to the due date. |
| NewTaskDialog.Dialog.EnterDueDate | taskbot/tg/handlers.py:117-167 | A date that does not parse asks again with nothing created. Otherwise exactly one task is created through `task_append` with its TASK_CREATED event; the confirmation and a notice for a registered personal assignee show the stored id; then the conversation is cleared. |
| NewTaskDialog.CreatedLineAsWritten | taskbot/tg/handlers.py:133-165 | As written, the confirmation shows the uuid. |
| NewTaskDialog.ShownUuidFindsNothing | taskbot/tg/handlers.py:133-165 | A uuid with a hex letter in it locates no task, although the confirmation line opens with it as the task's id, whatever the text, sender, due date and kind. |
| NewTaskDialog.ParseIntNeedsOnlyDigits | taskbot/storage/sql/tasks_repo.py:95-98 | A text with a hex letter in it is not an integer. |
| NewTaskDialog.ShownIdLocates | taskbot/tg/handlers.py:146-165 | With the stored id shown, the id the line opens with locates the new task under its assignee, whatever its due date and kind. |
| TaskViews.Combined | taskbot/tg/handlers.py:196-199 | The personal entries, flagged personal, then the common ones, flagged common. |
| TaskViews.KeyLeTotal | taskbot/tg/handlers.py:206-212 | Any two entries are ordered by the sort key. |
| TaskViews.KeyLeTransitive | taskbot/tg/handlers.py:206-212 | The key order is transitive. |
| TaskViews.FlagMatchesMark | taskbot/tg/handlers.py:208 | An entry sorts with the overdue ones exactly when its line carries the overdue mark. |
| TaskViews.OverdueFirst | taskbot/tg/handlers.py:205-212 | In the sorted list every overdue open task comes before every other entry. |
| TaskViews.NoDueSortsLast | taskbot/tg/handlers.py:209 | Among entries with the same flag, one without a due date sorts after every real ISO date. |
| TaskViews.SwapStep | taskbot/tg/handlers.py:212 | One swap moves the inserted entry one place left and keeps the prefix sorted around it. |
| TaskViews.SettleStep | taskbot/tg/handlers.py:212 | Once the inserted entry is not below its left neighbour, the prefix is sorted. |
| TaskViews.InsertLeft | taskbot/tg/handlers.py:212 | Moving an entry left into a sorted prefix gives a longer sorted prefix of the same entries. |
| TaskViews.SortEntries | taskbot/tg/handlers.py:212 | The array ends sorted by the key and holds the same entries. |
| TaskViews.TaskLines | taskbot/tg/handlers.py:215-218 | One formatted line per entry, in order. |
| TaskViews.DoneButtonsOfOpen | taskbot/tg/handlers.py:224-238 | Every button belongs to an entry that is not DONE, and every such entry has its button. |
| TaskViews.DoneKeyboards | taskbot/tg/handlers.py:224-238 | The loop makes exactly the DONE buttons of the list. |
| TaskViews.ShowTasks | taskbot/tg/handlers.py:176-238 | The list holds the mode's personal tasks and the given common ones, sorted overdue-first; its lines are sent in chunks with one DONE button per open entry; an empty list gets only the no-tasks reply. The chunks are those of the corrected `Formatters.ChunkText` of the second finding, and the overdue test is `Dates.Overdue` of the fifth, where the code raises. |
| TaskViews.CombinedPersonalMember | taskbot/tg/handlers.py:198 | A personal entry of the list is a task of the personal list, and each such task has its entry. |
| TaskViews.CombinedCommonMember | taskbot/tg/handlers.py:199 | A common entry of the list is a task of the common list, and each such task has its entry. |
| TaskViews.ListedPersonalAreKept | taskbot/tg/handlers.py:185-191 | A personal task is listed exactly when the mode keeps it, the same filter the common view applies. |
| TaskViews.ListedCommonAreGiven | taskbot/tg/handlers.py:194-199 | Every common task given is listed, whatever the mode: the common list comes filtered already. |
| Formatters.FormatTaskLine | taskbot/utils/formatters.py:8-23 | The line opens with the bullet, and the common mark follows it exactly for a common task. |
| Formatters.OverdueMarkIff | taskbot/utils/formatters.py:16-23 | The line ends in the overdue mark exactly when the task has a due date, is not DONE and is overdue. |
| Formatters.LineShowsId | taskbot/utils/formatters.py:13-22 | The line opens with the bullet, the common mark where it applies, and the task id in brackets. |
| Formatters.EmptyDueShowsDash | taskbot/utils/formatters.py:16-22 | An empty due date is shown as "-" and never marks the task overdue. |
| Formatters.ChunkText | taskbot/utils/formatters.py:26-44 | The loop gives the intended chunking, flushing only a non-empty buffer. |
| Formatters.ScanKeepsText | taskbot/utils/formatters.py:34-39 | The messages cut so far and the buffer together are all the lines, in order. |
| Formatters.ChunkTextKeepsText | taskbot/utils/formatters.py:26-44 | Every line appears once, followed by a blank line, in input order; only a blank tail is not sent; no lines give no messages. |
| Formatters.ChunksFit | taskbot/utils/formatters.py:36-39 | When every line fits with its blank line, every message cut fits. |
| Formatters.ChunkTextFits | taskbot/utils/formatters.py:26-44 | When every line fits with its blank line, every message is within `max_chars`. |
| Formatters.ScanChunksNonEmpty | taskbot/utils/formatters.py:34-39 | The intended loop never cuts an empty message. |
| Formatters.ChunksNonEmpty | taskbot/utils/formatters.py:26-44 | No message of the intended chunking is empty. |
| Formatters.BufferNonEmpty | taskbot/utils/formatters.py:39 | After a first line the buffer is never empty. |
| Formatters.AgreeWhenFirstLineFits | taskbot/utils/formatters.py:34-39 | The as-written and the intended chunking agree whenever the first line fits. |
| Formatters.EmptyFirstChunk | taskbot/utils/formatters.py:36-38 | As written, a first line of 3499 characters or more is preceded by an empty message. |
| Formatters.ChunkTextAsWritten | taskbot/utils/formatters.py:26-44 | `chunk_text` as written sends at most one message more than it has lines. |
| Keyboards.InsertName | taskbot/tg/keyboards.py:42 | Insertion adds exactly one name. |
| Keyboards.InsertNameFrom | taskbot/tg/keyboards.py:42 | Every name of the result is the new one or an old one. |
| Keyboards.InsertNameSorted | taskbot/tg/keyboards.py:42 | Inserting into a sorted list keeps it sorted. |
| Keyboards.SortNames | taskbot/tg/keyboards.py:42 | `sorted(names)` is sorted in code-point order and has the same names, each as often. |
| Keyboards.AssigneeButtons | taskbot/tg/keyboards.py:42-46 | The picker has one button per name plus two more. |
| Keyboards.AssigneeKeyboard | taskbot/tg/keyboards.py:36-49 | The loop builds the picker's buttons in order. |
| Keyboards.SortNamesMembers | taskbot/tg/keyboards.py:42 | Sorting keeps exactly the names it is given. |
| Keyboards.AssigneeButtonsCoverUsers | taskbot/tg/keyboards.py:42-43 | Every registered name has a button whose data names it. |
| Keyboards.AssigneeButtonsOnlyUsers | taskbot/tg/keyboards.py:42-46 | Ahead of "Общие" and the way back, the picker offers registered names only, each with data naming it. |
| Keyboards.AssigneeButtonsSorted | taskbot/tg/keyboards.py:42 | The name buttons come in sorted order. |
| Keyboards.ToggleTarget | taskbot/tg/keyboards.py:155-158 | The toggle targets TODO exactly when the status is "DONE", and DONE otherwise. |
| Keyboards.ToggleTwice | taskbot/tg/keyboards.py:155-158 | Toggling twice brings a TODO or DONE task back where it was. |
| Keyboards.AdminTaskActionsKeyboard | taskbot/tg/keyboards.py:146-163 | Text, due, toggle and delete buttons, with the toggle's data naming the target status. |
| Keyboards.InsertRow | taskbot/tg/keyboards.py:23-24 | `list.insert` puts the row at the index and shifts the rest. |
| Keyboards.MainMenuKeyboard | taskbot/tg/keyboards.py:11-31 | Four rows for a user; for an admin the two admin rows are inserted at positions 3 and 4. |
| Text.IntRoundTrip | taskbot/sheets/tasks.py:43 | `int(str(i)) == i`, so the id text handed out reads back as the id. |
| Text.ParseIntNeedsDigit | taskbot/storage/sql/tasks_repo.py:95-98 | A text with no digit at all is never an integer. |
| Text.ParseInt | taskbot/storage/sql/tasks_repo.py:95-98 | A text `int()` accepts ends, once stripped, in a digit. |
| Text.IntToStringPlain | taskbot/tg/keyboards.py:91 | An id's text holds no colon and no whitespace. |
| Text.SplitWord | taskbot/tg/handlers.py:56 | `split(maxsplit=1)` gives at most two parts, each non-empty and starting with a non-space. |
| Text.SplitOnceJoin | taskbot/tg/handlers.py:91 | `split(c, 1)` of `a + c + b` gives back `a` and `b` when `a` holds no `c`. |
| Text.RSplitOnceJoin | taskbot/tg/handlers.py:318 | `rsplit(c, 1)` of `a + c + b` gives back `a` and `b` when `b` holds no `c`, whatever `a` holds. |
| Text.StripIdempotent | taskbot/tg/handlers.py:61 | Stripping twice is stripping once, and the stripped text has no surrounding whitespace. |
| Text.StripEmptyIffBlank | taskbot/tg/handlers.py:106-107 | A text strips to nothing exactly when it is all whitespace. |

## Left out

- Telegram transport: aiogram routing, filters, `message.answer`, `callback.answer` and `build_dispatcher`. The handlers return what they would send instead.
- Reply texts other than the new-task notice and the confirmation line; emoji and button labels beyond callback data; the `kb.adjust` layouts.
- `cmd_start` (a fixed greeting). The `/my`, `/overdue`, `/done` and `/all` commands are only the sheet lookup (`Handlers.GetMySheetNameOrNone`) followed by `TaskViews.ShowTasks`, and are not separate members.
- `cmd_team_overdue`: a report over all users built from the same `tasks_list`, mode filter and formatter that are modelled. It is not a separate member.
- `bot.send_message` for the notification: `NewTaskDialog.NoticeFor` returns the recipient and text. A failed send is swallowed in the code and changes nothing, so it has no model.
- `uuid_short`, `now_iso`, `datetime.utcnow()` and `date.today()` are parameters (`now`, `today`); the uuid appears only in the as-written member of the finding below.
- `normalize_due_date` (the dateutil parser) is a parameter: its result or None where it raises.
- `Dates.IsOverdueAsWritten`: accepts only the "YYYY-MM-DD" form, as `date.fromisoformat` does before Python 3.11; later versions take further ISO forms, none of them the stored "YYYY-MM-DD HH:MM".
- JSON payloads: each event type is a datatype case. `json.dumps`/`json.loads` are not modelled.
- The gspread and SQLAlchemy clients, sessions and `to_thread`/`run_in_executor` offloading (`taskbot/sheets/client.py`, `taskbot/sheets/mirror_client.py`, `taskbot/storage/sql/db.py`, `taskbot/storage/sql/init_db.py`). The tables and the mirror are in-memory state.
- `sync_worker.main_loop`: an endless loop with a sleep and a print-and-continue catch. Only `run_once` is modelled.
- Concurrency and crashes: the interleavings between a row commit and its `outbox_add`, and several workers. The model runs the two steps one after the other and claims no atomicity.
- `SyncWorker.RunOnce`: the spreadsheet client's own failures are given as a map from event id to exception text; the modelled dispatch raises only for a missing worksheet.
- `taskbot/sheets/archiver.py`: it calls a `tasks_archive_done_before` that `taskbot/sheets/tasks.py` does not define, and reads the clock. The repository functions it would reach are modelled.
- `taskbot/sheets/users.py` (a re-export), `taskbot/tg/fsm.py` (a state enum disagreeing with the handlers) and `taskbot/config.py` beyond its constants.
- The `task_set_status`, `task_update_text`, `task_update_due` and `task_delete` pass-throughs of `taskbot/sheets/tasks.py`, and the async wrappers `common_tasks_for_user` and `common_progress_set_done` of `taskbot/sheets/common.py`, are identical to the functions they call.
- `users_list`, `users_get_by_telegram_id` and `users_get_by_name` are modelled only as the lookups `UsersRepo.FindByTelegramId` and `UsersRepo.FindByName`.
- The outbox's `created_at`, the users' `created_at` and the progress rows' `updated_at` are stored but never read, so no property is stated about them. The varchar length limits of the columns are not modelled.
- Whitespace is the ASCII whitespace; Python's `strip`, `split` and `upper` also act on other Unicode characters.
- `TaskViews.SortEntries` and `TaskViews.ShowTasks`: state that the entries are sorted and a permutation, but not that `list.sort` is stable, so entries with equal keys keep no promised order.
- `Keyboards.ToggleTarget`: compares with the literal "DONE", as the code does, not with `STATUS_DONE`.
- `CommonRepo.CommonRepo.List`: the append loop of `taskbot/storage/sql/common_repo.py:62-71` is stated as one expression over the rows; `TasksRepo.TasksRepo.List` keeps the loop.
- `MirrorApply.ApplyEvent`: assumes a gspread before version 5, whose `find` raises `CellNotFound` for a missing value. From version 5 on, `find` returns None and `cell.row` raises AttributeError, so a TASK_STATUS, TASK_TEXT, TASK_DUE or TASK_DELETE for a task with no row would be error-marked and retried instead of being a no-op.
- `Due.ParseDueStr`: rejects a space-padded day such as " 5", which `strptime`'s `%d` accepts.
- The ON DELETE CASCADE from common tasks to their progress rows (`taskbot/storage/sql/models.py:65`): no operation deletes a common task.

## Findings

| source | as written | input that shows it | evidently intended | confidence | as-written member | corrected member |
|---|---|---|---|---|---|---|
| taskbot/sheets/mirror_apply.py:19-27 | `ws.find(str(task_id))` returns the first cell anywhere in the sheet whose text is the id, so TASK_STATUS, TASK_TEXT, TASK_DUE and TASK_DELETE can hit another task's row | task 3 with text "7" above task 7; a TASK_STATUS for task 7 rewrites task 3's status | find the id in the TaskID column | not executed | MirrorApply.FindRowAnyCell, MirrorApply.AnyCellFindHitsWrongTask | MirrorApply.FindTaskRow, MirrorApply.FieldEventTouchesOneCell |
| taskbot/utils/formatters.py:36-38 | the buffer is flushed whenever the next line would overflow it, even when it is still empty | `max_chars` 3500 and a first line of 3499 characters: the first message sent is "" | flush only a non-empty buffer | not executed | Formatters.ChunkTextAsWritten, Formatters.EmptyFirstChunk | Formatters.ChunkText, Formatters.ChunksNonEmpty |
| taskbot/tg/handlers.py:318 | `split(":", 2)` cuts a sheet name that contains a colon, and `/register` accepts such names | sheet "A:B", task 5: the button asks for task "B:5" on sheet "A" | read the task id after the last colon and the sheet name in between | not executed | Handlers.ParseDonePersonalAsWritten, Handlers.DonePersonalAsWrittenCutsSheet | Handlers.ParseDonePersonal, Handlers.DonePersonalRoundTrip |
| taskbot/tg/handlers.py:133-165 | the confirmation and the notification show a fresh 8-character uuid, not the id `task_append` returned | any uuid with a hex letter, such as "3fa85f64": `int()` rejects it, so the shown id finds no task | show the id the store assigned | not executed | NewTaskDialog.CreatedLineAsWritten, NewTaskDialog.ShownUuidFindsNothing | NewTaskDialog.Dialog.EnterDueDate, NewTaskDialog.ShownIdLocates |
| taskbot/utils/dates.py:20-25 | `is_overdue` calls `date.fromisoformat` on the due text, but the store hands out "YYYY-MM-DD HH:MM" (`taskbot/storage/sql/tasks_repo.py:30-33`), so it raises in `format_task_line` and in the overdue filters for every open task with a due date | a TODO task due "2026-02-05 10:00": `/my` raises instead of listing it | compare the due date's day with today | not executed | Dates.IsOverdueAsWritten, Dates.StoredDueRaises | Dates.Overdue, Dates.StoredDueOverdue |
| taskbot/storage/sql/tasks_repo.py:182-186 | the monthly sweep records only TASK_ARCHIVE_BATCH, which `taskbot/sheets/mirror_apply.py:117-121` skips in the belief that a TASK_STATUS follows, so the mirror keeps showing DONE | a DONE task due before the cutoff: the store says ARCHIVE, its Status cell stays DONE | one TASK_STATUS ARCHIVE event per archived task | not executed | SyncWorker.ArchiveNeverReachesMirror, MirrorApply.NoOpEvents | TasksRepo.ArchiveStatusEvents, SyncWorker.ArchiveStatusReachesMirror |
