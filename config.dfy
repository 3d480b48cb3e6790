/** The constants of the bot's configuration: sheet names, headers and statuses. */
module Config {

  /** Worksheet holding the Name <-> TelegramID index. */
  const UsersSheet := "Users"
  /** Worksheet holding the common (shared) tasks. */
  const CommonSheet := "Общие"
  /** Worksheet holding the per-user progress on common tasks. */
  const CommonProgressSheet := "CommonProgress"

  /** Header row of every task worksheet (personal sheets and the common one). */
  const TaskHeaders: seq<string> := ["TaskID", "Task", "From", "Due", "Status", "CreatedAt"]
  /** Header row of the common-progress worksheet. */
  const CommonProgressHeaders: seq<string> := ["TaskID", "Name", "Status", "DoneAt"]
  /** Header row of the users worksheet. */
  const UsersHeaders: seq<string> := ["Name", "TelegramID"]

  const StatusTodo := "TODO"
  const StatusDone := "DONE"
  const StatusArchive := "ARCHIVE"

  /** Sheet and batch sizes used by the sync worker. */
  const BatchLimit := 200
}
