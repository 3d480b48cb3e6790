/**
 * The /newtask dialog: pick an assignee, type the text, type the due date;
 * the task is then created and the assignee notified. The dialog's state
 * and its data (from_name, assignee, task_text) live per chat and are
 * updated in place by each step.
 */
module NewTaskDialog {
  import opened Wrappers
  import opened Text
  import opened Config
  import opened Models
  import opened Due
  import opened OutboxStore
  import opened TasksRepo
  import opened SheetsTasks
  import opened Formatters
  import opened Keyboards
  import opened Handlers

  datatype DialogState = Idle | ChoosingAssignee | EnteringTaskText | EnteringDueDate

  /** What the due-date step answers: not its turn, a date it cannot read, or the created task. */
  datatype DueReply =
    | NotHandled
    | BadDate
    | Created(shownId: string, line: string, notice: Option<(int, string)>)

  predicate StartsWith(s: string, prefix: string) {
    |prefix| <= |s| && s[..|prefix|] == prefix
  }

  /** The notification sent to the assignee of a new personal task. */
  function NoticeText(line: string): string {
    "📬 Новая задача!\n\n" + line + "\n\nПосмотреть: /my"
  }

  /**
   * The notification of a new task: sent to the assignee's telegram id,
   * only for a personal task whose assignee is registered.
   */
  function NoticeFor(items: seq<(string, int)>, assignee: string, line: string): (r: Option<(int, string)>)
    ensures r.Some? <==> assignee != CommonSheet && Lookup(items, assignee).Some?
    ensures r.Some? ==> r.value == (Lookup(items, assignee).value, NoticeText(line))
  {
    if assignee == CommonSheet then None
    else match Lookup(items, assignee)
      case None => None
      case Some(tid) => Some((tid, NoticeText(line)))
  }

  class Dialog {
    var state: DialogState
    var fromName: Option<string>
    var assignee: Option<string>
    var taskText: Option<string>

    /** Each state holds the data the later steps read. */
    ghost predicate Valid()
      reads this
    {
      && (state == EnteringTaskText ==> assignee.Some?)
      && (state == EnteringDueDate ==> assignee.Some? && taskText.Some?)
    }

    constructor()
      ensures Valid() && state == Idle && fromName == None && assignee == None && taskText == None
    {
      state := Idle;
      fromName := None;
      assignee := None;
      taskText := None;
    }

    /**
     * `cmd_newtask`, in any state: with nobody registered nothing changes;
     * otherwise the sender's name is kept and the assignee picker is shown.
     */
    method NewTask(items: seq<(string, int)>, fullName: string) returns (buttons: seq<Button>)
      requires Valid()
      modifies this
      ensures Valid()
      ensures items == [] ==> buttons == [] && unchanged(this)
      ensures items != [] ==>
        && state == ChoosingAssignee && fromName == Some(fullName)
        && assignee == old(assignee) && taskText == old(taskText)
        && buttons == AssigneeButtons(Keys(items))
    {
      if items == [] {
        return [];
      }
      fromName := Some(fullName);
      state := ChoosingAssignee;
      buttons := AssigneeKeyboard(Keys(items));
    }

    /** `pick_assignee`, run only while choosing and only for "assignee:" data. */
    method PickAssignee(data: string) returns (handled: bool)
      requires Valid()
      modifies this
      ensures Valid()
      ensures handled == (old(state) == ChoosingAssignee && StartsWith(data, "assignee:"))
      ensures !handled ==> unchanged(this)
      ensures handled ==>
        && state == EnteringTaskText && assignee == AfterColonStripped(data)
        && fromName == old(fromName) && taskText == old(taskText)
    {
      if state != ChoosingAssignee || !StartsWith(data, "assignee:") {
        return false;
      }
      SplitOnceJoin("assignee", ':', data[9..]);
      assert data == "assignee" + [':'] + data[9..];
      var parts := SplitOnce(data, ':');
      assignee := Some(Strip(parts[1]));
      state := EnteringTaskText;
      handled := true;
    }

    /** `enter_task_text`: blank text asks again; otherwise the stripped text is kept. */
    method EnterTaskText(text: string) returns (handled: bool)
      requires Valid()
      modifies this
      ensures Valid()
      ensures handled == (old(state) == EnteringTaskText)
      ensures !handled || Strip(text) == "" ==> unchanged(this)
      ensures handled && Strip(text) != "" ==>
        && state == EnteringDueDate && taskText == Some(Strip(text))
        && fromName == old(fromName) && assignee == old(assignee)
    {
      if state != EnteringTaskText {
        return false;
      }
      handled := true;
      var t := Strip(text);
      if t == "" {
        return;
      }
      taskText := Some(t);
      state := EnteringDueDate;
    }

    /**
     * `enter_due_date`; `normalized` is what `normalize_due_date` makes of
     * the stripped message (None where it raises), `today` the date
     * `is_overdue` compares with and `now` the creation stamp. The task is
     * shown under the id the store gave it.
     */
    method EnterDueDate(normalized: Option<string>, repo: TasksRepo, items: seq<(string, int)>, now: string, today: string)
      returns (reply: DueReply)
      requires Valid() && repo.Valid()
      modifies this, repo, repo.outbox
      ensures Valid() && repo.Valid()
      ensures old(state) != EnteringDueDate || normalized.None? ==>
        && reply == (if old(state) != EnteringDueDate then NotHandled else BadDate)
        && unchanged(this) && unchanged(repo) && unchanged(repo.outbox)
      ensures old(state) == EnteringDueDate && normalized.Some? ==>
        var a := old(assignee).value;
        var text := old(taskText).value;
        var from := if old(fromName).Some? then old(fromName).value else "Unknown";
        var id := IntToString(old(repo.nextId));
        && repo.tasks == old(repo.tasks) + [Task(old(repo.nextId), a, text, from, ParseDueStr(normalized.value), StatusTodo, now)]
        && repo.outbox.rows == old(repo.outbox.rows) +
             [OutboxRow(old(repo.outbox.nextId),
                        TaskCreated(a, old(repo.nextId), text, from, DueToStr(ParseDueStr(normalized.value)), StatusTodo),
                        None, None)]
        && reply == Created(id, FormatTaskLine(id, text, from, normalized.value, StatusTodo, a == CommonSheet, today),
                            NoticeFor(items, a, FormatTaskLine(id, text, from, normalized.value, StatusTodo, false, today)))
        && state == Idle && fromName == None && assignee == None && taskText == None
    {
      if state != EnteringDueDate {
        return NotHandled;
      }
      if normalized.None? {
        return BadDate;
      }
      var due := normalized.value;
      var a := assignee.value;
      var text := taskText.value;
      var from := if fromName.Some? then fromName.value else "Unknown";
      var row := TaskRow("", text, from, due, StatusTodo, now);
      var id := TaskAppend(repo, a, row, now);
      var notice := None;
      if a != CommonSheet {
        var tid := Lookup(items, a);
        if tid.Some? {
          notice := Some((tid.value, NoticeText(FormatTaskLine(id, text, from, due, StatusTodo, false, today))));
        }
      }
      reply := Created(id, FormatTaskLine(id, text, from, due, StatusTodo, a == CommonSheet, today), notice);
      state := Idle;
      fromName := None;
      assignee := None;
      taskText := None;
    }
  }

  /**
   * As written, the confirmation and the notification show the fresh
   * 8-character uuid in place of the id the store assigned; a uuid with a
   * hex letter in it locates no task, so the id the user sees cannot be
   * used to find the task again.
   */
  function CreatedLineAsWritten(uuid: string, text: string, from: string, due: string, isCommon: bool, today: string): string {
    FormatTaskLine(uuid, text, from, due, StatusTodo, isCommon, today)
  }

  lemma ShownUuidFindsNothing(ts: seq<Task>, assignee: string, uuid: string, k: nat,
                               text: string, from: string, due: string, isCommon: bool, today: string)
    requires k < |uuid| && 'a' <= uuid[k] <= 'f'
    ensures Locate(ts, assignee, uuid).None?
    ensures var line := CreatedLineAsWritten(uuid, text, from, due, isCommon, today);
      var head := "• " + (if isCommon then CommonMark else "") + "[" + uuid;
      |head| <= |line| && line[..|head|] == head
  {
    ParseIntNeedsOnlyDigits(uuid, k);
    LocateNeedsInteger(ts, assignee, uuid);
    LineShowsId(uuid, text, from, due, StatusTodo, isCommon, today);
  }

  /** A text with a hex letter in it is not an integer. */
  lemma ParseIntNeedsOnlyDigits(s: string, k: nat)
    requires k < |s| && 'a' <= s[k] <= 'f'
    ensures ParseInt(s).None?
  {
    TrimLeftFacts(s);
    TrimRightFacts(TrimLeft(s));
  }

  /**
   * With the stored id shown, what the confirmation names is what the
   * store holds: that id text locates the new task under its assignee.
   */
  lemma ShownIdLocates(ts: seq<Task>, next: int, t: Task, due: string, isCommon: bool, today: string)
    requires TaskKeys(ts, next) && t.id == next
    ensures Locate(ts + [t], t.assigneeName, IntToString(next)) == Some(|ts|)
    ensures var line := FormatTaskLine(IntToString(next), t.taskText, t.fromName, due, t.status, isCommon, today);
      var head := "• " + (if isCommon then CommonMark else "") + "[" + IntToString(next);
      |head| <= |line| && line[..|head|] == head
  {
    AppendedIdLocates(ts, next, t);
    LineShowsId(IntToString(next), t.taskText, t.fromName, due, t.status, isCommon, today);
  }
}
