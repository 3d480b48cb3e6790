/**
 * The bot's commands and callbacks outside the /newtask dialog: who the
 * sender is, /register, and the DONE buttons under a task list.
 */
module Handlers {
  import opened Wrappers
  import opened Text
  import opened Config
  import opened Models
  import opened OutboxStore
  import opened UsersRepo
  import opened TasksRepo
  import opened Sheets
  import opened MirrorSchema
  import opened SheetsTasks
  import opened SheetsCommon
  import opened Keyboards

  // ----- the users map -----

  /**
   * `users_get_map()` as the handlers walk it: its (name, telegram id)
   * pairs in insertion order, which is the order of the users table.
   */
  function MapItems(us: seq<User>): (items: seq<(string, int)>)
    ensures |items| == |us| && forall k :: 0 <= k < |us| ==> items[k] == (us[k].name, us[k].telegramId)
  {
    seq(|us|, k requires 0 <= k < |us| => (us[k].name, us[k].telegramId))
  }

  /** `list(users_map.keys())` */
  function Keys(items: seq<(string, int)>): (r: seq<string>)
    ensures |r| == |items| && forall k :: 0 <= k < |items| ==> r[k] == items[k].0
  {
    seq(|items|, k requires 0 <= k < |items| => items[k].0)
  }

  /** `users_map[name]`, or None when the name is not a key. */
  function Lookup(items: seq<(string, int)>, name: string): (r: Option<int>)
    ensures r.Some? ==> exists k :: 0 <= k < |items| && items[k] == (name, r.value)
    ensures r.None? ==> forall k :: 0 <= k < |items| ==> items[k].0 != name
  {
    if items == [] then None
    else if items[0].0 == name then Some(items[0].1)
    else Lookup(items[1..], name)
  }

  /** `get_my_sheet_name_or_none(telegram_id, users_map)`: the first name bound to the id. */
  function GetMySheetNameOrNone(tid: int, items: seq<(string, int)>): (r: Option<string>)
    ensures r.Some? ==> exists k :: 0 <= k < |items| && items[k] == (r.value, tid)
    ensures r.None? <==> forall k :: 0 <= k < |items| ==> items[k].1 != tid
  {
    if items == [] then None
    else if items[0].1 == tid then Some(items[0].0)
    else GetMySheetNameOrNone(tid, items[1..])
  }

  /**
   * With unique telegram ids, the sheet found for an id is the name of the
   * one user holding it, and the map sends that name back to the id.
   */
  lemma MySheetIsTheUser(us: seq<User>, tid: int, k: nat)
    requires UniqueTelegramIds(us) && UniqueNames(us)
    requires k < |us| && us[k].telegramId == tid
    ensures GetMySheetNameOrNone(tid, MapItems(us)) == Some(us[k].name)
    ensures us[k].name in GetMap(us) && GetMap(us)[us[k].name] == tid
  {
    var items := MapItems(us);
    var j :| 0 <= j < |items| && items[j] == (GetMySheetNameOrNone(tid, items).value, tid);
    assert us[j].telegramId == us[k].telegramId;
    GetMapSpec(us);
  }

  /** The name found under a key of the map is the user's own id. */
  lemma LookupIsTheUser(us: seq<User>, k: nat)
    requires UniqueNames(us) && k < |us|
    ensures Lookup(MapItems(us), us[k].name) == Some(us[k].telegramId)
  {
    var items := MapItems(us);
    var j :| 0 <= j < |items| && items[j] == (us[k].name, Lookup(items, us[k].name).value);
    assert us[j].name == us[k].name;
  }

  // ----- /register -----

  /** `/register <name>`: the stripped rest of the message after the command word, if not blank. */
  function RegisterArg(text: string): (r: Option<string>)
    ensures r.Some? ==> r.value != "" && Strip(r.value) == r.value
  {
    var parts := SplitWord(text);
    if |parts| < 2 || Strip(parts[1]) == "" then None
    else
      StripIdempotent(parts[1]);
      Some(Strip(parts[1]))
  }

  /** The name typed after the command comes back as typed, inner spaces included. */
  lemma RegisterArgOfName(cmd: string, name: string)
    requires cmd != [] && forall k :: 0 <= k < |cmd| ==> !IsSpace(cmd[k])
    requires name != [] && Strip(name) == name
    ensures RegisterArg(cmd + " " + name) == Some(name)
  {
    StripIdempotent(name);
    var s := cmd + " " + name;
    TrimLeftOfWord(s);
    assert forall k :: 0 <= k < |cmd| ==> s[k] == cmd[k];
    assert s[|cmd|] == ' ';
    assert FirstSpace(s) == Some(|cmd|);
    assert s[|cmd|..] == " " + name;
    assert TrimLeft(" " + name) == TrimLeft(name);
    TrimLeftOfWord(name);
    assert s[..|cmd|] == cmd;
    assert SplitWord(s) == [cmd, name];
  }

  /** A bare command, or one followed by whitespace only, gets the usage reply. */
  lemma RegisterArgMissing(cmd: string, tail: string)
    requires cmd != [] && forall k :: 0 <= k < |cmd| ==> !IsSpace(cmd[k])
    requires IsBlank(tail)
    ensures RegisterArg(cmd + tail) == None
  {
    var s := cmd + tail;
    TrimLeftOfWord(s);
    assert forall k :: 0 <= k < |cmd| ==> s[k] == cmd[k];
    if tail != [] {
      assert s[|cmd|] == tail[0];
      assert FirstSpace(s) == Some(|cmd|);
      assert s[|cmd|..] == tail;
      TrimLeftBlank(tail);
    } else {
      assert s == cmd;
    }
  }

  /** What /register answers. */
  datatype RegisterReply = Usage | Registered(name: string) | Rejected(error: string)

  /** `cmd_register`: the sender's telegram id is bound to the stripped name. */
  method CmdRegister(users: UsersRepo, text: string, tid: int) returns (reply: RegisterReply)
    requires users.Valid()
    modifies users, users.outbox
    ensures users.Valid()
    ensures RegisterArg(text).None? ==> reply == Usage && unchanged(users) && unchanged(users.outbox)
    ensures RegisterArg(text).Some? ==>
      var name := RegisterArg(text).value;
      match Upserted(old(users.users), name, tid, old(users.nextId))
      case None => reply.Rejected? && unchanged(users) && unchanged(users.outbox)
      case Some(us) =>
        && reply == Registered(name) && users.users == us
        && users.outbox.rows == old(users.outbox.rows) + [OutboxRow(old(users.outbox.nextId), UserUpsert(name, tid), None, None)]
  {
    var parts := SplitWord(text);
    if |parts| < 2 || Strip(parts[1]) == "" {
      return Usage;
    }
    var name := Strip(parts[1]);
    var r := users.Upsert(name, tid);
    match r
    case Pass => reply := Registered(name);
    case Fail(e) => reply := Rejected(e);
  }

  // ----- callback data parsing -----

  /** `data.split(":", 1)[1].strip()`; None where the index raises (no colon). */
  function AfterColonStripped(data: string): Option<string> {
    var parts := SplitOnce(data, ':');
    if |parts| < 2 then None else Some(Strip(parts[1]))
  }

  /** A button's data names what it was built from, with the surrounding whitespace stripped. */
  lemma AssigneeRoundTrip(name: string)
    ensures AfterColonStripped(AssigneeData(name)) == Some(Strip(name))
    ensures Strip(name) == name ==> AfterColonStripped(AssigneeData(name)) == Some(name)
  {
    SplitOnceJoin("assignee", ':', name);
    assert AssigneeData(name) == "assignee" + [':'] + name;
  }

  /** The DONE button of a common task hands its id back, stripped. */
  lemma DoneCommonRoundTrip(taskId: string)
    ensures AfterColonStripped(DoneCommonData(taskId)) == Some(Strip(taskId))
  {
    SplitOnceJoin("done_common", ':', taskId);
    assert DoneCommonData(taskId) == "done_common" + [':'] + taskId;
  }

  /** `_prefix, sheet_name, task_id = data.split(":", 2)` as written; None where the unpacking raises. */
  function ParseDonePersonalAsWritten(data: string): (r: Option<(string, string)>)
    ensures r.Some? ==> forall k :: 0 <= k < |r.value.0| ==> r.value.0[k] != ':'
  {
    var parts := SplitTwice(data, ':');
    if |parts| == 3 then Some((parts[1], parts[2])) else None
  }

  /** As written, the pair comes back whenever the sheet name holds no colon. */
  lemma DonePersonalAsWrittenRoundTrip(sheetName: string, taskId: string)
    requires forall k :: 0 <= k < |sheetName| ==> sheetName[k] != ':'
    ensures ParseDonePersonalAsWritten(DonePersonalData(sheetName, taskId)) == Some((sheetName, taskId))
  {
    var rest := sheetName + ":" + taskId;
    SplitOnceJoin("done_personal", ':', rest);
    assert DonePersonalData(sheetName, taskId) == "done_personal" + [':'] + rest;
    SplitOnceJoin(sheetName, ':', taskId);
    assert rest == sheetName + [':'] + taskId;
  }

  /**
   * As written, a sheet name `a:b` (which /register accepts, see
   * RegisterAcceptsColon) is cut at its first colon and the rest is glued to
   * the task id: the button of task 5 on sheet "A:B" asks for task "B:5" on
   * sheet "A".
   */
  lemma DonePersonalAsWrittenCutsSheet(a: string, b: string, taskId: string)
    requires forall k :: 0 <= k < |a| ==> a[k] != ':'
    ensures ParseDonePersonalAsWritten(DonePersonalData(a + ":" + b, taskId)) == Some((a, b + ":" + taskId))
  {
    var rest := a + ":" + b + ":" + taskId;
    SplitOnceJoin("done_personal", ':', rest);
    assert DonePersonalData(a + ":" + b, taskId) == "done_personal" + [':'] + rest;
    SplitOnceJoin(a, ':', b + ":" + taskId);
    assert rest == a + [':'] + (b + ":" + taskId);
  }

  /** /register takes a name with a colon in it as it stands. */
  lemma RegisterAcceptsColon()
    ensures RegisterArg("/register A:B") == Some("A:B")
  {
    var name := "A:B";
    assert name[0] == 'A' && name[|name| - 1] == 'B';
    StripUnchanged(name);
    var cmd := "/register";
    assert forall k :: 0 <= k < |cmd| ==> !IsSpace(cmd[k]);
    RegisterArgOfName(cmd, name);
    assert cmd + " " + name == "/register A:B";
  }

  /**
   * The callback data of a personal DONE button, read as intended: the
   * prefix up to the first colon, the task id after the last one, and the
   * sheet name, colons and all, in between.
   */
  function ParseDonePersonal(data: string): (r: Option<(string, string)>)
    ensures r.Some? ==> forall k :: 0 <= k < |r.value.1| ==> r.value.1[k] != ':'
  {
    var parts := SplitOnce(data, ':');
    if |parts| < 2 then None
    else
      var rest := RSplitOnce(parts[1], ':');
      if |rest| < 2 then None else Some((rest[0], rest[1]))
  }

  /** Every personal DONE button hands back its sheet and task id; task ids never hold a colon. */
  lemma DonePersonalRoundTrip(sheetName: string, taskId: string)
    requires forall k :: 0 <= k < |taskId| ==> taskId[k] != ':'
    ensures ParseDonePersonal(DonePersonalData(sheetName, taskId)) == Some((sheetName, taskId))
  {
    var rest := sheetName + ":" + taskId;
    SplitOnceJoin("done_personal", ':', rest);
    assert DonePersonalData(sheetName, taskId) == "done_personal" + [':'] + rest;
    RSplitOnceJoin(sheetName, ':', taskId);
    assert rest == sheetName + [':'] + taskId;
  }

  /** The two readings agree on every button whose sheet name holds no colon. */
  lemma DonePersonalReadingsAgree(sheetName: string, taskId: string)
    requires forall k :: 0 <= k < |sheetName| ==> sheetName[k] != ':'
    requires forall k :: 0 <= k < |taskId| ==> taskId[k] != ':'
    ensures ParseDonePersonal(DonePersonalData(sheetName, taskId)) == ParseDonePersonalAsWritten(DonePersonalData(sheetName, taskId))
  {
    DonePersonalRoundTrip(sheetName, taskId);
    DonePersonalAsWrittenRoundTrip(sheetName, taskId);
  }

  // ----- DONE callbacks -----

  /**
   * `cb_done_personal`: the task named by the button is marked DONE through
   * `task_set_done`; None where the data cannot be read (the handler raises).
   */
  method CbDonePersonal(repo: TasksRepo, data: string) returns (r: Option<bool>)
    requires repo.Valid()
    modifies repo, repo.outbox
    ensures repo.Valid()
    ensures ParseDonePersonal(data).None? ==> r.None? && unchanged(repo) && unchanged(repo.outbox)
    ensures ParseDonePersonal(data).Some? ==>
      var (sheetName, taskId) := ParseDonePersonal(data).value;
      && r == Some(Locate(old(repo.tasks), sheetName, taskId).Some?)
      && (r == Some(false) ==> repo.tasks == old(repo.tasks) && repo.outbox.rows == old(repo.outbox.rows))
      && (r == Some(true) ==>
           var k := Locate(old(repo.tasks), sheetName, taskId).value;
           && repo.tasks == old(repo.tasks)[k := old(repo.tasks)[k].(status := StatusDone)]
           && repo.outbox.rows == old(repo.outbox.rows) +
                [OutboxRow(old(repo.outbox.nextId), TaskStatus(sheetName, old(repo.tasks)[k].id, StatusDone), None, None)])
  {
    var parsed := ParseDonePersonal(data);
    if parsed.None? {
      return None;
    }
    var (sheetName, taskId) := parsed.value;
    var ok := TaskSetDone(repo, sheetName, taskId);
    r := Some(ok);
  }

  /** What the common DONE button answers. */
  datatype CommonReply = Malformed | NotRegistered | MarkedDone(taskId: string, name: string)

  /**
   * `cb_done_common`: the sender's progress on the common task becomes DONE.
   * A sender with no sheet, or with an empty sheet name, is told to register.
   */
  method CbDoneCommon(ss: Spreadsheet, items: seq<(string, int)>, tid: int, data: string, now: string)
    returns (reply: CommonReply)
    modifies ss
    ensures AfterColonStripped(data).None? ==> reply == Malformed && unchanged(ss)
    ensures AfterColonStripped(data).Some? ==>
      var me := GetMySheetNameOrNone(tid, items);
      if me.None? || me.value == "" then reply == NotRegistered && unchanged(ss)
      else
        var taskId := AfterColonStripped(data).value;
        && reply == MarkedDone(taskId, me.value)
        && ss.sheets == Ensured(old(ss.sheets), ProgressReq)[CommonProgressSheet :=
             SetDoneGrid(Ensured(old(ss.sheets), ProgressReq)[CommonProgressSheet], taskId, me.value, now)]
  {
    var parsed := AfterColonStripped(data);
    if parsed.None? {
      return Malformed;
    }
    var taskId := parsed.value;
    var me := GetMySheetNameOrNone(tid, items);
    if me.None? || me.value == "" {
      return NotRegistered;
    }
    SetDoneSync(ss, taskId, me.value, now);
    reply := MarkedDone(taskId, me.value);
  }
}
