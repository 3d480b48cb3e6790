/**
 * The bot's keyboards: the reply menu, the assignee picker and the inline
 * buttons whose callback data the handlers parse back.
 */
module Keyboards {
  import opened Text
  import opened Config

  /** An inline button: its caption and the callback data it sends. */
  datatype Button = Button(text: string, data: string)

  const CancelData := "newtask_cancel"

  // ----- callback data -----

  function AssigneeData(name: string): string {
    "assignee:" + name
  }

  function DonePersonalData(sheetName: string, taskId: string): string {
    "done_personal:" + sheetName + ":" + taskId
  }

  function DoneCommonData(taskId: string): string {
    "done_common:" + taskId
  }

  function AdminToggleData(sheetName: string, taskId: string, target: string): string {
    "admin_toggle:" + sheetName + ":" + taskId + ":" + target
  }

  // ----- sorted(user_names) -----

  predicate SortedNames(s: seq<string>) {
    forall i, j :: 0 <= i < j < |s| ==> StrLe(s[i], s[j])
  }

  /** Puts `x` into `s` after every leading name not greater than it. */
  function InsertName(x: string, s: seq<string>): (r: seq<string>)
    ensures |r| == |s| + 1
    ensures multiset(r) == multiset(s) + multiset{x}
  {
    if s == [] then [x]
    else if StrLe(s[0], x) then
      assert s == [s[0]] + s[1..];
      [s[0]] + InsertName(x, s[1..])
    else [x] + s
  }

  /** Every name of the insertion result is `x` or a name of `s`. */
  lemma InsertNameFrom(x: string, s: seq<string>, k: nat)
    requires k < |InsertName(x, s)|
    ensures InsertName(x, s)[k] == x || InsertName(x, s)[k] in s
  {
    var r := InsertName(x, s);
    assert r[k] in multiset(r);
  }

  /** Inserting into a sorted list keeps it sorted. */
  lemma {:induction false} InsertNameSorted(x: string, s: seq<string>)
    requires SortedNames(s)
    ensures SortedNames(InsertName(x, s))
  {
    if s != [] {
      if StrLe(s[0], x) {
        var rest := InsertName(x, s[1..]);
        InsertNameSorted(x, s[1..]);
        forall k | 0 <= k < |rest| ensures StrLe(s[0], rest[k]) {
          InsertNameFrom(x, s[1..], k);
          if rest[k] != x {
            var j :| 0 <= j < |s[1..]| && s[1..][j] == rest[k];
            assert s[j + 1] == rest[k];
          }
        }
        var r := [s[0]] + rest;
        forall i, j | 0 <= i < j < |r| ensures StrLe(r[i], r[j]) {
          if i > 0 {
            assert r[i] == rest[i - 1] && r[j] == rest[j - 1];
          }
        }
      } else {
        StrLtTotal(x, s[0]);
        var r := [x] + s;
        forall i, j | 0 <= i < j < |r| ensures StrLe(r[i], r[j]) {
          if i == 0 && j > 1 && s[0] != s[j - 1] {
            StrLtTransitive(x, s[0], s[j - 1]);
          }
        }
      }
    }
  }

  /** `sorted(names)`: the same names, in code-point order. */
  function SortNames(names: seq<string>): (r: seq<string>)
    ensures |r| == |names|
    ensures multiset(r) == multiset(names)
    ensures SortedNames(r)
  {
    if names == [] then []
    else
      var init := names[..|names| - 1];
      assert names == init + [names[|names| - 1]];
      InsertNameSorted(names[|names| - 1], SortNames(init));
      InsertName(names[|names| - 1], SortNames(init))
  }

  /** The assignee picker's buttons: the sorted names, then "Общие", then the way back to the menu. */
  function AssigneeButtons(userNames: seq<string>): (r: seq<Button>)
    ensures |r| == |userNames| + 2
  {
    var sorted := SortNames(userNames);
    seq(|sorted|, k requires 0 <= k < |sorted| => Button(sorted[k], AssigneeData(sorted[k])))
    + [Button("📌 Общие", AssigneeData(CommonSheet)), Button("⬅️ В меню", CancelData)]
  }

  /** `assignee_keyboard(user_names)`, its buttons in order (the two-column layout is not modelled). */
  method AssigneeKeyboard(userNames: seq<string>) returns (buttons: seq<Button>)
    ensures buttons == AssigneeButtons(userNames)
  {
    var sorted := SortNames(userNames);
    buttons := [];
    for i := 0 to |sorted|
      invariant |buttons| == i
      invariant forall k :: 0 <= k < i ==> buttons[k] == Button(sorted[k], AssigneeData(sorted[k]))
    {
      buttons := buttons + [Button(sorted[i], AssigneeData(sorted[i]))];
    }
    buttons := buttons + [Button("📌 Общие", AssigneeData(CommonSheet))];
    buttons := buttons + [Button("⬅️ В меню", CancelData)];
  }

  /** Sorting keeps exactly the names it is given. */
  lemma SortNamesMembers(names: seq<string>, n: string)
    ensures n in SortNames(names) <==> n in names
  {
    assert n in SortNames(names) <==> n in multiset(SortNames(names));
  }

  /** Every registered name has a button of its own whose data names it. */
  lemma AssigneeButtonsCoverUsers(userNames: seq<string>, n: string)
    requires n in userNames
    ensures exists k :: 0 <= k < |userNames| && AssigneeButtons(userNames)[k] == Button(n, AssigneeData(n))
  {
    var sorted := SortNames(userNames);
    SortNamesMembers(userNames, n);
    var k :| 0 <= k < |sorted| && sorted[k] == n;
    assert AssigneeButtons(userNames)[k] == Button(n, AssigneeData(n));
  }

  /**
   * Ahead of its last two buttons, "Общие" and the way back, the picker
   * offers registered names only, each with data that names it.
   */
  lemma AssigneeButtonsOnlyUsers(userNames: seq<string>, k: nat)
    requires k < |userNames|
    ensures var b := AssigneeButtons(userNames)[k];
      b.text in userNames && b.data == AssigneeData(b.text)
    ensures AssigneeButtons(userNames)[|userNames|] == Button("📌 Общие", AssigneeData(CommonSheet))
    ensures AssigneeButtons(userNames)[|userNames| + 1].data == CancelData
  {
    SortNamesMembers(userNames, SortNames(userNames)[k]);
  }

  /** The name buttons come in sorted order. */
  lemma AssigneeButtonsSorted(userNames: seq<string>)
    ensures var bs := AssigneeButtons(userNames);
      forall i, j :: 0 <= i < j < |userNames| ==> StrLe(bs[i].text, bs[j].text)
  {
    var sorted := SortNames(userNames);
    assert SortedNames(sorted);
  }

  // ----- admin keyboards -----

  /** The status the admin toggle button sets: back to TODO from "DONE", DONE from anything else. */
  function ToggleTarget(status: string): (r: string)
    ensures r == StatusTodo <==> status == StatusDone
    ensures r == StatusDone <==> status != StatusDone
  {
    if status == "DONE" then StatusTodo else StatusDone
  }

  /** Toggling twice brings a TODO or DONE task back to where it was. */
  lemma ToggleTwice(status: string)
    requires status == StatusTodo || status == StatusDone
    ensures ToggleTarget(ToggleTarget(status)) == status
  {
  }

  /** `admin_task_actions_keyboard(sheet_name, task_id, status)` */
  method AdminTaskActionsKeyboard(sheetName: string, taskId: string, status: string) returns (buttons: seq<Button>)
    ensures |buttons| == 4
    ensures buttons[0].data == "admin_edit_text:" + sheetName + ":" + taskId
    ensures buttons[1].data == "admin_edit_due:" + sheetName + ":" + taskId
    ensures buttons[2].data == AdminToggleData(sheetName, taskId, ToggleTarget(status))
    ensures buttons[3].data == "admin_delete:" + sheetName + ":" + taskId
  {
    buttons := [Button("✏️ Текст", "admin_edit_text:" + sheetName + ":" + taskId)];
    buttons := buttons + [Button("📅 Срок", "admin_edit_due:" + sheetName + ":" + taskId)];
    if status == "DONE" {
      buttons := buttons + [Button("↩️ Вернуть в TODO", AdminToggleData(sheetName, taskId, "TODO"))];
    } else {
      buttons := buttons + [Button("✅ В DONE", AdminToggleData(sheetName, taskId, "DONE"))];
    }
    buttons := buttons + [Button("🗑 Удалить", "admin_delete:" + sheetName + ":" + taskId)];
  }

  // ----- reply menu -----

  const BaseMenu: seq<seq<string>> := [
    ["➕ Новая задача"],
    ["📋 Мои задачи", "⏰ Просроченные"],
    ["✅ Выполненные", "📦 Все"],
    ["🧾 Помощь"]
  ]
  const RegistrationsRow: seq<string> := ["👥 Регистрации"]
  const AdminTasksRow: seq<string> := ["🛠 Админ: задачи"]

  /** `list.insert(i, row)` for an index within the list. */
  function InsertRow(rows: seq<seq<string>>, i: nat, row: seq<string>): (r: seq<seq<string>>)
    requires i <= |rows|
    ensures |r| == |rows| + 1 && r[i] == row
    ensures r[..i] == rows[..i] && r[i + 1..] == rows[i..]
  {
    rows[..i] + [row] + rows[i..]
  }

  /** `main_menu_keyboard(is_admin)`: the rows of the reply menu. */
  method MainMenuKeyboard(isAdmin: bool) returns (rows: seq<seq<string>>)
    ensures !isAdmin ==> rows == BaseMenu
    ensures isAdmin ==>
      && |rows| == |BaseMenu| + 2
      && rows[3] == RegistrationsRow && rows[4] == AdminTasksRow
      && rows[..3] + rows[5..] == BaseMenu
  {
    rows := BaseMenu;
    if isAdmin {
      rows := InsertRow(rows, 3, RegistrationsRow);
      rows := InsertRow(rows, 4, AdminTasksRow);
      assert rows[..3] == BaseMenu[..3];
      assert rows[5..] == BaseMenu[3..];
    }
  }
}
