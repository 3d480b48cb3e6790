/**
 * `show_tasks`: a user's personal tasks, filtered by the tab, and the
 * common tasks with the user's own status, listed together overdue first
 * and then by due date, cut into messages, with a DONE button under every
 * open task.
 */
module TaskViews {
  import opened Text
  import opened Config
  import opened Dates
  import opened SheetsTasks
  import opened SheetsCommon
  import opened Formatters
  import opened Keyboards

  /** A listed task and whether it is a common one. */
  datatype Entry = Entry(t: TaskRow, isCommon: bool)

  const NoTasksText := "Нет задач по выбранному фильтру."
  /** The due text an entry without a due date sorts under. */
  const NoDueKey := "9999-12-31"

  /** The personal tasks, then the common ones, each flagged. */
  function Combined(personal: seq<TaskRow>, common: seq<TaskRow>): (r: seq<Entry>)
    ensures |r| == |personal| + |common|
    ensures forall k :: 0 <= k < |personal| ==> r[k] == Entry(personal[k], false)
    ensures forall k :: 0 <= k < |common| ==> r[|personal| + k] == Entry(common[k], true)
  {
    seq(|personal|, k requires 0 <= k < |personal| => Entry(personal[k], false))
    + seq(|common|, k requires 0 <= k < |common| => Entry(common[k], true))
  }

  // ----- the sort key -----

  /** An open task with a due date that has passed. */
  predicate OverdueOpen(t: TaskRow, today: string) {
    t.dueStr != "" && t.status != StatusDone && Overdue(t.dueStr, today)
  }

  function OverdueFlag(e: Entry, today: string): int {
    if OverdueOpen(e.t, today) then 0 else 1
  }

  function DueKey(e: Entry): string {
    if e.t.dueStr != "" then e.t.dueStr else NoDueKey
  }

  /** `sort_key(x) <= sort_key(y)`: tuples compared flag first, then due text. */
  predicate KeyLe(x: Entry, y: Entry, today: string) {
    OverdueFlag(x, today) < OverdueFlag(y, today)
    || (OverdueFlag(x, today) == OverdueFlag(y, today) && StrLe(DueKey(x), DueKey(y)))
  }

  predicate SortedByKey(s: seq<Entry>, today: string) {
    forall i, j :: 0 <= i < j < |s| ==> KeyLe(s[i], s[j], today)
  }

  lemma KeyLeTotal(x: Entry, y: Entry, today: string)
    ensures KeyLe(x, y, today) || KeyLe(y, x, today)
  {
    StrLtTotal(DueKey(x), DueKey(y));
  }

  lemma KeyLeTransitive(x: Entry, y: Entry, z: Entry, today: string)
    requires KeyLe(x, y, today) && KeyLe(y, z, today)
    ensures KeyLe(x, z, today)
  {
    if OverdueFlag(x, today) == OverdueFlag(y, today) == OverdueFlag(z, today)
       && DueKey(x) != DueKey(y) && DueKey(y) != DueKey(z) {
      StrLtTransitive(DueKey(x), DueKey(y), DueKey(z));
    }
  }

  /**
   * The sort key's flag and the formatter's overdue mark agree: an entry
   * sorts with the overdue ones exactly when its line carries the mark.
   */
  lemma FlagMatchesMark(e: Entry, today: string)
    ensures OverdueFlag(e, today) == 0 <==> OverdueSuffix(e.t.dueStr, e.t.status, today) == OverdueMark
  {
  }

  /** In a sorted list every overdue open task comes before every other one. */
  lemma OverdueFirst(s: seq<Entry>, today: string, i: nat, j: nat)
    requires SortedByKey(s, today) && i < j < |s|
    requires OverdueOpen(s[j].t, today)
    ensures OverdueOpen(s[i].t, today)
  {
    assert KeyLe(s[i], s[j], today);
  }

  /** Among tasks of the same flag, an entry without a due date sorts after every real ISO date. */
  lemma NoDueSortsLast(s: seq<Entry>, today: string, i: nat, j: nat)
    requires SortedByKey(s, today) && i < j < |s|
    requires s[i].t.dueStr == "" && OverdueFlag(s[i], today) == OverdueFlag(s[j], today)
    ensures StrLe(NoDueKey, DueKey(s[j]))
  {
    assert KeyLe(s[i], s[j], today);
  }

  // ----- combined.sort(key=sort_key) -----

  /** The first `i + 1` entries are in order, leaving out position `j`. */
  predicate SortedExcept(s: seq<Entry>, i: nat, j: nat, today: string)
    requires i < |s|
  {
    forall p, q :: 0 <= p < q <= i && p != j && q != j ==> KeyLe(s[p], s[q], today)
  }

  /** The entry at `j` is not above any entry after it, up to `i`. */
  predicate BelowRest(s: seq<Entry>, i: nat, j: nat, today: string)
    requires j <= i < |s|
  {
    forall q :: j < q <= i ==> KeyLe(s[j], s[q], today)
  }

  /** One swap moves the inserted entry a place to the left and keeps both facts. */
  lemma SwapStep(s: seq<Entry>, i: nat, j: nat, today: string)
    requires 0 < j <= i < |s|
    requires SortedExcept(s, i, j, today) && BelowRest(s, i, j, today)
    requires !KeyLe(s[j - 1], s[j], today)
    ensures var t := s[j - 1 := s[j]][j := s[j - 1]];
      SortedExcept(t, i, j - 1, today) && BelowRest(t, i, j - 1, today)
  {
    var t := s[j - 1 := s[j]][j := s[j - 1]];
    KeyLeTotal(s[j - 1], s[j], today);
    forall q | j - 1 < q <= i
      ensures KeyLe(t[j - 1], t[q], today)
    {
      if q > j {
        assert KeyLe(s[j], s[q], today);
      }
    }
    forall p, q | 0 <= p < q <= i && p != j - 1 && q != j - 1
      ensures KeyLe(t[p], t[q], today)
    {
      if q == j {
        assert KeyLe(s[p], s[j - 1], today);
      } else if p == j {
        assert KeyLe(s[j - 1], s[q], today);
      } else {
        assert KeyLe(s[p], s[q], today);
      }
    }
  }

  /** Once the inserted entry is not below its left neighbour, the prefix is sorted. */
  lemma SettleStep(s: seq<Entry>, i: nat, j: nat, today: string)
    requires j <= i < |s|
    requires SortedExcept(s, i, j, today) && BelowRest(s, i, j, today)
    requires j == 0 || KeyLe(s[j - 1], s[j], today)
    ensures SortedByKey(s[..i + 1], today)
  {
    forall p, q | 0 <= p < q <= i
      ensures KeyLe(s[p], s[q], today)
    {
      if q == j && p < j - 1 {
        KeyLeTransitive(s[p], s[j - 1], s[j], today);
      }
    }
  }

  /**
   * Moves `a[i]` left past every greater entry, so that `a[..i + 1]` is
   * sorted when `a[..i]` was.
   */
  method InsertLeft(a: array<Entry>, i: nat, today: string)
    requires i < a.Length && SortedByKey(a[..i], today)
    modifies a
    ensures SortedByKey(a[..i + 1], today)
    ensures multiset(a[..]) == multiset(old(a[..]))
  {
    var j := i;
    assert SortedExcept(a[..], i, j, today) by {
      assert forall p :: 0 <= p < i ==> a[..i][p] == a[p];
    }
    while j > 0 && !KeyLe(a[j - 1], a[j], today)
      invariant 0 <= j <= i
      invariant multiset(a[..]) == multiset(old(a[..]))
      invariant SortedExcept(a[..], i, j, today) && BelowRest(a[..], i, j, today)
    {
      SwapStep(a[..], i, j, today);
      a[j - 1], a[j] := a[j], a[j - 1];
      j := j - 1;
    }
    SettleStep(a[..], i, j, today);
    assert a[..][..i + 1] == a[..i + 1];
  }

  /** `combined.sort(key=sort_key)`, in place. */
  method SortEntries(a: array<Entry>, today: string)
    modifies a
    ensures SortedByKey(a[..], today)
    ensures multiset(a[..]) == multiset(old(a[..]))
  {
    for i := 0 to a.Length
      invariant SortedByKey(a[..i], today)
      invariant multiset(a[..]) == multiset(old(a[..]))
    {
      InsertLeft(a, i, today);
    }
    assert a[..a.Length] == a[..];
  }

  // ----- the list and its buttons -----

  /** One formatted line per entry. */
  function TaskLines(es: seq<Entry>, today: string): (r: seq<string>)
    ensures |r| == |es|
    ensures forall k :: 0 <= k < |es| ==>
      r[k] == FormatTaskLine(es[k].t.taskId, es[k].t.task, es[k].t.fromName, es[k].t.dueStr, es[k].t.status, es[k].isCommon, today)
  {
    seq(|es|, k requires 0 <= k < |es| =>
      FormatTaskLine(es[k].t.taskId, es[k].t.task, es[k].t.fromName, es[k].t.dueStr, es[k].t.status, es[k].isCommon, today))
  }

  /** The callback data of the DONE button under one entry. */
  function DoneData(e: Entry, sheetName: string): string {
    if e.isCommon then DoneCommonData(e.t.taskId) else DonePersonalData(sheetName, e.t.taskId)
  }

  /** The DONE buttons under the list: one per entry that is not DONE, in list order. */
  function DoneButtons(es: seq<Entry>, sheetName: string): seq<string> {
    if es == [] then []
    else
      DoneButtons(es[..|es| - 1], sheetName)
      + (if es[|es| - 1].t.status == StatusDone then [] else [DoneData(es[|es| - 1], sheetName)])
  }

  /** Every button belongs to an open entry, and every open entry has its button. */
  lemma {:induction false} DoneButtonsOfOpen(es: seq<Entry>, sheetName: string, d: string)
    ensures d in DoneButtons(es, sheetName) <==>
      exists k :: 0 <= k < |es| && es[k].t.status != StatusDone && d == DoneData(es[k], sheetName)
  {
    if es != [] {
      var init := es[..|es| - 1];
      DoneButtonsOfOpen(init, sheetName, d);
      if exists k :: 0 <= k < |init| && init[k].t.status != StatusDone && d == DoneData(init[k], sheetName) {
        var k :| 0 <= k < |init| && init[k].t.status != StatusDone && d == DoneData(init[k], sheetName);
        assert es[k] == init[k];
      }
      if exists k :: 0 <= k < |es| && es[k].t.status != StatusDone && d == DoneData(es[k], sheetName) {
        var k :| 0 <= k < |es| && es[k].t.status != StatusDone && d == DoneData(es[k], sheetName);
        if k < |init| {
          assert init[k] == es[k];
        }
      }
    }
  }

  /** The loop that sends a DONE keyboard under every entry that is not DONE. */
  method DoneKeyboards(entries: seq<Entry>, sheetName: string) returns (buttons: seq<string>)
    ensures buttons == DoneButtons(entries, sheetName)
  {
    buttons := [];
    for i := 0 to |entries|
      invariant buttons == DoneButtons(entries[..i], sheetName)
    {
      assert entries[..i + 1][..i] == entries[..i];
      var e := entries[i];
      if e.t.status == StatusDone {
        continue;
      }
      if e.isCommon {
        buttons := buttons + [DoneCommonData(e.t.taskId)];
      } else {
        buttons := buttons + [DonePersonalData(sheetName, e.t.taskId)];
      }
    }
    assert entries[..|entries|] == entries;
  }

  /**
   * `show_tasks(message, my_sheet_name, mode)`: the personal tasks as
   * `tasks_list` returns them, the common ones as `common_tasks_for_user`
   * returns them, and today's date are parameters. Returns the sorted list,
   * the messages sent and the data of the DONE buttons.
   */
  method ShowTasks(personal: seq<TaskRow>, common: seq<TaskRow>, sheetName: string, mode: string, today: string)
    returns (entries: seq<Entry>, messages: seq<string>, buttons: seq<string>)
    ensures multiset(entries) == multiset(Combined(ModeFilter(personal, mode, today), common))
    ensures SortedByKey(entries, today)
    ensures entries == [] ==> messages == [NoTasksText] && buttons == []
    ensures entries != [] ==>
      && messages == ChunkTextSpec(TaskLines(entries, today), MaxChars)
      && buttons == DoneButtons(entries, sheetName)
  {
    var shown := ModeFilter(personal, mode, today);
    var combined := Combined(shown, common);
    if combined == [] {
      return [], [NoTasksText], [];
    }
    var a := new Entry[|combined|](i requires 0 <= i < |combined| => combined[i]);
    assert a[..] == combined;
    SortEntries(a, today);
    entries := a[..];
    messages := ChunkText(TaskLines(entries, today), MaxChars);
    buttons := DoneKeyboards(entries, sheetName);
  }

  /** A personal entry of the combined list is a task of the first list. */
  lemma CombinedPersonalMember(shown: seq<TaskRow>, common: seq<TaskRow>, t: TaskRow)
    ensures Entry(t, false) in Combined(shown, common) <==> t in shown
  {
    var c := Combined(shown, common);
    if Entry(t, false) in c {
      var k :| 0 <= k < |c| && c[k] == Entry(t, false);
      assert k < |shown|;
    }
    if t in shown {
      var k :| 0 <= k < |shown| && shown[k] == t;
      assert c[k] == Entry(t, false);
    }
  }

  /** A common entry of the combined list is a task of the second list. */
  lemma CombinedCommonMember(shown: seq<TaskRow>, common: seq<TaskRow>, t: TaskRow)
    ensures Entry(t, true) in Combined(shown, common) <==> t in common
  {
    var c := Combined(shown, common);
    if Entry(t, true) in c {
      var k :| 0 <= k < |c| && c[k] == Entry(t, true);
      assert k >= |shown|;
      assert c[|shown| + (k - |shown|)] == Entry(common[k - |shown|], true);
    }
    if t in common {
      var k :| 0 <= k < |common| && common[k] == t;
      assert c[|shown| + k] == Entry(t, true);
    }
  }

  /** What is listed of the personal tasks is exactly what the tab keeps. */
  lemma ListedPersonalAreKept(personal: seq<TaskRow>, common: seq<TaskRow>, mode: string, today: string,
                              entries: seq<Entry>, t: TaskRow)
    requires multiset(entries) == multiset(Combined(ModeFilter(personal, mode, today), common))
    ensures Entry(t, false) in entries <==> t in personal && KeepInMode(t, mode, today)
  {
    var c := Combined(ModeFilter(personal, mode, today), common);
    assert Entry(t, false) in entries <==> Entry(t, false) in multiset(c);
    CombinedPersonalMember(ModeFilter(personal, mode, today), common, t);
    ModeFilterMembers(personal, mode, today, t);
  }

  /** Every common task given is listed, whatever the tab: the common list comes filtered already. */
  lemma ListedCommonAreGiven(personal: seq<TaskRow>, common: seq<TaskRow>, mode: string, today: string,
                             entries: seq<Entry>, t: TaskRow)
    requires multiset(entries) == multiset(Combined(ModeFilter(personal, mode, today), common))
    ensures Entry(t, true) in entries <==> t in common
  {
    var c := Combined(ModeFilter(personal, mode, today), common);
    assert Entry(t, true) in entries <==> Entry(t, true) in multiset(c);
    CombinedCommonMember(ModeFilter(personal, mode, today), common, t);
  }
}
