/**
 * How tasks are shown in chat: one two-line entry per task, and the list
 * of entries cut into messages that stay under the chat's length limit.
 */
module Formatters {
  import opened Text
  import opened Config
  import opened Dates

  const CommonMark := "📌 "
  const OverdueMark := " ⚠️ПРОСРОЧЕНО"
  /** The default `max_chars` of `chunk_text`. */
  const MaxChars := 3500

  /** The mark shown after the status of an open task whose due date has passed. */
  function OverdueSuffix(dueStr: string, status: string, today: string): string {
    if dueStr != "" && status != StatusDone && Overdue(dueStr, today) then OverdueMark else ""
  }

  /** `format_task_line(...)`; `today` stands for the clock read by `is_overdue`. */
  function FormatTaskLine(taskId: string, task: string, fromName: string, dueStr: string, status: string,
                          isCommon: bool, today: string): (r: string)
    ensures |r| > 2 && r[..2] == "• "
    ensures r[2] == '📌' <==> isCommon
  {
    "• " + (if isCommon then CommonMark else "") + "[" + taskId + "] " + task + "\n"
    + "  От: " + fromName + " | Срок: " + (if dueStr == "" then "-" else dueStr)
    + " | Статус: " + status + OverdueSuffix(dueStr, status, today)
  }

  predicate EndsWith(s: string, suffix: string) {
    |suffix| <= |s| && s[|s| - |suffix|..] == suffix
  }

  /**
   * The overdue mark closes the entry exactly when the task has a due
   * date, is not DONE and is overdue; the status text must not itself end
   * in the mark's last letter (TODO, DONE and ARCHIVE do not).
   */
  lemma OverdueMarkIff(taskId: string, task: string, fromName: string, dueStr: string, status: string,
                       isCommon: bool, today: string)
    requires status != [] && status[|status| - 1] != OverdueMark[|OverdueMark| - 1]
    ensures EndsWith(FormatTaskLine(taskId, task, fromName, dueStr, status, isCommon, today), OverdueMark)
            <==> dueStr != "" && status != StatusDone && Overdue(dueStr, today)
  {
    var r := FormatTaskLine(taskId, task, fromName, dueStr, status, isCommon, today);
    if !(dueStr != "" && status != StatusDone && Overdue(dueStr, today)) {
      assert r[|r| - 1] == status[|status| - 1];
    }
  }

  /** The entry opens with the bullet, the common mark where it applies, and the task id in brackets. */
  lemma LineShowsId(taskId: string, task: string, fromName: string, dueStr: string, status: string,
                    isCommon: bool, today: string)
    ensures var r := FormatTaskLine(taskId, task, fromName, dueStr, status, isCommon, today);
      var head := "• " + (if isCommon then CommonMark else "") + "[" + taskId;
      |head| <= |r| && r[..|head|] == head
  {
    var head := "• " + (if isCommon then CommonMark else "") + "[" + taskId;
    var r := FormatTaskLine(taskId, task, fromName, dueStr, status, isCommon, today);
    assert r == head + (r[|head|..]);
  }

  /** An empty due date is shown as "-" and never marks the task overdue. */
  lemma EmptyDueShowsDash(taskId: string, task: string, fromName: string, status: string, isCommon: bool, today: string)
    ensures var r := FormatTaskLine(taskId, task, fromName, "", status, isCommon, today);
      var tail := " | Срок: -" + " | Статус: " + status;
      EndsWith(r, tail)
  {
  }

  // ----- chunk_text -----

  /** The messages cut so far and the message being filled. */
  datatype Chunking = Chunking(chunks: seq<string>, buf: string)

  /**
   * One line of the loop. As written, the buffer is flushed whenever the
   * line would overflow it, even when it is still empty; `skipEmpty`
   * flushes only a non-empty buffer.
   */
  function Step(c: Chunking, line: string, maxChars: int, skipEmpty: bool): Chunking {
    if (!skipEmpty || c.buf != "") && |c.buf| + |line| + 2 > maxChars
    then Chunking(c.chunks + [c.buf], line + "\n\n")
    else Chunking(c.chunks, c.buf + line + "\n\n")
  }

  /** The loop over `lines`. */
  function Scan(lines: seq<string>, maxChars: int, skipEmpty: bool): (c: Chunking)
    ensures |c.chunks| <= |lines|
  {
    if lines == [] then Chunking([], "")
    else Step(Scan(lines[..|lines| - 1], maxChars, skipEmpty), lines[|lines| - 1], maxChars, skipEmpty)
  }

  /** After the loop: the last buffer is sent unless it is blank. */
  function Finish(c: Chunking): seq<string> {
    if Strip(c.buf) != "" then c.chunks + [c.buf] else c.chunks
  }

  /** `chunk_text(lines, max_chars)` as written. */
  function ChunkTextAsWritten(lines: seq<string>, maxChars: int): (r: seq<string>)
    ensures |r| <= |lines| + 1
  {
    Finish(Scan(lines, maxChars, false))
  }

  /** The intended `chunk_text`: no empty message is ever cut. */
  function ChunkTextSpec(lines: seq<string>, maxChars: int): seq<string> {
    Finish(Scan(lines, maxChars, true))
  }

  /** `chunk_text(lines, max_chars)`, flushing only a non-empty buffer. */
  method ChunkText(lines: seq<string>, maxChars: int) returns (chunks: seq<string>)
    ensures chunks == ChunkTextSpec(lines, maxChars)
  {
    chunks := [];
    var buf := "";
    for i := 0 to |lines|
      invariant Chunking(chunks, buf) == Scan(lines[..i], maxChars, true)
    {
      assert lines[..i + 1][..i] == lines[..i];
      var line := lines[i];
      if buf != "" && |buf| + |line| + 2 > maxChars {
        chunks := chunks + [buf];
        buf := "";
      }
      buf := buf + line + "\n\n";
    }
    assert lines[..|lines|] == lines;
    if Strip(buf) != "" {
      chunks := chunks + [buf];
    }
  }

  /** All lines, each followed by a blank line. */
  function Joined(lines: seq<string>): string {
    if lines == [] then "" else Joined(lines[..|lines| - 1]) + lines[|lines| - 1] + "\n\n"
  }

  function Concat(ss: seq<string>): string {
    if ss == [] then "" else Concat(ss[..|ss| - 1]) + ss[|ss| - 1]
  }

  lemma ConcatAppend(ss: seq<string>, s: string)
    ensures Concat(ss + [s]) == Concat(ss) + s
  {
    assert (ss + [s])[..|ss|] == ss;
  }

  /** The cut messages and the buffer together are all the lines, in order. */
  lemma {:induction false} ScanKeepsText(lines: seq<string>, maxChars: int, skipEmpty: bool)
    ensures var c := Scan(lines, maxChars, skipEmpty);
      Concat(c.chunks) + c.buf == Joined(lines)
  {
    if lines != [] {
      var init := lines[..|lines| - 1];
      var line := lines[|lines| - 1];
      var c := Scan(init, maxChars, skipEmpty);
      var tail := line + "\n\n";
      ScanKeepsText(init, maxChars, skipEmpty);
      assert Joined(lines) == Joined(init) + line + "\n\n";
      Assoc(Joined(init), line, "\n\n");
      if (!skipEmpty || c.buf != "") && |c.buf| + |line| + 2 > maxChars {
        assert Scan(lines, maxChars, skipEmpty) == Chunking(c.chunks + [c.buf], tail);
        ConcatAppend(c.chunks, c.buf);
      } else {
        assert Scan(lines, maxChars, skipEmpty) == Chunking(c.chunks, c.buf + line + "\n\n");
        Assoc(c.buf, line, "\n\n");
        Assoc(Concat(c.chunks), c.buf, tail);
      }
    }
  }

  /**
   * Every line appears, followed by a blank line, in input order: the
   * messages joined are the whole text but for a blank tail that is not
   * sent. No lines give no messages.
   */
  lemma ChunkTextKeepsText(lines: seq<string>, maxChars: int)
    ensures var r := ChunkTextSpec(lines, maxChars);
      && |Concat(r)| <= |Joined(lines)|
      && Joined(lines)[..|Concat(r)|] == Concat(r)
      && IsBlank(Joined(lines)[|Concat(r)|..])
      && (lines == [] ==> r == [])
  {
    var c := Scan(lines, maxChars, true);
    ScanKeepsText(lines, maxChars, true);
    var j := Joined(lines);
    if Strip(c.buf) != "" {
      ConcatAppend(c.chunks, c.buf);
      assert j[|j|..] == "";
    } else {
      StripEmptyIffBlank(c.buf);
      assert j[|Concat(c.chunks)|..] == c.buf;
    }
  }

  /** When every line fits with its blank line, every message fits. */
  lemma {:induction false} ChunksFit(lines: seq<string>, maxChars: int, skipEmpty: bool)
    requires 0 <= maxChars
    requires forall k :: 0 <= k < |lines| ==> |lines[k]| + 2 <= maxChars
    ensures var c := Scan(lines, maxChars, skipEmpty);
      |c.buf| <= maxChars && forall k :: 0 <= k < |c.chunks| ==> |c.chunks[k]| <= maxChars
  {
    if lines != [] {
      var init := lines[..|lines| - 1];
      assert forall k :: 0 <= k < |init| ==> init[k] == lines[k];
      ChunksFit(init, maxChars, skipEmpty);
      var c := Scan(init, maxChars, skipEmpty);
      var line := lines[|lines| - 1];
      assert |line| + 2 <= maxChars;
      if (!skipEmpty || c.buf != "") && |c.buf| + |line| + 2 > maxChars {
        var cs := c.chunks + [c.buf];
        assert forall k :: 0 <= k < |cs| ==> cs[k] == c.buf || cs[k] == c.chunks[k];
      }
    }
  }

  /** When every line fits with its blank line, `chunk_text` keeps every message within `max_chars`. */
  lemma ChunkTextFits(lines: seq<string>, maxChars: int)
    requires 0 <= maxChars
    requires forall k :: 0 <= k < |lines| ==> |lines[k]| + 2 <= maxChars
    ensures forall m :: m in ChunkTextSpec(lines, maxChars) ==> |m| <= maxChars
  {
    ChunksFit(lines, maxChars, true);
  }

  /** The intended version never cuts an empty message. */
  lemma {:induction false} ScanChunksNonEmpty(lines: seq<string>, maxChars: int)
    ensures forall k :: 0 <= k < |Scan(lines, maxChars, true).chunks| ==> Scan(lines, maxChars, true).chunks[k] != ""
  {
    if lines != [] {
      ScanChunksNonEmpty(lines[..|lines| - 1], maxChars);
    }
  }

  /** No message of `chunk_text` is empty. */
  lemma ChunksNonEmpty(lines: seq<string>, maxChars: int)
    ensures forall m :: m in ChunkTextSpec(lines, maxChars) ==> m != ""
  {
    ScanChunksNonEmpty(lines, maxChars);
  }

  /** After a first line the buffer is never empty. */
  lemma BufferNonEmpty(lines: seq<string>, maxChars: int, skipEmpty: bool)
    requires lines != []
    ensures Scan(lines, maxChars, skipEmpty).buf != ""
  {
  }

  /** As written and intended agree whenever the first line fits: only an empty first buffer differs. */
  lemma {:induction false} AgreeWhenFirstLineFits(lines: seq<string>, maxChars: int)
    requires lines == [] || |lines[0]| + 2 <= maxChars
    ensures Scan(lines, maxChars, false) == Scan(lines, maxChars, true)
    ensures ChunkTextAsWritten(lines, maxChars) == ChunkTextSpec(lines, maxChars)
  {
    if |lines| > 1 {
      var init := lines[..|lines| - 1];
      assert init[0] == lines[0];
      AgreeWhenFirstLineFits(init, maxChars);
      BufferNonEmpty(init, maxChars, true);
    }
  }

  /**
   * As written, a first line that overflows the limit on its own is
   * preceded by an empty message: with `max_chars` 3500 and a first line of
   * 3499 characters or more, the first message sent is "".
   */
  lemma EmptyFirstChunk(line: string, maxChars: int)
    requires |line| + 2 > maxChars && !IsBlank(line)
    ensures ChunkTextAsWritten([line], maxChars) == ["", line + "\n\n"]
    ensures ChunkTextSpec([line], maxChars) == [line + "\n\n"]
  {
    var b := line + "\n\n";
    var k :| 0 <= k < |line| && !IsSpace(line[k]);
    assert b[k] == line[k];
    StripEmptyIffBlank(b);
    assert [line][..0] == [];
    assert Scan([], maxChars, false) == Chunking([], "");
    assert Scan([line], maxChars, false) == Chunking([""], b);
    assert Scan([line], maxChars, true) == Chunking([], b);
  }
}
