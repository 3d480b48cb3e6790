/**
 * The overdue test of the bot's views. Today's date is a parameter (the
 * bot reads the clock) and is an ISO text "YYYY-MM-DD".
 *
 * `is_overdue` parses the due text with `date.fromisoformat`, which takes
 * only the ten-character date form; the store hands out due texts
 * "YYYY-MM-DD HH:MM", so every stored due date makes it raise
 * (`IsOverdueAsWritten`, `StoredDueRaises`). The views use `Overdue`
 * instead: the due text is compared with today's as strings, which is
 * the date comparison on ISO dates (`Overdue`'s own contract) and compares a stored
 * due by its date part (`StoredDueOverdue`).
 */
module Dates {
  import opened Wrappers
  import opened Text
  import opened Due

  /** The due date is before today, comparing the texts; on ISO dates that is the order of the days. */
  predicate Overdue(due: string, today: string)
    ensures IsoForm(due) && IsoForm(today) ==>
      (Overdue(due, today) <==> DayBefore(IsoYear(due), IsoMonth(due), IsoDay(due), IsoYear(today), IsoMonth(today), IsoDay(today)))
  {
    if IsoForm(due) && IsoForm(today) then
      IsoOrderAgrees(due, today);
      StrLt(due, today)
    else StrLt(due, today)
  }

  // ----- ISO dates -----

  /** The shape "YYYY-MM-DD": four, two and two digits joined by dashes. */
  predicate IsoForm(s: string) {
    && |s| == 10
    && AllDigits(s[..4]) && s[4] == '-'
    && AllDigits(s[5..7]) && s[7] == '-'
    && AllDigits(s[8..])
  }

  function IsoYear(s: string): nat
    requires IsoForm(s)
  {
    DigitsValue(s[..4])
  }

  function IsoMonth(s: string): nat
    requires IsoForm(s)
  {
    DigitsValue(s[5..7])
  }

  function IsoDay(s: string): nat
    requires IsoForm(s)
  {
    DigitsValue(s[8..])
  }

  /** What `date.fromisoformat` accepts: the shape, naming a real calendar day. */
  predicate IsIsoDate(s: string) {
    && IsoForm(s)
    && 1 <= IsoYear(s)
    && 1 <= IsoMonth(s) <= 12
    && 1 <= IsoDay(s) <= DaysInMonth(IsoYear(s), IsoMonth(s))
  }

  /** `date < date`: the day (y1, m1, d1) comes before the day (y2, m2, d2). */
  predicate DayBefore(y1: int, m1: int, d1: int, y2: int, m2: int, d2: int) {
    y1 < y2 || (y1 == y2 && (m1 < m2 || (m1 == m2 && d1 < d2)))
  }

  /**
   * `is_overdue(due_iso)` as written: None where `date.fromisoformat`
   * raises, else whether the due day is before today.
   */
  function IsOverdueAsWritten(due: string, today: string): (r: Option<bool>)
    requires IsIsoDate(today)
    ensures r.Some? <==> IsIsoDate(due)
    ensures r.Some? ==> (r.value <==> Overdue(due, today))
  {
    if IsIsoDate(due) then
      Some(DayBefore(IsoYear(due), IsoMonth(due), IsoDay(due), IsoYear(today), IsoMonth(today), IsoDay(today)))
    else None
  }

  // ----- properties -----

  /**
   * Every due date the store hands out is sixteen characters long, so the
   * as-written `is_overdue` raises on it.
   */
  lemma StoredDueRaises(t: DateTime, today: string)
    requires Valid(t) && IsIsoDate(today)
    ensures |DueToStr(Some(t))| == 16
    ensures IsOverdueAsWritten(DueToStr(Some(t)), today) == None
  {
    Pad4Value(t.year);
    Pad2Value(t.month);
    Pad2Value(t.day);
    Pad2Value(t.hour);
    Pad2Value(t.minute);
  }

  /** A stored due date is overdue exactly when its day is before today. */
  lemma StoredDueOverdue(t: DateTime, today: string)
    requires Valid(t) && IsIsoDate(today)
    ensures Overdue(DueToStr(Some(t)), today)
        <==> DayBefore(t.year, t.month, t.day, IsoYear(today), IsoMonth(today), IsoDay(today))
  {
    var date := Pad4(t.year) + "-" + Pad2(t.month) + "-" + Pad2(t.day);
    var time := " " + Pad2(t.hour) + ":" + Pad2(t.minute);
    assert DueToStr(Some(t)) == date + time;
    Pad4Value(t.year);
    Pad2Value(t.month);
    Pad2Value(t.day);
    assert date[..4] == Pad4(t.year) && date[5..7] == Pad2(t.month) && date[8..] == Pad2(t.day);
    StrLtConcat(date, time, today, []);
    assert today + [] == today;
    IsoOrderAgrees(date, today);
  }

  // ----- text order on ISO dates -----

  /** Comparing two texts whose first parts have equal length compares those parts first. */
  lemma {:induction false} StrLtConcat(p: string, q: string, p2: string, q2: string)
    requires |p| == |p2|
    ensures StrLt(p + q, p2 + q2) <==> StrLt(p, p2) || (p == p2 && StrLt(q, q2))
  {
    if p != [] {
      assert (p + q)[0] == p[0] && (p2 + q2)[0] == p2[0];
      assert (p + q)[1..] == p[1..] + q && (p2 + q2)[1..] == p2[1..] + q2;
      StrLtConcat(p[1..], q, p2[1..], q2);
      if p[0] == p2[0] && p[1..] == p2[1..] {
        assert p == p2;
      }
    } else {
      assert p + q == q && p2 + q2 == q2;
    }
  }

  /** Digit texts of equal length compare as texts exactly as their values do. */
  lemma {:induction false} DigitsOrder(x: string, y: string)
    requires AllDigits(x) && AllDigits(y) && |x| == |y|
    ensures StrLt(x, y) <==> DigitsValue(x) < DigitsValue(y)
    ensures x == y <==> DigitsValue(x) == DigitsValue(y)
    decreases |x|
  {
    if x != [] {
      var n := |x| - 1;
      var x0, y0 := x[..n], y[..n];
      assert AllDigits(x0) && AllDigits(y0);
      DigitsOrder(x0, y0);
      DigitsOrder(y0, x0);
      StrLtTotal(x0, y0);
      assert x == x0 + [x[n]] && y == y0 + [y[n]];
      StrLtConcat(x0, [x[n]], y0, [y[n]]);
      assert StrLt([x[n]], [y[n]]) <==> x[n] < y[n] by {
        assert [x[n]][1..] == [] && [y[n]][1..] == [];
      }
      StrLtAsymmetric(x, y);
    } else {
      StrLtIrreflexive(x);
    }
  }

  /** On ISO dates, the text order is the order of the days. */
  lemma IsoOrderAgrees(a: string, b: string)
    requires IsoForm(a) && IsoForm(b)
    ensures StrLt(a, b) <==> DayBefore(IsoYear(a), IsoMonth(a), IsoDay(a), IsoYear(b), IsoMonth(b), IsoDay(b))
  {
    assert a == a[..4] + a[4..] && b == b[..4] + b[4..];
    StrLtConcat(a[..4], a[4..], b[..4], b[4..]);
    assert a[4..] == a[4..5] + a[5..] && b[4..] == b[4..5] + b[5..];
    assert a[4..5] == b[4..5] == "-";
    StrLtConcat(a[4..5], a[5..], b[4..5], b[5..]);
    StrLtIrreflexive("-");
    assert a[5..] == a[5..7] + a[7..] && b[5..] == b[5..7] + b[7..];
    StrLtConcat(a[5..7], a[7..], b[5..7], b[7..]);
    assert a[7..] == a[7..8] + a[8..] && b[7..] == b[7..8] + b[8..];
    assert a[7..8] == b[7..8] == "-";
    StrLtConcat(a[7..8], a[8..], b[7..8], b[8..]);
    DigitsOrder(a[..4], b[..4]);
    DigitsOrder(a[5..7], b[5..7]);
    DigitsOrder(a[8..], b[8..]);
  }
}
