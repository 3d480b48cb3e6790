/**
 * Due dates as the store keeps them: a datetime at minute precision, written
 * as "YYYY-MM-DD HH:MM" and read back with the two `strptime` formats the
 * repositories try ("%Y-%m-%d %H:%M" when the text holds a space, else
 * "%Y-%m-%d"). Unparseable text silently becomes "no due date".
 */
module Due {
  import opened Wrappers
  import opened Text

  datatype DateTime = DateTime(year: int, month: int, day: int, hour: int, minute: int)

  predicate IsLeapYear(y: int) {
    y % 4 == 0 && (y % 100 != 0 || y % 400 == 0)
  }

  function DaysInMonth(y: int, m: int): int {
    if m == 2 then (if IsLeapYear(y) then 29 else 28)
    else if m == 4 || m == 6 || m == 9 || m == 11 then 30
    else 31
  }

  /** The values Python's `datetime` constructor accepts (seconds are always zero here). */
  predicate Valid(d: DateTime) {
    && 1 <= d.year <= 9999
    && 1 <= d.month <= 12
    && 1 <= d.day <= DaysInMonth(d.year, d.month)
    && 0 <= d.hour <= 23
    && 0 <= d.minute <= 59
  }

  /** `a < b` on datetimes: chronological order. */
  predicate Before(a: DateTime, b: DateTime) {
    if a.year != b.year then a.year < b.year
    else if a.month != b.month then a.month < b.month
    else if a.day != b.day then a.day < b.day
    else if a.hour != b.hour then a.hour < b.hour
    else a.minute < b.minute
  }

  // ----- formatting -----

  /** Zero-padded two-digit field (`%m`, `%d`, `%H`, `%M`). */
  function Pad2(n: int): string {
    if 0 <= n < 100 then [DigitChar(n / 10), DigitChar(n % 10)] else IntToString(n)
  }

  /** Zero-padded four-digit year (`%Y`). */
  function Pad4(n: int): string {
    if 0 <= n < 10000 then [DigitChar(n / 1000), DigitChar(n / 100 % 10), DigitChar(n / 10 % 10), DigitChar(n % 10)]
    else IntToString(n)
  }

  /** `_due_to_str`: "" for no due date, else "YYYY-MM-DD HH:MM". */
  function DueToStr(d: Option<DateTime>): (r: string)
    ensures r == "" <==> d.None?
    ensures d.Some? && Valid(d.value) ==>
      |r| == 16 && r[4] == '-' && r[7] == '-' && r[10] == ' ' && r[13] == ':'
  {
    match d
    case None => ""
    case Some(t) =>
      if Valid(t) then
        Pad4Value(t.year);
        Pad2Value(t.month);
        Pad2Value(t.day);
        Pad2Value(t.hour);
        Pad2Value(t.minute);
        Pad4(t.year) + "-" + Pad2(t.month) + "-" + Pad2(t.day) + " " + Pad2(t.hour) + ":" + Pad2(t.minute)
      else
      Pad4(t.year) + "-" + Pad2(t.month) + "-" + Pad2(t.day) + " " + Pad2(t.hour) + ":" + Pad2(t.minute)
  }

  // ----- parsing -----

  /** A number read off the front of a text, and the text after it. */
  datatype Scan = Scan(value: int, rest: string)

  /** Length of the run of digits at the front of `s`. */
  function DigitRun(s: string): nat {
    if |s| > 0 && IsDigit(s[0]) then 1 + DigitRun(s[1..]) else 0
  }

  lemma {:induction false} DigitRunFacts(s: string)
    ensures DigitRun(s) <= |s|
    ensures AllDigits(s[..DigitRun(s)])
    ensures DigitRun(s) < |s| ==> !IsDigit(s[DigitRun(s)])
  {
    if |s| > 0 && IsDigit(s[0]) {
      DigitRunFacts(s[1..]);
      assert s[..DigitRun(s)] == [s[0]] + s[1..][..DigitRun(s[1..])];
    }
  }

  /**
   * One numeric `strptime` directive: a maximal run of `minW`..`maxW` digits
   * whose value lies in `lo`..`hi`. The regular expressions `strptime` builds
   * for `%Y`, `%m`, `%H` and `%M` accept these; the one for `%d` also takes a
   * space followed by one digit (" 5"), which this model rejects.
   */
  function Field(s: string, minW: nat, maxW: nat, lo: int, hi: int): Option<Scan> {
    DigitRunFacts(s);
    var n := DigitRun(s);
    if minW <= n <= maxW && lo <= DigitsValue(s[..n]) <= hi then Some(Scan(DigitsValue(s[..n]), s[n..]))
    else None
  }

  /** A literal separator character of the format. */
  function Expect(s: string, c: char): Option<string> {
    if |s| > 0 && s[0] == c then Some(s[1..]) else None
  }

  /** A space in the format matches one or more whitespace characters. */
  function Spaces(s: string): Option<string> {
    if |s| > 0 && IsSpace(s[0]) then Some(TrimLeft(s)) else None
  }

  /** The datetime the parsed fields name, if the constructor accepts it. */
  function Build(y: int, mo: int, d: int, h: int, mi: int): Option<DateTime> {
    var t := DateTime(y, mo, d, h, mi);
    if Valid(t) then Some(t) else None
  }

  /** The fields read by the date part "%Y-%m-%d" of both formats, and what follows. */
  datatype DatePart = DatePart(year: int, month: int, day: int, rest: string)

  function ParseDatePart(s: string): Option<DatePart> {
    var y :- Field(s, 4, 4, 0, 9999);
    var a :- Expect(y.rest, '-');
    var mo :- Field(a, 1, 2, 1, 12);
    var b :- Expect(mo.rest, '-');
    var d :- Field(b, 1, 2, 1, 31);
    Some(DatePart(y.value, mo.value, d.value, d.rest))
  }

  /** The time part " %H:%M": whitespace, hour, colon, minute. */
  datatype TimePart = TimePart(hour: int, minute: int, rest: string)

  function ParseTimePart(s: string): Option<TimePart> {
    var c :- Spaces(s);
    var h :- Field(c, 1, 2, 0, 23);
    var e :- Expect(h.rest, ':');
    var mi :- Field(e, 1, 2, 0, 59);
    Some(TimePart(h.value, mi.value, mi.rest))
  }

  /** `strptime(s, "%Y-%m-%d")` */
  function ParseDate(s: string): Option<DateTime> {
    var d :- ParseDatePart(s);
    if d.rest == [] then Build(d.year, d.month, d.day, 0, 0) else None
  }

  /** `strptime(s, "%Y-%m-%d %H:%M")` */
  function ParseDateTime(s: string): Option<DateTime> {
    var d :- ParseDatePart(s);
    var t :- ParseTimePart(d.rest);
    if t.rest == [] then Build(d.year, d.month, d.day, t.hour, t.minute) else None
  }

  /** `_parse_due_str`: empty text and every parse failure give None. */
  function ParseDueStr(raw: string): (r: Option<DateTime>)
    ensures r.Some? ==> Valid(r.value)
  {
    if raw == [] then None
    else
      var s := Strip(raw);
      if ' ' in s then ParseDateTime(s) else ParseDate(s)
  }

  // ----- properties -----

  /** A text that holds no digit (a word such as "tomorrow") is silently no due date. */
  lemma ParseWithoutDigits(raw: string)
    requires forall k :: 0 <= k < |raw| ==> !IsDigit(raw[k])
    ensures ParseDueStr(raw) == None
  {
    if raw != [] {
      var s := Strip(raw);
      TrimLeftFacts(raw);
      TrimRightFacts(TrimLeft(raw));
      if |s| > 0 {
        assert s[0] == raw[|raw| - |TrimLeft(raw)|];
      }
      assert DigitRun(s) == 0;
    }
  }

  lemma {:induction false} DigitRunOfDigits(d: string, rest: string)
    requires AllDigits(d)
    requires rest == [] || !IsDigit(rest[0])
    ensures DigitRun(d + rest) == |d|
  {
    if d != [] {
      assert (d + rest)[1..] == d[1..] + rest;
      DigitRunOfDigits(d[1..], rest);
    }
  }

  lemma FieldOfDigits(d: string, rest: string, minW: nat, maxW: nat, lo: int, hi: int)
    requires AllDigits(d) && minW <= |d| <= maxW && lo <= DigitsValue(d) <= hi
    requires rest == [] || !IsDigit(rest[0])
    ensures Field(d + rest, minW, maxW, lo, hi) == Some(Scan(DigitsValue(d), rest))
  {
    DigitRunOfDigits(d, rest);
    assert (d + rest)[..|d|] == d;
    assert (d + rest)[|d|..] == rest;
  }

  lemma Pad2Value(n: int)
    requires 0 <= n < 100
    ensures |Pad2(n)| == 2 && AllDigits(Pad2(n)) && DigitsValue(Pad2(n)) == n
  {
    var p := Pad2(n);
    assert p[..1] == [p[0]] && [p[0]][..0] == [];
    assert DigitsValue(p[..1]) == n / 10;
  }

  lemma Pad4Value(n: int)
    requires 0 <= n < 10000
    ensures |Pad4(n)| == 4 && AllDigits(Pad4(n)) && DigitsValue(Pad4(n)) == n
  {
    var p := Pad4(n);
    var a, b, c, d := p[0], p[1], p[2], p[3];
    assert p[..3] == [a, b, c] && [a, b, c][..2] == [a, b] && [a, b][..1] == [a] && [a][..0] == [];
    assert DigitsValue([a]) == n / 1000;
    assert DigitsValue([a, b]) == n / 100;
    assert DigitsValue([a, b, c]) == n / 10;
  }

  /** The date part of a formatted datetime reads back its year, month and day. */
  lemma DatePartOf(t: DateTime, rest: string)
    requires Valid(t)
    requires rest == [] || !IsDigit(rest[0])
    ensures ParseDatePart(Pad4(t.year) + "-" + Pad2(t.month) + "-" + Pad2(t.day) + rest)
         == Some(DatePart(t.year, t.month, t.day, rest))
  {
    var py, pmo, pd := Pad4(t.year), Pad2(t.month), Pad2(t.day);
    Pad4Value(t.year);
    Pad2Value(t.month);
    Pad2Value(t.day);
    var r2 := pd + rest;
    var r1 := "-" + r2;
    var r0 := pmo + r1;
    var rs := "-" + r0;
    Assoc5(py, "-", pmo, "-", pd, rest);
    FieldOfDigits(py, rs, 4, 4, 0, 9999);
    assert rs[1..] == r0;
    FieldOfDigits(pmo, r1, 1, 2, 1, 12);
    assert r1[1..] == r2;
    FieldOfDigits(pd, rest, 1, 2, 1, 31);
  }

  /** The time part of a formatted datetime reads back its hour and minute. */
  lemma TimePartOf(t: DateTime)
    requires Valid(t)
    ensures ParseTimePart(" " + Pad2(t.hour) + ":" + Pad2(t.minute)) == Some(TimePart(t.hour, t.minute, []))
  {
    var ph, pmi := Pad2(t.hour), Pad2(t.minute);
    Pad2Value(t.hour);
    Pad2Value(t.minute);
    var r5 := ":" + pmi;
    var r4 := ph + r5;
    var r3 := " " + r4;
    assert " " + ph + ":" + pmi == r3;
    assert TrimLeft(r3) == r4;
    FieldOfDigits(ph, r5, 1, 2, 0, 23);
    assert r5[1..] == pmi;
    FieldOfDigits(pmi, [], 1, 2, 0, 59);
    assert pmi + [] == pmi;
  }

  /** `_parse_due_str(_due_to_str(d)) == d` for every minute-precision datetime. */
  lemma DueRoundTrip(t: DateTime)
    requires Valid(t)
    ensures ParseDueStr(DueToStr(Some(t))) == Some(t)
  {
    var date := Pad4(t.year) + "-" + Pad2(t.month) + "-" + Pad2(t.day);
    var time := " " + Pad2(t.hour) + ":" + Pad2(t.minute);
    var s := DueToStr(Some(t));
    assert s == date + time;
    Pad4Value(t.year);
    Pad2Value(t.minute);
    assert |date| == 10 && s[10] == ' ';
    assert IsDigit(s[0]) && IsDigit(s[|s| - 1]);
    StripUnchanged(s);
    DatePartOf(t, time);
    TimePartOf(t);
  }
}
