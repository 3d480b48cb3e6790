/**
 * String primitives the bot relies on, with Python's meaning: whitespace
 * stripping, ASCII upper-casing, `int(str)` / `str(int)`, `split(":", n)` and
 * the code-point ordering that `sorted` and `<` use on strings.
 */
module Text {
  import opened Wrappers

  /** The ASCII whitespace that `str.strip()` and `str.split()` remove. */
  predicate IsSpace(c: char) {
    c == ' ' || c == '\t' || c == '\n' || c == '\r' || c == '\U{0B}' || c == '\U{0C}'
  }

  predicate IsDigit(c: char) {
    '0' <= c <= '9'
  }

  predicate AllDigits(s: string) {
    forall i :: 0 <= i < |s| ==> IsDigit(s[i])
  }

  predicate IsBlank(s: string) {
    forall i :: 0 <= i < |s| ==> IsSpace(s[i])
  }

  /** `s.lstrip()` */
  function TrimLeft(s: string): string {
    if |s| > 0 && IsSpace(s[0]) then TrimLeft(s[1..]) else s
  }

  /** `s.rstrip()` */
  function TrimRight(s: string): string {
    if |s| > 0 && IsSpace(s[|s| - 1]) then TrimRight(s[..|s| - 1]) else s
  }

  /** `s.strip()`: the text between the surrounding whitespace runs. */
  function Strip(s: string): string {
    TrimRight(TrimLeft(s))
  }

  /** `lstrip` removes a whitespace prefix and nothing else. */
  lemma {:induction false} TrimLeftFacts(s: string)
    ensures |TrimLeft(s)| <= |s| && TrimLeft(s) == s[|s| - |TrimLeft(s)|..]
    ensures TrimLeft(s) == [] || !IsSpace(TrimLeft(s)[0])
    ensures IsBlank(s[..|s| - |TrimLeft(s)|])
  {
    if |s| > 0 && IsSpace(s[0]) {
      var t := s[1..];
      TrimLeftFacts(t);
      var r := TrimLeft(t);
      assert TrimLeft(s) == r;
      assert s[|s| - |r|..] == t[|t| - |r|..];
      var p := s[..|s| - |r|];
      var q := t[..|t| - |r|];
      assert IsBlank(q);
      forall k | 0 <= k < |p|
        ensures IsSpace(p[k])
      {
        if k > 0 {
          assert p[k] == q[k - 1];
        }
      }
    }
  }

  /** `rstrip` removes a whitespace suffix and nothing else. */
  lemma {:induction false} TrimRightFacts(s: string)
    ensures |TrimRight(s)| <= |s| && TrimRight(s) == s[..|TrimRight(s)|]
    ensures TrimRight(s) == [] || !IsSpace(TrimRight(s)[|TrimRight(s)| - 1])
    ensures IsBlank(s[|TrimRight(s)|..])
  {
    if |s| > 0 && IsSpace(s[|s| - 1]) {
      var t := s[..|s| - 1];
      TrimRightFacts(t);
      var r := TrimRight(t);
      assert TrimRight(s) == r;
      assert s[..|r|] == t[..|r|];
      var p := s[|r|..];
      var q := t[|r|..];
      assert IsBlank(q);
      forall k | 0 <= k < |p|
        ensures IsSpace(p[k])
      {
        if k < |q| {
          assert p[k] == q[k];
        }
      }
    }
  }

  /** A string that starts and ends with a non-space is its own strip. */
  lemma StripUnchanged(s: string)
    requires s == [] || (!IsSpace(s[0]) && !IsSpace(s[|s| - 1]))
    ensures Strip(s) == s
  {
  }

  /** Stripping is idempotent, and the stripped text has no surrounding whitespace. */
  lemma StripIdempotent(s: string)
    ensures Strip(Strip(s)) == Strip(s)
    ensures Strip(s) == [] || (!IsSpace(Strip(s)[0]) && !IsSpace(Strip(s)[|Strip(s)| - 1]))
  {
    var l := TrimLeft(s);
    var r := TrimRight(l);
    TrimLeftFacts(s);
    TrimRightFacts(l);
    if r != [] {
      assert r[0] == l[0];
    }
    StripUnchanged(r);
  }

  /** A string strips to nothing exactly when it is all whitespace. */
  lemma StripEmptyIffBlank(s: string)
    ensures Strip(s) == [] <==> IsBlank(s)
  {
    var l := TrimLeft(s);
    TrimLeftFacts(s);
    TrimRightFacts(l);
    if Strip(s) == [] {
      assert s == s[..|s| - |l|] + l;
      assert l == l[0..];
    } else {
      assert Strip(s)[0] == l[0] == s[|s| - |l|];
    }
  }

  /** ASCII `str.upper()` of one character. */
  function UpperChar(c: char): char {
    if 'a' <= c <= 'z' then (c as int - 'a' as int + 'A' as int) as char else c
  }

  /** `s.upper()` on ASCII letters. */
  function Upper(s: string): (r: string)
    ensures |r| == |s|
    ensures forall i :: 0 <= i < |s| ==> r[i] == UpperChar(s[i])
  {
    if s == [] then [] else [UpperChar(s[0])] + Upper(s[1..])
  }

  // ----- decimal integers -----

  function DigitValue(c: char): nat
    requires IsDigit(c)
  {
    c as int - '0' as int
  }

  function DigitChar(d: nat): (c: char)
    requires d < 10
    ensures IsDigit(c) && DigitValue(c) == d
  {
    ('0' as int + d) as char
  }

  /** The value of a run of decimal digits (leading zeros allowed). */
  function DigitsValue(s: string): nat
    requires AllDigits(s)
  {
    if s == [] then 0 else DigitsValue(s[..|s| - 1]) * 10 + DigitValue(s[|s| - 1])
  }

  /** `str(n)` for a natural number: decimal digits without leading zeros. */
  function NatToString(n: nat): (s: string)
    ensures |s| > 0 && AllDigits(s)
    ensures |s| > 1 ==> s[0] != '0'
  {
    if n < 10 then [DigitChar(n)] else NatToString(n / 10) + [DigitChar(n % 10)]
  }

  /** `str(i)` for any integer. */
  function IntToString(i: int): (s: string)
    ensures |s| > 0 && IsDigit(s[|s| - 1])
    ensures i >= 0 ==> AllDigits(s)
  {
    if i < 0 then "-" + NatToString(-i) else NatToString(i)
  }

  lemma {:induction false} NatToStringValue(n: nat)
    ensures DigitsValue(NatToString(n)) == n
  {
    if n >= 10 {
      var s := NatToString(n);
      assert s[..|s| - 1] == NatToString(n / 10);
      NatToStringValue(n / 10);
    }
  }

  /** `str(n)` never contains a colon or whitespace. */
  lemma IntToStringPlain(i: int)
    ensures forall k :: 0 <= k < |IntToString(i)| ==> IntToString(i)[k] != ':' && !IsSpace(IntToString(i)[k])
  {
    var s := IntToString(i);
    forall k | 0 <= k < |s| ensures s[k] != ':' && !IsSpace(s[k]) {
      if i < 0 && k > 0 {
        assert s[k] == NatToString(-i)[k - 1];
      }
    }
  }

  /** Digits and single underscores between digits: what `int()` accepts after the sign. */
  predicate ValidDigitGroups(b: string) {
    && |b| > 0
    && IsDigit(b[0]) && IsDigit(b[|b| - 1])
    && (forall i :: 0 <= i < |b| ==> IsDigit(b[i]) || b[i] == '_')
    && (forall i, j :: 0 <= i < |b| && 0 <= j < |b| && j == i + 1 && b[i] == '_' ==> b[j] != '_')
  }

  function RemoveUnderscores(b: string): (r: string)
    requires forall i :: 0 <= i < |b| ==> IsDigit(b[i]) || b[i] == '_'
    ensures AllDigits(r)
  {
    if b == [] then []
    else if b[|b| - 1] == '_' then RemoveUnderscores(b[..|b| - 1])
    else RemoveUnderscores(b[..|b| - 1]) + [b[|b| - 1]]
  }

  lemma {:induction false} RemoveUnderscoresOfDigits(b: string)
    requires AllDigits(b)
    ensures RemoveUnderscores(b) == b
  {
    if b != [] {
      RemoveUnderscoresOfDigits(b[..|b| - 1]);
    }
  }

  /**
   * Python's `int(s)` on a string: surrounding whitespace, an optional sign,
   * then digits with single underscores between them; anything else is a
   * ValueError, modelled as None.
   */
  function ParseInt(s: string): (r: Option<int>)
    ensures r.Some? ==> Strip(s) != [] && IsDigit(Strip(s)[|Strip(s)| - 1])
  {
    var t := Strip(s);
    if |t| > 0 && (t[0] == '+' || t[0] == '-') then
      var b := t[1..];
      if ValidDigitGroups(b) then
        var v: int := DigitsValue(RemoveUnderscores(b));
        Some(if t[0] == '-' then -v else v)
      else None
    else if ValidDigitGroups(t) then Some(DigitsValue(RemoveUnderscores(t)))
    else None
  }

  /** `int(str(i)) == i` */
  lemma IntRoundTrip(i: int)
    ensures ParseInt(IntToString(i)) == Some(i)
  {
    var s := IntToString(i);
    StripUnchanged(s);
    var n: nat := if i < 0 then -i else i;
    var b := NatToString(n);
    DigitGroupsOfNat(n);
    RemoveUnderscoresOfDigits(b);
    NatToStringValue(n);
    if i < 0 {
      assert s == "-" + b;
      ParseIntSigned(s, b);
    } else {
      assert s == b;
      ParseIntUnsigned(s);
    }
  }

  lemma ParseIntSigned(t: string, b: string)
    requires Strip(t) == t && t == "-" + b && ValidDigitGroups(b)
    ensures ParseInt(t) == Some(-(DigitsValue(RemoveUnderscores(b)) as int))
  {
    assert t[1..] == b;
  }

  lemma ParseIntUnsigned(t: string)
    requires Strip(t) == t && ValidDigitGroups(t)
    ensures ParseInt(t) == Some(DigitsValue(RemoveUnderscores(t)))
  {
  }

  lemma DigitGroupsOfNat(n: nat)
    ensures ValidDigitGroups(NatToString(n))
  {
  }

  /** A text with no digit at all is never an integer. */
  lemma ParseIntNeedsDigit(s: string)
    requires forall k :: 0 <= k < |s| ==> !IsDigit(s[k])
    ensures ParseInt(s) == None
  {
    var l := TrimLeft(s);
    var t := Strip(s);
    TrimLeftFacts(s);
    TrimRightFacts(l);
    if |t| > 0 {
      assert t[0] == s[|s| - |l|];
      assert t[|t| - 1] == s[|s| - |l| + |t| - 1];
    }
  }

  // ----- splitting -----

  /** Index of the first occurrence of `c` in `s`. */
  function IndexOf(s: string, c: char): (r: Option<nat>)
    ensures r.Some? ==> r.value < |s| && s[r.value] == c && forall k :: 0 <= k < r.value ==> s[k] != c
    ensures r.None? ==> forall k :: 0 <= k < |s| ==> s[k] != c
  {
    if s == [] then None
    else if s[0] == c then Some(0)
    else match IndexOf(s[1..], c)
      case None => None
      case Some(k) => Some(k + 1)
  }

  /** `s.split(c, 1)`: one part when `c` is absent, else the text before and after its first occurrence. */
  function SplitOnce(s: string, c: char): (parts: seq<string>)
    ensures 1 <= |parts| <= 2
  {
    match IndexOf(s, c)
    case None => [s]
    case Some(k) => [s[..k], s[k + 1..]]
  }

  /** `s.split(c, 2)`: at most three parts, split at the first two occurrences of `c`. */
  function SplitTwice(s: string, c: char): (parts: seq<string>)
    ensures 1 <= |parts| <= 3
  {
    var first := SplitOnce(s, c);
    if |first| == 1 then first else [first[0]] + SplitOnce(first[1], c)
  }

  /** Splitting `a + [c] + b` at its first `c` gives back `a` and `b` when `a` holds no `c`. */
  lemma SplitOnceJoin(a: string, c: char, b: string)
    requires forall k :: 0 <= k < |a| ==> a[k] != c
    ensures SplitOnce(a + [c] + b, c) == [a, b]
  {
    var s := a + [c] + b;
    assert s[|a|] == c;
    assert forall j :: 0 <= j < |a| ==> s[j] == a[j];
    assert IndexOf(s, c) == Some(|a|);
    assert s[..|a|] == a;
    assert s[|a| + 1..] == b;
  }

  /** Index of the last occurrence of `c` in `s`. */
  function LastIndexOf(s: string, c: char): (r: Option<nat>)
    ensures r.Some? ==> r.value < |s| && s[r.value] == c && forall k :: r.value < k < |s| ==> s[k] != c
    ensures r.None? ==> forall k :: 0 <= k < |s| ==> s[k] != c
  {
    if s == [] then None
    else if s[|s| - 1] == c then Some(|s| - 1)
    else LastIndexOf(s[..|s| - 1], c)
  }

  /** `s.rsplit(c, 1)`: one part when `c` is absent, else the text before and after its last occurrence. */
  function RSplitOnce(s: string, c: char): (parts: seq<string>)
    ensures 1 <= |parts| <= 2
  {
    match LastIndexOf(s, c)
    case None => [s]
    case Some(k) => [s[..k], s[k + 1..]]
  }

  /** Splitting `a + [c] + b` at its last `c` gives back `a` and `b` when `b` holds no `c`, whatever `a` holds. */
  lemma RSplitOnceJoin(a: string, c: char, b: string)
    requires forall k :: 0 <= k < |b| ==> b[k] != c
    ensures RSplitOnce(a + [c] + b, c) == [a, b]
  {
    var s := a + [c] + b;
    assert s[|a|] == c;
    assert forall j :: |a| < j < |s| ==> s[j] == b[j - |a| - 1];
    match LastIndexOf(s, c)
    case None =>
    case Some(k) =>
      assert k == |a|;
    assert s[..|a|] == a;
    assert s[|a| + 1..] == b;
  }

  /** Index of the first whitespace character of `s`. */
  function FirstSpace(s: string): (r: Option<nat>)
    ensures r.Some? ==> r.value < |s| && IsSpace(s[r.value]) && forall k :: 0 <= k < r.value ==> !IsSpace(s[k])
    ensures r.None? ==> forall k :: 0 <= k < |s| ==> !IsSpace(s[k])
  {
    if s == [] then None
    else if IsSpace(s[0]) then Some(0)
    else match FirstSpace(s[1..])
      case None => None
      case Some(k) => Some(k + 1)
  }

  /**
   * `s.split(maxsplit=1)`: the first whitespace-separated word and, when
   * anything but whitespace follows it, the rest with its leading
   * whitespace removed (its trailing whitespace is kept).
   */
  function SplitWord(s: string): (parts: seq<string>)
    ensures |parts| <= 2
    ensures forall k :: 0 <= k < |parts| ==> parts[k] != [] && !IsSpace(parts[k][0])
  {
    var t := TrimLeft(s);
    TrimLeftFacts(s);
    if t == [] then []
    else match FirstSpace(t)
      case None => [t]
      case Some(i) =>
        var rest := TrimLeft(t[i..]);
        TrimLeftFacts(t[i..]);
        if rest == [] then [t[..i]] else [t[..i], rest]
  }

  /** Leading whitespace is all `lstrip` removes: a text that starts with a non-space is its own `lstrip`. */
  lemma TrimLeftOfWord(s: string)
    requires s != [] && !IsSpace(s[0])
    ensures TrimLeft(s) == s
  {
  }

  /** A blank text strips to nothing from the left. */
  lemma {:induction false} TrimLeftBlank(s: string)
    requires IsBlank(s)
    ensures TrimLeft(s) == []
  {
    if s != [] {
      TrimLeftBlank(s[1..]);
    }
  }

  lemma Assoc(a: string, b: string, c: string)
    ensures a + b + c == a + (b + c)
  {
  }

  /** Five pieces joined left to right are the first piece before the other four joined. */
  lemma Assoc5(a: string, b: string, c: string, d: string, e: string, f: string)
    ensures a + b + c + d + e + f == a + (b + (c + (d + (e + f))))
  {
  }

  // ----- ordering -----

  /** Python's `a < b` on strings: lexicographic by code point. */
  predicate StrLt(a: string, b: string) {
    if |a| == 0 then |b| > 0
    else if |b| == 0 then false
    else if a[0] == b[0] then StrLt(a[1..], b[1..])
    else a[0] < b[0]
  }

  predicate StrLe(a: string, b: string) {
    a == b || StrLt(a, b)
  }

  lemma {:induction false} StrLtIrreflexive(a: string)
    ensures !StrLt(a, a)
  {
    if |a| > 0 {
      StrLtIrreflexive(a[1..]);
    }
  }

  lemma {:induction false} StrLtTotal(a: string, b: string)
    ensures a == b || StrLt(a, b) || StrLt(b, a)
  {
    if |a| > 0 && |b| > 0 && a[0] == b[0] {
      StrLtTotal(a[1..], b[1..]);
      if a[1..] == b[1..] {
        assert a == [a[0]] + a[1..] && b == [b[0]] + b[1..];
      }
    }
  }

  lemma {:induction false} StrLtAsymmetric(a: string, b: string)
    ensures StrLt(a, b) ==> !StrLt(b, a)
  {
    if |a| > 0 && |b| > 0 && a[0] == b[0] {
      StrLtAsymmetric(a[1..], b[1..]);
    }
  }

  lemma {:induction false} StrLtTransitive(a: string, b: string, c: string)
    requires StrLt(a, b) && StrLt(b, c)
    ensures StrLt(a, c)
  {
    if |a| > 0 && |b| > 0 && |c| > 0 && a[0] == b[0] && b[0] == c[0] {
      StrLtTransitive(a[1..], b[1..], c[1..]);
    }
  }
}
