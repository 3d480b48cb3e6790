/**
 * Creation of the mirror's worksheets and header rows: the Users sheet, the
 * shared "Общие" sheet, CommonProgress, and one task sheet per user. A
 * missing worksheet is added empty; row 1 is rewritten whenever what
 * `row_values(1)` returns differs from the expected headers.
 */
module MirrorSchema {
  import opened Sheets
  import opened Config

  /** One required worksheet: its title and its header row. */
  datatype Requirement = Requirement(name: string, headers: Row)

  /** The worksheets the mirror needs, in the order they are ensured. */
  function Required(userSheetNames: seq<string>): (r: seq<Requirement>)
    ensures |r| == 3 + |userSheetNames|
    ensures r[0] == Requirement(UsersSheet, UsersHeaders)
    ensures r[1] == Requirement(CommonSheet, TaskHeaders)
    ensures r[2] == Requirement(CommonProgressSheet, CommonProgressHeaders)
    ensures forall i :: 0 <= i < |userSheetNames| ==> r[3 + i] == Requirement(userSheetNames[i], TaskHeaders)
  {
    [Requirement(UsersSheet, UsersHeaders), Requirement(CommonSheet, TaskHeaders),
     Requirement(CommonProgressSheet, CommonProgressHeaders)]
    + seq(|userSheetNames|, i requires 0 <= i < |userSheetNames| => Requirement(userSheetNames[i], TaskHeaders))
  }

  /** The worksheets after `_ensure_ws(name)`. */
  function EnsureSheet(sheets: map<string, Grid>, name: string): map<string, Grid> {
    if name in sheets then sheets else sheets[name := []]
  }

  /** A worksheet after `_ensure_headers(ws, headers)`. */
  function HeadersFixed(g: Grid, headers: Row): Grid {
    if RowValues(g, 1) != headers then WriteRow(g, 1, headers) else g
  }

  /** The worksheets after ensuring one requirement: the sheet exists, then its headers. */
  function Ensured(sheets: map<string, Grid>, q: Requirement): map<string, Grid> {
    var s := EnsureSheet(sheets, q.name);
    s[q.name := HeadersFixed(s[q.name], q.headers)]
  }

  /** The worksheets after ensuring every requirement of `reqs`, first to last. */
  function EnsureList(sheets: map<string, Grid>, reqs: seq<Requirement>): map<string, Grid> {
    if reqs == [] then sheets else Ensured(EnsureList(sheets, reqs[..|reqs| - 1]), reqs[|reqs| - 1])
  }

  /** `_ensure_ws(name)` */
  method EnsureWs(ss: Spreadsheet, name: string)
    modifies ss
    ensures ss.sheets == EnsureSheet(old(ss.sheets), name)
  {
    if name !in ss.sheets {
      ss.AddWorksheet(name);
    }
  }

  /** `_ensure_headers(ws, headers)` */
  method EnsureHeaders(ss: Spreadsheet, name: string, headers: Row)
    requires name in ss.sheets
    modifies ss
    ensures ss.sheets == old(ss.sheets)[name := HeadersFixed(old(ss.sheets)[name], headers)]
  {
    var values := ss.GetRowValues(name, 1);
    if values != headers {
      ss.Update(name, 1, headers);
    }
  }

  /** `ensure_base_structure(user_sheet_names)` */
  method EnsureBaseStructure(ss: Spreadsheet, userSheetNames: seq<string>)
    modifies ss
    ensures ss.sheets == EnsureList(old(ss.sheets), Required(userSheetNames))
  {
    var reqs := Required(userSheetNames);
    for i := 0 to |reqs|
      invariant ss.sheets == EnsureList(old(ss.sheets), reqs[..i])
    {
      assert reqs[..i + 1][..i] == reqs[..i];
      EnsureWs(ss, reqs[i].name);
      EnsureHeaders(ss, reqs[i].name, reqs[i].headers);
    }
    assert reqs[..|reqs|] == reqs;
  }

  // ----- properties -----

  /** After `_ensure_headers`, row 1 begins with the headers and every later row is kept. */
  lemma HeadersFixedShape(g: Grid, headers: Row)
    ensures var r := HeadersFixed(g, headers);
      && |r| == (if |g| == 0 && headers != [] then 1 else |g|)
      && (|r| >= 1 ==> |r[0]| >= |headers| && r[0][..|headers|] == headers)
      && (forall i :: 1 <= i < |g| ==> r[i] == g[i])
  {
  }

  /**
   * For headers that end in a non-empty title, `_ensure_headers` makes the
   * same change as an unconditional `update("A1", [headers])`: the check
   * only skips writes that would change nothing.
   */
  lemma HeadersFixedIsWrite(g: Grid, headers: Row)
    requires headers != [] && headers[|headers| - 1] != ""
    ensures HeadersFixed(g, headers) == WriteRow(g, 1, headers)
  {
    if |g| >= 1 && RowValues(g, 1) == headers {
      var t := TrimTrailingEmpty(g[0]);
      assert g[0] == headers + g[0][|headers|..];
    }
  }

  /** A second `_ensure_headers` with the same headers leaves the sheet as the first left it. */
  lemma HeadersFixedIdempotent(g: Grid, headers: Row)
    ensures HeadersFixed(HeadersFixed(g, headers), headers) == HeadersFixed(g, headers)
  {
    if RowValues(g, 1) != headers && |g| >= 1 {
      OverlayIdempotent(g[0], headers);
    }
  }

  /**
   * When row 1 holds nothing past the headers' width, the next
   * `_ensure_headers` reads back exactly the headers and writes nothing;
   * cells to the right of the headers make it rewrite row 1 every time.
   */
  lemma HeadersSettle(g: Grid, headers: Row)
    requires headers != [] && headers[|headers| - 1] != ""
    ensures (|g| == 0 || forall c :: |headers| <= c < |g[0]| ==> g[0][c] == "")
            <==> RowValues(HeadersFixed(g, headers), 1) == headers
  {
    var r := HeadersFixed(g, headers);
    HeadersFixedIsWrite(g, headers);
    if |g| >= 1 {
      var row := Overlay(g[0], headers);
      assert r[0] == row;
      if forall c :: |headers| <= c < |g[0]| ==> g[0][c] == "" {
        TrimToPrefix(row, headers);
      } else {
        var c :| |headers| <= c < |g[0]| && g[0][c] != "";
        assert row[c] != "";
        TrimKeepsNonEmpty(row, c);
      }
    } else {
      assert r == [headers];
    }
  }

  /** Trimming a row that is `p` followed by empty cells, where `p` ends non-empty, gives `p`. */
  lemma {:induction false} TrimToPrefix(row: Row, p: Row)
    requires p != [] && p[|p| - 1] != ""
    requires |row| >= |p| && row[..|p|] == p
    requires forall c :: |p| <= c < |row| ==> row[c] == ""
    ensures TrimTrailingEmpty(row) == p
    decreases |row|
  {
    if |row| > |p| {
      assert row[|row| - 1] == "";
      var shorter := row[..|row| - 1];
      assert shorter[..|p|] == p;
      TrimToPrefix(shorter, p);
    } else {
      assert row == p;
    }
  }

  /** Trimming keeps every cell up to a non-empty one. */
  lemma TrimKeepsNonEmpty(row: Row, c: nat)
    requires c < |row| && row[c] != ""
    ensures |TrimTrailingEmpty(row)| > c
  {
  }

  /** Ensuring a requirement changes only the worksheet it names. */
  lemma EnsuredFrame(sheets: map<string, Grid>, q: Requirement)
    ensures Ensured(sheets, q).Keys == sheets.Keys + {q.name}
    ensures forall n :: n in sheets && n != q.name ==> Ensured(sheets, q)[n] == sheets[n]
  {
  }

  /**
   * After `ensure_base_structure`, every required worksheet exists, no
   * other worksheet is added, and a worksheet that is not required is
   * unchanged.
   */
  lemma {:induction false} EnsureListFrame(sheets: map<string, Grid>, reqs: seq<Requirement>)
    ensures var r := EnsureList(sheets, reqs);
      && (forall n :: n in r <==> n in sheets || exists i :: 0 <= i < |reqs| && reqs[i].name == n)
      && (forall n :: n in sheets && (forall i :: 0 <= i < |reqs| ==> reqs[i].name != n) ==> r[n] == sheets[n])
  {
    if reqs != [] {
      var init := reqs[..|reqs| - 1];
      EnsureListFrame(sheets, init);
      EnsuredFrame(EnsureList(sheets, init), reqs[|reqs| - 1]);
      assert forall i :: 0 <= i < |init| ==> init[i] == reqs[i];
    }
  }

  /**
   * Rows below the header are never touched: every row of an existing
   * worksheet past row 1 is still there, in place.
   */
  lemma {:induction false} EnsureListKeepsData(sheets: map<string, Grid>, reqs: seq<Requirement>, n: string)
    requires n in sheets
    ensures var r := EnsureList(sheets, reqs);
      n in r && |r[n]| >= |sheets[n]| && forall i :: 1 <= i < |sheets[n]| ==> r[n][i] == sheets[n][i]
  {
    if reqs != [] {
      var init := reqs[..|reqs| - 1];
      var q := reqs[|reqs| - 1];
      EnsureListKeepsData(sheets, init, n);
      var mid := EnsureList(sheets, init);
      EnsuredFrame(mid, q);
      if q.name == n {
        HeadersFixedShape(mid[n], q.headers);
      }
    }
  }

  /**
   * The last requirement naming a worksheet decides its headers: row 1 of
   * that worksheet begins with them afterwards.
   */
  lemma {:induction false} EnsureListHeaders(sheets: map<string, Grid>, reqs: seq<Requirement>, k: nat)
    requires k < |reqs| && reqs[k].headers != []
    requires forall j :: k < j < |reqs| ==> reqs[j].name != reqs[k].name
    ensures var r := EnsureList(sheets, reqs);
      && reqs[k].name in r && |r[reqs[k].name]| >= 1
      && |r[reqs[k].name][0]| >= |reqs[k].headers|
      && r[reqs[k].name][0][..|reqs[k].headers|] == reqs[k].headers
  {
    var init := reqs[..|reqs| - 1];
    var q := reqs[|reqs| - 1];
    var mid := EnsureList(sheets, init);
    if k == |reqs| - 1 {
      HeadersFixedShape(EnsureSheet(mid, q.name)[q.name], q.headers);
    } else {
      assert init[k] == reqs[k];
      assert forall j :: k < j < |init| ==> init[j] == reqs[j];
      EnsureListHeaders(sheets, init, k);
      EnsuredFrame(mid, q);
    }
  }

  /** Ensuring two differently named worksheets can be done in either order. */
  lemma EnsuredCommute(sheets: map<string, Grid>, a: Requirement, b: Requirement)
    requires a.name != b.name
    ensures Ensured(Ensured(sheets, a), b) == Ensured(Ensured(sheets, b), a)
  {
    var l := Ensured(Ensured(sheets, a), b);
    var r := Ensured(Ensured(sheets, b), a);
    EnsuredAt(sheets, a);
    EnsuredAt(sheets, b);
    EnsuredAt(Ensured(sheets, a), b);
    EnsuredAt(Ensured(sheets, b), a);
    assert l.Keys == r.Keys;
    forall n | n in l
      ensures l[n] == r[n]
    {
    }
  }

  /** Ensuring one worksheet adds at most that name and touches no other worksheet. */
  lemma EnsuredAt(sheets: map<string, Grid>, q: Requirement)
    ensures var e := Ensured(sheets, q);
      && e.Keys == sheets.Keys + {q.name}
      && e[q.name] == HeadersFixed(if q.name in sheets then sheets[q.name] else [], q.headers)
      && forall n :: n in sheets && n != q.name ==> e[n] == sheets[n]
  {
  }

  /** Ensuring the same requirement twice is ensuring it once. */
  lemma EnsuredIdempotent(sheets: map<string, Grid>, q: Requirement)
    ensures Ensured(Ensured(sheets, q), q) == Ensured(sheets, q)
  {
    HeadersFixedIdempotent(EnsureSheet(sheets, q.name)[q.name], q.headers);
  }

  /** A requirement for a worksheet no requirement of `reqs` names commutes with all of `reqs`. */
  lemma {:induction false} EnsuredCommutesWithList(sheets: map<string, Grid>, reqs: seq<Requirement>, q: Requirement)
    requires forall i :: 0 <= i < |reqs| ==> reqs[i].name != q.name
    ensures EnsureList(Ensured(sheets, q), reqs) == Ensured(EnsureList(sheets, reqs), q)
  {
    if reqs != [] {
      var init := reqs[..|reqs| - 1];
      assert forall i :: 0 <= i < |init| ==> init[i] == reqs[i];
      EnsuredCommutesWithList(sheets, init, q);
      EnsuredCommute(EnsureList(sheets, init), q, reqs[|reqs| - 1]);
    }
  }

  /** No two requirements name the same worksheet. */
  predicate DistinctNames(reqs: seq<Requirement>) {
    forall i, j :: 0 <= i < j < |reqs| ==> reqs[i].name != reqs[j].name
  }

  /**
   * Running `ensure_base_structure` a second time with the same distinct
   * requirements leaves the worksheets as the first run left them.
   */
  lemma {:induction false} EnsureListIdempotent(sheets: map<string, Grid>, reqs: seq<Requirement>)
    requires DistinctNames(reqs)
    ensures EnsureList(EnsureList(sheets, reqs), reqs) == EnsureList(sheets, reqs)
  {
    if reqs != [] {
      var init := reqs[..|reqs| - 1];
      var q := reqs[|reqs| - 1];
      assert forall i :: 0 <= i < |init| ==> init[i] == reqs[i];
      var once := EnsureList(sheets, init);
      calc {
        EnsureList(EnsureList(sheets, reqs), reqs);
        Ensured(EnsureList(Ensured(once, q), init), q);
        { EnsuredCommutesWithList(once, init, q); }
        Ensured(Ensured(EnsureList(once, init), q), q);
        { EnsureListIdempotent(sheets, init); }
        Ensured(Ensured(once, q), q);
        { EnsuredIdempotent(once, q); }
        Ensured(once, q);
      }
    }
  }

  /** The base requirements have distinct names when no user sheet shares a base title or another user's. */
  lemma RequiredDistinct(userSheetNames: seq<string>)
    requires forall i :: 0 <= i < |userSheetNames| ==>
      userSheetNames[i] !in [UsersSheet, CommonSheet, CommonProgressSheet]
    requires forall i, j :: 0 <= i < j < |userSheetNames| ==> userSheetNames[i] != userSheetNames[j]
    ensures DistinctNames(Required(userSheetNames))
  {
    var r := Required(userSheetNames);
    forall i, j | 0 <= i < j < |r|
      ensures r[i].name != r[j].name
    {
      if j >= 3 {
        assert r[j].name == userSheetNames[j - 3];
        if i >= 3 {
          assert r[i].name == userSheetNames[i - 3];
        }
      }
    }
  }
}
