/**
 * The spreadsheet mirror: worksheets by title, each a list of rows of cell
 * texts as `get_all_values` returns them. The functions below are the
 * worksheet calls the mirror uses; rows and columns are 1-based as in the
 * spreadsheet, and rows may be of different lengths.
 */
module Sheets {
  import opened Wrappers

  type Row = seq<string>
  type Grid = seq<Row>

  /** A row padded with empty cells to at least `n` cells. */
  function PadTo(row: Row, n: nat): (r: Row)
    ensures |r| == if |row| < n then n else |row|
    ensures forall c :: 0 <= c < |row| ==> r[c] == row[c]
    ensures forall c :: |row| <= c < |r| ==> r[c] == ""
    decreases n - |row|
  {
    if |row| >= n then row else PadTo(row + [""], n)
  }

  /** The row after writing `vals` into its first cells (`update("A<r>", [vals])`). */
  function Overlay(row: Row, vals: Row): (r: Row)
    ensures |r| == if |row| < |vals| then |vals| else |row|
    ensures r[..|vals|] == vals
    ensures forall c :: |vals| <= c < |row| ==> r[c] == row[c]
  {
    if |row| <= |vals| then vals else vals + row[|vals|..]
  }

  /** The row after writing cell `c`; the row is padded first when it is shorter. */
  function PutCell(row: Row, c: nat, v: string): Row
    requires c >= 1
  {
    PadTo(row, c)[c - 1 := v]
  }

  /** `update_cell(r, c, v)` */
  function SetCell(g: Grid, r: nat, c: nat, v: string): Grid
    requires 1 <= r <= |g| && c >= 1
  {
    g[r - 1 := PutCell(g[r - 1], c, v)]
  }

  /** `update("A<r>", [vals])`: row r's first cells become `vals`; row |g|+1 is a new row. */
  function WriteRow(g: Grid, r: nat, vals: Row): Grid
    requires 1 <= r <= |g| + 1
  {
    if r == |g| + 1 then g + [vals] else g[r - 1 := Overlay(g[r - 1], vals)]
  }

  /** `append_row(row)` */
  function AppendRow(g: Grid, row: Row): Grid {
    g + [row]
  }

  /** `delete_rows(r)` */
  function DeleteRow(g: Grid, r: nat): Grid
    requires 1 <= r <= |g|
  {
    g[..r - 1] + g[r..]
  }

  /** A row without its trailing empty cells, as the API returns it. */
  function TrimTrailingEmpty(row: Row): (r: Row)
    ensures |r| <= |row| && r == row[..|r|]
    ensures r == [] || r[|r| - 1] != ""
    ensures forall c :: |r| <= c < |row| ==> row[c] == ""
  {
    if row == [] || row[|row| - 1] != "" then row else TrimTrailingEmpty(row[..|row| - 1])
  }

  /** `row_values(r)` */
  function RowValues(g: Grid, r: nat): Row
    requires r >= 1
  {
    if r <= |g| then TrimTrailingEmpty(g[r - 1]) else []
  }

  /** The first cell of a row, or "" when the row is empty. */
  function FirstCell(row: Row): string {
    if |row| >= 1 then row[0] else ""
  }

  /** The worksheets of one spreadsheet, by title. */
  class Spreadsheet {
    var sheets: map<string, Grid>

    constructor(sheets: map<string, Grid>)
      ensures this.sheets == sheets
    {
      this.sheets := sheets;
    }

    /** `add_worksheet(title=name, ...)`: a new, empty worksheet. */
    method AddWorksheet(name: string)
      requires name !in sheets
      modifies this
      ensures sheets == old(sheets)[name := []]
    {
      sheets := sheets[name := []];
    }

    /** `get_all_values()` */
    method GetAllValues(name: string) returns (g: Grid)
      requires name in sheets
      ensures g == sheets[name]
    {
      g := sheets[name];
    }

    /** `row_values(r)` */
    method GetRowValues(name: string, r: nat) returns (row: Row)
      requires name in sheets && r >= 1
      ensures row == RowValues(sheets[name], r)
    {
      row := RowValues(sheets[name], r);
    }

    method Append(name: string, row: Row)
      requires name in sheets
      modifies this
      ensures sheets == old(sheets)[name := AppendRow(old(sheets)[name], row)]
    {
      sheets := sheets[name := AppendRow(sheets[name], row)];
    }

    method UpdateCell(name: string, r: nat, c: nat, v: string)
      requires name in sheets && 1 <= r <= |sheets[name]| && c >= 1
      modifies this
      ensures sheets == old(sheets)[name := SetCell(old(sheets)[name], r, c, v)]
    {
      sheets := sheets[name := SetCell(sheets[name], r, c, v)];
    }

    method Update(name: string, r: nat, vals: Row)
      requires name in sheets && 1 <= r <= |sheets[name]| + 1
      modifies this
      ensures sheets == old(sheets)[name := WriteRow(old(sheets)[name], r, vals)]
    {
      sheets := sheets[name := WriteRow(sheets[name], r, vals)];
    }

    method DeleteRows(name: string, r: nat)
      requires name in sheets && 1 <= r <= |sheets[name]|
      modifies this
      ensures sheets == old(sheets)[name := DeleteRow(old(sheets)[name], r)]
    {
      sheets := sheets[name := DeleteRow(sheets[name], r)];
    }
  }

  // ----- properties -----

  /** Writing the same values twice over a row is writing them once. */
  lemma OverlayIdempotent(row: Row, vals: Row)
    ensures Overlay(Overlay(row, vals), vals) == Overlay(row, vals)
  {
  }

  /** Writing one cell sets that cell and keeps every other cell, padding with empty ones. */
  lemma PutCellOnly(row: Row, c: nat, v: string)
    requires c >= 1
    ensures var r := PutCell(row, c, v);
      && |r| == (if |row| < c then c else |row|)
      && r[c - 1] == v
      && (forall j :: 0 <= j < |r| && j != c - 1 ==> r[j] == (if j < |row| then row[j] else ""))
  {
  }

  /** `update_cell` changes one row only, and in it only the one cell. */
  lemma SetCellOnly(g: Grid, r: nat, c: nat, v: string)
    requires 1 <= r <= |g| && c >= 1
    ensures var g' := SetCell(g, r, c, v);
      && |g'| == |g|
      && (forall i :: 0 <= i < |g| && i != r - 1 ==> g'[i] == g[i])
      && g'[r - 1] == PutCell(g[r - 1], c, v)
  {
  }
}
