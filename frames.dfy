/**
 * Cell values and the data frame the transform works on: named columns over
 * positional rows, with pandas' column read (`df.get(name)`) and column
 * assignment (`df[name] = values`).
 */
module Frames {
  import opened Wrappers
  import opened Strings
  import Dates

  /** A cell value as pandas or the workbook library holds it; `Day` is a date as a day number. */
  datatype Cell = Null | Text(s: string) | Int(n: int) | Day(d: int)

  /** Python's `str(value)` of a worksheet cell value (`None` prints as "None"). */
  function Str(c: Cell): string {
    match c
    case Null => "None"
    case Text(s) => s
    case Int(n) => IntText(n)
    case Day(d) => Dates.TimestampText(d)
  }

  /** Python truthiness of a cell value. */
  predicate Truthy(c: Cell) {
    match c
    case Null => false
    case Text(s) => s != []
    case Int(n) => n != 0
    case Day(_) => true
  }

  /** A table: column names and rows of cells, row `i` holding one cell per column. */
  datatype Frame = Frame(columns: seq<string>, rows: seq<seq<Cell>>)

  predicate WellFormed(f: Frame) {
    forall i :: 0 <= i < |f.rows| ==> |f.rows[i]| == |f.columns|
  }

  /** Position of the first column called `name`. */
  function IndexOf(columns: seq<string>, name: string): (r: Option<nat>)
    ensures r.None? <==> name !in columns
    ensures r.Some? ==> r.value < |columns| && columns[r.value] == name && name !in columns[..r.value]
  {
    if columns == [] then None
    else if columns[0] == name then Some(0)
    else
      match IndexOf(columns[1..], name)
      case None => None
      case Some(k) =>
        assert columns[..k + 1] == [columns[0]] + columns[1..][..k];
        Some(k + 1)
  }

  /** `df.get(name)`: the cells of column `name`, or nothing when the frame has no such column. */
  function Get(f: Frame, name: string): (r: Option<seq<Cell>>)
    requires WellFormed(f)
    ensures r.None? <==> name !in f.columns
    ensures r.Some? ==> |r.value| == |f.rows|
  {
    match IndexOf(f.columns, name)
    case None => None
    case Some(k) => Some(seq(|f.rows|, i requires 0 <= i < |f.rows| => f.rows[i][k]))
  }

  /** Cell `i` of column `name`, null when the column does not exist. */
  function CellOf(f: Frame, name: string, i: nat): Cell
    requires WellFormed(f) && i < |f.rows|
  {
    match Get(f, name)
    case None => Null
    case Some(column) => column[i]
  }

  /**
   * `df[name] = values`: overwrites the column in place when it exists,
   * appends it as the last column otherwise.
   */
  function SetColumn(f: Frame, name: string, values: seq<Cell>): (g: Frame)
    requires WellFormed(f) && |values| == |f.rows|
    ensures WellFormed(g) && |g.rows| == |f.rows|
    ensures name in f.columns ==> g.columns == f.columns
    ensures name !in f.columns ==> g.columns == f.columns + [name]
    ensures Get(g, name) == Some(values)
  {
    match IndexOf(f.columns, name)
    case Some(k) =>
      var g := Frame(f.columns, seq(|f.rows|, i requires 0 <= i < |f.rows| => f.rows[i][k := values[i]]));
      assert Get(g, name).value == values;
      g
    case None =>
      var g := Frame(f.columns + [name], seq(|f.rows|, i requires 0 <= i < |f.rows| => f.rows[i] + [values[i]]));
      assert IndexOf(g.columns, name) == Some(|f.columns|) by {
        assert g.columns[..|f.columns|] == f.columns;
      }
      assert Get(g, name).value == values;
      g
  }

  /** Assigning a column leaves every other column's cells as they were. */
  lemma SetColumnOther(f: Frame, name: string, values: seq<Cell>, other: string)
    requires WellFormed(f) && |values| == |f.rows| && other != name
    ensures Get(SetColumn(f, name, values), other) == Get(f, other)
  {
    if other !in f.columns {
      assert other !in SetColumn(f, name, values).columns;
    } else if name in f.columns {
      SetColumnOtherReplaced(f, name, values, other);
    } else {
      SetColumnOtherAppended(f, name, values, other);
    }
  }

  lemma SetColumnOtherReplaced(f: Frame, name: string, values: seq<Cell>, other: string)
    requires WellFormed(f) && |values| == |f.rows| && other != name
    requires name in f.columns && other in f.columns
    ensures Get(SetColumn(f, name, values), other) == Get(f, other)
  {
    var g := SetColumn(f, name, values);
    var k := IndexOf(f.columns, other).value;
    var j := IndexOf(f.columns, name).value;
    assert IndexOf(g.columns, other) == Some(k);
    forall i | 0 <= i < |f.rows| ensures g.rows[i][k] == f.rows[i][k] {
      assert g.rows[i] == f.rows[i][j := values[i]];
    }
    assert Get(g, other).value == Get(f, other).value;
  }

  lemma SetColumnOtherAppended(f: Frame, name: string, values: seq<Cell>, other: string)
    requires WellFormed(f) && |values| == |f.rows| && other != name
    requires name !in f.columns && other in f.columns
    ensures Get(SetColumn(f, name, values), other) == Get(f, other)
  {
    var g := SetColumn(f, name, values);
    var k := IndexOf(f.columns, other).value;
    assert g.columns[..k] == f.columns[..k];
    assert IndexOf(g.columns, other) == Some(k);
    forall i | 0 <= i < |f.rows| ensures g.rows[i][k] == f.rows[i][k] {
      assert g.rows[i] == f.rows[i] + [values[i]];
    }
    assert Get(g, other).value == Get(f, other).value;
  }

  /** Assigning a column leaves every cell under a differently named column where it was. */
  lemma SetColumnCell(f: Frame, name: string, values: seq<Cell>, i: nat, j: nat)
    requires WellFormed(f) && |values| == |f.rows| && i < |f.rows| && j < |f.columns| && f.columns[j] != name
    ensures j < |SetColumn(f, name, values).rows[i]|
    ensures SetColumn(f, name, values).rows[i][j] == f.rows[i][j]
  {
    var g := SetColumn(f, name, values);
    match IndexOf(f.columns, name)
    case Some(k) =>
      assert g.rows[i] == f.rows[i][k := values[i]];
    case None =>
      assert g.rows[i] == f.rows[i] + [values[i]];
  }

  /** Writing a column's own cells back into it changes nothing. */
  lemma SetColumnSame(f: Frame, name: string)
    requires WellFormed(f) && name in f.columns
    ensures SetColumn(f, name, Get(f, name).value) == f
  {
    var k := IndexOf(f.columns, name).value;
    var g := SetColumn(f, name, Get(f, name).value);
    forall i | 0 <= i < |f.rows| ensures g.rows[i] == f.rows[i] {
      assert g.rows[i] == f.rows[i][k := f.rows[i][k]];
    }
  }

  /** `df[mask]`: the rows the mask accepts, in their original order. */
  function Select(rows: seq<seq<Cell>>, keep: seq<Cell> -> bool): (kept: seq<seq<Cell>>)
    ensures |kept| <= |rows|
    ensures forall i :: 0 <= i < |kept| ==> kept[i] in rows && keep(kept[i])
    ensures forall row :: row in rows && keep(row) ==> row in kept
  {
    if rows == [] then []
    else
      var rest := Select(rows[1..], keep);
      assert forall row :: row in rows ==> row == rows[0] || row in rows[1..];
      (if keep(rows[0]) then [rows[0]] else []) + rest
  }

  /** Selecting from a concatenation selects from each part: the order of the rows is kept. */
  lemma {:induction false} SelectAppend(a: seq<seq<Cell>>, b: seq<seq<Cell>>, keep: seq<Cell> -> bool)
    ensures Select(a + b, keep) == Select(a, keep) + Select(b, keep)
  {
    if a == [] {
      assert a + b == b;
    } else {
      assert (a + b)[0] == a[0] && (a + b)[1..] == a[1..] + b;
      SelectAppend(a[1..], b, keep);
    }
  }

  /** Rows the mask accepts throughout are selected unchanged. */
  lemma {:induction false} SelectAll(rows: seq<seq<Cell>>, keep: seq<Cell> -> bool)
    requires forall i :: 0 <= i < |rows| ==> keep(rows[i])
    ensures Select(rows, keep) == rows
  {
    if rows != [] {
      var rest := rows[1..];
      assert forall i :: 0 <= i < |rest| ==> rest[i] == rows[i + 1];
      SelectAll(rest, keep);
      SelectCons(rows, keep);
    }
  }

  lemma SelectCons(rows: seq<seq<Cell>>, keep: seq<Cell> -> bool)
    requires rows != [] && keep(rows[0])
    ensures Select(rows, keep) == [rows[0]] + Select(rows[1..], keep)
  {
  }
}
