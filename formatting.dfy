/**
 * The formatting pass over a written report sheet: column widths fitted to
 * their content, and the traffic-light fill on the DIAS column
 * (`aplicar_colores_semaforo`).
 */
module Formatting {
  import opened Wrappers
  import opened Strings
  import opened Frames

  const DaysHeader: string := "DIAS"
  const LetterHeader: string := "CARTA ABANDONO"

  /** The five solid fills of the traffic light; `Rgb` gives each one's colour code. */
  datatype Color = Orange | Green | Yellow | Red | Gray

  /** The RGB code of each fill (its start and end colour are the same). */
  function Rgb(c: Color): string {
    match c
    case Orange => "F4B084"
    case Green => "00BB2D"
    case Yellow => "BFFF00"
    case Red => "FF0000"
    case Gray => "D9D9D9"
  }

  /** The five fills are five different colours, so every band is told apart on the sheet. */
  lemma RgbDistinct(c1: Color, c2: Color)
    requires c1 != c2
    ensures Rgb(c1) != Rgb(c2)
  {
  }

  /** Position of an aging band in the order of increasing age. */
  function Severity(c: Color): nat {
    match c
    case Orange => 0
    case Green => 1
    case Yellow => 2
    case Red => 3
    case Gray => 4
  }

  /** The aging band of a whole number of elapsed days; none for zero or negative days. */
  function Band(days: int): (c: Option<Color>)
    ensures c.None? <==> days <= 0
    ensures c == Some(Green) <==> 1 <= days <= 10
    ensures c == Some(Yellow) <==> 11 <= days <= 20
    ensures c == Some(Red) <==> 21 <= days <= 31
    ensures c == Some(Gray) <==> 32 <= days
  {
    if 1 <= days <= 10 then Some(Green)
    else if 11 <= days <= 20 then Some(Yellow)
    else if 21 <= days <= 31 then Some(Red)
    else if days >= 32 then Some(Gray)
    else None
  }

  /** More elapsed days never give a less severe band, and the bands never give the override colour. */
  lemma BandMonotone(d1: int, d2: int)
    requires 1 <= d1 <= d2
    ensures Band(d1).Some? && Band(d2).Some?
    ensures Severity(Band(d1).value) <= Severity(Band(d2).value)
    ensures Band(d2) != Some(Orange)
  {
  }

  /** Python's `int(value)` of a cell; a value it rejects (TypeError or ValueError) gives none. */
  function AsInt(c: Cell): Option<int> {
    match c
    case Int(n) => Some(n)
    case Text(s) => ParseInt(s)
    case Null => None
    case Day(_) => None
  }

  /** `str(value).strip().lower() == "si"`. */
  predicate SaysSi(c: Cell) {
    Lower(Trim(Str(c))) == "si"
  }

  /**
   * The fill one data row asks for on its DIAS cell, first match wins: orange
   * when the letter cell says "si", else the band of the days value, else
   * nothing (the cell keeps whatever fill it had).
   */
  function Light(letter: Cell, days: Cell): (c: Option<Color>)
    ensures c == Some(Orange) <==> SaysSi(letter)
    ensures c.None? <==> !SaysSi(letter) && (AsInt(days).None? || AsInt(days).value <= 0)
    ensures c == Some(Green) <==> !SaysSi(letter) && AsInt(days).Some? && 1 <= AsInt(days).value <= 10
    ensures c == Some(Yellow) <==> !SaysSi(letter) && AsInt(days).Some? && 11 <= AsInt(days).value <= 20
    ensures c == Some(Red) <==> !SaysSi(letter) && AsInt(days).Some? && 21 <= AsInt(days).value <= 31
    ensures c == Some(Gray) <==> !SaysSi(letter) && AsInt(days).Some? && 32 <= AsInt(days).value
  {
    if SaysSi(letter) then Some(Orange)
    else
      match AsInt(days)
      case None => None
      case Some(d) => Band(d)
  }

  /** Assigning `light` when there is one, otherwise leaving `current`. */
  function Paint(current: Option<Color>, light: Option<Color>): Option<Color> {
    if light.Some? then light else current
  }

  /**
   * The column the header scan settles on for `name`: every matching header
   * cell overwrites the previous one, so the last match.
   */
  function HeaderIndex(header: seq<Cell>, name: string): (r: Option<nat>)
    ensures r.None? <==> forall k :: 0 <= k < |header| ==> header[k] != Text(name)
    ensures r.Some? ==> (r.value < |header| && header[r.value] == Text(name)
      && forall k :: r.value < k < |header| ==> header[k] != Text(name))
  {
    if header == [] then None
    else if header[|header| - 1] == Text(name) then Some(|header| - 1)
    else
      var r := HeaderIndex(header[..|header| - 1], name);
      assert forall k :: 0 <= k < |header| - 1 ==> header[..|header| - 1][k] == header[k];
      r
  }

  /** Length of the longest text among the truthy cells; none when no cell is truthy. */
  function Widest(column: seq<Cell>): (r: Option<nat>)
    ensures r.None? <==> forall i :: 0 <= i < |column| ==> !Truthy(column[i])
    ensures r.Some? ==> forall i :: 0 <= i < |column| && Truthy(column[i]) ==> |Str(column[i])| <= r.value
    ensures r.Some? ==> exists i :: 0 <= i < |column| && Truthy(column[i]) && |Str(column[i])| == r.value
  {
    if column == [] then None
    else
      var rest := Widest(column[1..]);
      assert forall i :: 1 <= i < |column| ==> column[1..][i - 1] == column[i];
      var here := |Str(column[0])|;
      if !Truthy(column[0]) then rest
      else if rest.None? || rest.value < here then Some(here)
      else
        var j :| 0 <= j < |column[1..]| && Truthy(column[1..][j]) && |Str(column[1..][j])| == rest.value;
        assert column[j + 1] == column[1..][j];
        rest
  }

  /** `max(len(str(v)) for v in column if v) + 2`; none where `max` of nothing raises. */
  function ColumnWidth(column: seq<Cell>): Option<int> {
    match Widest(column)
    case None => None
    case Some(w) => Some(w + 2)
  }

  /** A column whose header holds a non-empty name gets a width, at least the name's length plus two. */
  lemma ColumnWidthFitsHeader(column: seq<Cell>, name: string)
    requires |column| >= 1 && column[0] == Text(name) && name != []
    ensures ColumnWidth(column).Some?
    ensures ColumnWidth(column).value >= |name| + 2
  {
    assert Truthy(column[0]);
  }

  /** The number of leading entries that are present: where a pass that stops at the first absent one stops. */
  function FirstNone<T>(s: seq<Option<T>>): (b: nat)
    ensures b <= |s| && (forall j :: 0 <= j < b ==> s[j].Some?) && (b < |s| ==> s[b].None?)
  {
    if s == [] || s[0].None? then 0 else 1 + FirstNone(s[1..])
  }

  /**
   * A written sheet: its cell values (row 0 is the header row), one fill per
   * cell and one width per column; formatting changes only fills and widths.
   */
  class Worksheet {
    const values: seq<seq<Cell>>
    const columns: nat
    const fills: array2<Option<Color>>
    const widths: array<Option<int>>

    ghost predicate Valid() {
      |values| >= 1
      && (forall i :: 0 <= i < |values| ==> |values[i]| == columns)
      && fills.Length0 == |values| && fills.Length1 == columns
      && widths.Length == columns
    }

    /** A freshly written sheet: the grid's values, no fills, default widths. */
    constructor (grid: seq<seq<Cell>>)
      requires |grid| >= 1 && forall i :: 0 <= i < |grid| ==> |grid[i]| == |grid[0]|
      ensures Valid() && values == grid && fresh(fills) && fresh(widths)
      ensures forall i, j :: 0 <= i < fills.Length0 && 0 <= j < fills.Length1 ==> fills[i, j] == None
      ensures forall j :: 0 <= j < widths.Length ==> widths[j] == None
    {
      values := grid;
      columns := |grid[0]|;
      fills := new Option<Color>[|grid|, |grid[0]|]((i, j) => None);
      widths := new Option<int>[|grid[0]|](j => None);
    }

    /** The cells of column `j`, header first. */
    function Column(j: nat): (column: seq<Cell>)
      requires Valid() && j < columns
      ensures |column| == |values| && forall i :: 0 <= i < |values| ==> column[i] == values[i][j]
    {
      seq(|values|, i requires 0 <= i < |values| => values[i][j])
    }

    /** The width each column should get, from its own cells. */
    function Fitted(): (ws: seq<Option<int>>)
      requires Valid()
    {
      seq(columns, j requires 0 <= j < columns => ColumnWidth(Column(j)))
    }

    /**
     * The width pass of `generar_reporte_region`: each column in turn gets the width of its widest truthy
     * cell plus two; a column with no truthy cell makes `max` raise, which
     * stops the pass there (`ok` is false).
     */
    method FitColumns() returns (ok: bool)
      requires Valid()
      modifies widths
      ensures ok <==> FirstNone(Fitted()) == columns
      ensures forall j :: 0 <= j < columns ==>
        widths[j] == if j < FirstNone(Fitted()) then Fitted()[j] else old(widths[j])
    {
      ok := WriteWidths(Fitted());
    }

    /** The width loop of `generar_reporte_region`, given the width each column asks for. */
    method WriteWidths(targets: seq<Option<int>>) returns (ok: bool)
      requires Valid() && |targets| == columns
      modifies widths
      ensures ok <==> FirstNone(targets) == columns
      ensures forall j :: 0 <= j < columns ==>
        widths[j] == if j < FirstNone(targets) then targets[j] else old(widths[j])
    {
      var j := 0;
      while j < columns
        invariant j <= FirstNone(targets)
        invariant forall k :: 0 <= k < columns ==> widths[k] == if k < j then targets[k] else old(widths[k])
      {
        if targets[j].None? {
          return false;
        }
        widths[j] := targets[j];
        j := j + 1;
      }
      return true;
    }

    /** The header scan of `aplicar_colores_semaforo`: one pass over the header row, remembering the last DIAS and CARTA ABANDONO columns. */
    method LocateColumns() returns (days: Option<nat>, letter: Option<nat>)
      requires Valid()
      ensures days == HeaderIndex(values[0], DaysHeader)
      ensures letter == HeaderIndex(values[0], LetterHeader)
    {
      var header := values[0];
      days, letter := None, None;
      for j := 0 to |header|
        invariant days == HeaderIndex(header[..j], DaysHeader)
        invariant letter == HeaderIndex(header[..j], LetterHeader)
      {
        assert header[..j + 1][..j] == header[..j];
        if header[j] == Text(DaysHeader) {
          days := Some(j);
        }
        if header[j] == Text(LetterHeader) {
          letter := Some(j);
        }
      }
      assert header[..|header|] == header;
    }

    /** The fill cell (i, j) has after the colouring pass, given its fill before. */
    function LitFill(i: nat, j: nat, before: Option<Color>): Option<Color>
      requires Valid() && i < |values| && j < columns
    {
      var days := HeaderIndex(values[0], DaysHeader);
      var letter := HeaderIndex(values[0], LetterHeader);
      if days.Some? && letter.Some? && 1 <= i && j == days.value
      then Paint(before, Light(values[i][letter.value], values[i][days.value]))
      else before
    }

    /**
     * `aplicar_colores_semaforo`: gives up, changing nothing, unless both
     * headers are found; then, for data rows 2..max_row, sets the DIAS cell's
     * fill to the row's light, leaving it alone when the row asks for none.
     */
    method ApplyTrafficLight()
      requires Valid()
      modifies fills
      ensures HeaderIndex(values[0], DaysHeader).None? || HeaderIndex(values[0], LetterHeader).None? ==> unchanged(fills)
      ensures forall i, j :: 0 <= i < |values| && 0 <= j < columns ==> fills[i, j] == LitFill(i, j, old(fills[i, j]))
    {
      var days, letter := LocateColumns();
      if days.None? || letter.None? {
        return;
      }
      var d, l := days.value, letter.value;
      var lights := seq(|values|, i requires 0 <= i < |values| => Light(values[i][l], values[i][d]));
      PaintColumn(d, lights);
    }

    /** The row loop of `aplicar_colores_semaforo` for DIAS column `d`, given the light each row asks for. */
    method PaintColumn(d: nat, lights: seq<Option<Color>>)
      requires Valid() && d < columns && |lights| == |values|
      modifies fills
      ensures forall i, j :: 0 <= i < |values| && 0 <= j < columns ==>
        fills[i, j] == if 1 <= i && j == d then Paint(old(fills[i, j]), lights[i]) else old(fills[i, j])
    {
      for i := 1 to |values|
        invariant forall r, j :: 0 <= r < i && 0 <= j < columns ==>
          fills[r, j] == if 1 <= r && j == d then Paint(old(fills[r, j]), lights[r]) else old(fills[r, j])
        invariant forall r, j :: i <= r < |values| && 0 <= j < columns ==> fills[r, j] == old(fills[r, j])
      {
        if lights[i].Some? {
          fills[i, d] := lights[i];
        }
      }
    }
  }
}
