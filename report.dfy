/**
 * Building one region's report (`generar_reporte_region`): derived columns
 * FECHA, HOY, DIAS and CARTA ABANDONO, the projection onto the fixed output
 * columns, and the formatting of the written sheet.
 */
module Report {
  import opened Wrappers
  import opened Strings
  import opened Frames
  import opened Formatting

  /** Output column and the source column it copies, in output order. */
  const Mapping: seq<(string, string)> := [
    ("REGION", "REGION"),
    ("C DE COSTO", "CCOSER"),
    ("O. DE SERVICIO", "NUM_OS"),
    ("DIAS", "DIAS"),
    ("CARTA ABANDONO", "CARTA ABANDONO"),
    ("HOY", "HOY"),
    ("FECHA INGRESO", "FECHA"),
    ("NOMBRE", "CLIENTE"),
    ("CEDULA", "CEDULA"),
    ("OBSERVACION", "DETALLE_AC"),
    ("ARTICULO", "PRODUCTO"),
    ("ESTADO", "DETALLE"),
    ("SERIE", "SERIE"),
    ("FALLA", "CONCEPTO_E")
  ]

  const DateColumn: string := "FECHA"
  const TodayColumn: string := "HOY"
  const DetailColumn: string := "DETALLE_AC"
  const AbandonPhrase: string := "carta abandono"

  /** Reading a column the frame lacks raises a KeyError naming it. */
  datatype ReportError = MissingColumn(name: string)

  function OutputColumns(): (names: seq<string>)
    ensures |names| == |Mapping| && forall j :: 0 <= j < |Mapping| ==> names[j] == Mapping[j].0
  {
    seq(|Mapping|, j requires 0 <= j < |Mapping| => Mapping[j].0)
  }

  /**
   * `pd.to_datetime(value, errors='coerce')` as a day number: a date stays
   * itself, an empty cell stays empty, anything else goes to the parser
   * `toDay`, which is not part of this model.
   */
  function ParseDay(c: Cell, toDay: Cell -> Option<int>): Option<int> {
    match c
    case Null => None
    case Day(d) => Some(d)
    case _ => toDay(c)
  }

  function DateCell(day: Option<int>): Cell {
    match day
    case None => Null
    case Some(d) => Day(d)
  }

  /** DIAS: whole days from the ingestion date to today, or null without an ingestion date. */
  function DaysCell(ingested: Option<int>, today: int): (c: Cell)
    ensures ingested.None? <==> c == Null
    ensures ingested.Some? ==> c.Int? && ingested.value + c.n == today
  {
    match ingested
    case None => Null
    case Some(d) => Int(today - d)
  }

  /**
   * CARTA ABANDONO: "Si" when the lower-cased detail contains the phrase,
   * "No" otherwise; an empty detail counts as "" (so "No"), and a detail that
   * is not text gives NaN under `.str`, which stays null through the mapping.
   */
  function LetterCell(detail: Cell): (c: Cell)
    ensures detail.Null? ==> c == Text("No")
    ensures detail.Text? ==> c == Text("Si") || c == Text("No")
    ensures detail.Text? ==> (c == Text("Si") <==> exists i: nat :: OccursAt(Lower(detail.s), AbandonPhrase, i))
    ensures !detail.Null? && !detail.Text? ==> c == Null
  {
    match detail
    case Null => Text("No")
    case Text(s) => if Contains(Lower(s), AbandonPhrase) then Text("Si") else Text("No")
    case _ => Null
  }

  /** The phrase in any letter case marks the row "Si". */
  lemma LetterAnyCase(s: string, t: string)
    requires Contains(s, t) && Lower(t) == AbandonPhrase
    ensures LetterCell(Text(s)) == Text("Si")
  {
    ContainsLower(s, t);
  }

  /**
   * The fill a report row gets from its derived cells: orange when the detail
   * mentions the letter, otherwise the aging band of the elapsed days, and
   * nothing without an ingestion date.
   */
  lemma RowLight(detail: Cell, ingested: Option<int>, today: int)
    ensures Light(LetterCell(detail), DaysCell(ingested, today)) ==
      if LetterCell(detail) == Text("Si") then Some(Orange)
      else if ingested.Some? then Band(today - ingested.value)
      else None
  {
    FlagLight(LetterCell(detail), ingested, today);
  }

  lemma FlagLight(letter: Cell, ingested: Option<int>, today: int)
    requires letter == Text("Si") || letter == Text("No") || letter == Null
    ensures Light(letter, DaysCell(ingested, today)) ==
      if letter == Text("Si") then Some(Orange)
      else if ingested.Some? then Band(today - ingested.value)
      else None
  {
    if letter == Text("Si") {
      SaysSiOfSi();
    } else {
      if letter == Text("No") {
        SaysSiOfNo();
      } else {
        SaysSiOfNull();
      }
      QuietLight(letter, ingested, today);
    }
  }

  /** Without the letter, the light is the band of the elapsed days, or none without an ingestion date. */
  lemma QuietLight(letter: Cell, ingested: Option<int>, today: int)
    requires !SaysSi(letter)
    ensures Light(letter, DaysCell(ingested, today)) == if ingested.Some? then Band(today - ingested.value) else None
  {
    match ingested
    case None => UndatedLight(letter, today);
    case Some(d) => AgingLight(letter, d, today);
  }

  /** Without the letter, a dated row gets the band of its elapsed days. */
  lemma AgingLight(letter: Cell, ingested: int, today: int)
    requires !SaysSi(letter)
    ensures Light(letter, DaysCell(Some(ingested), today)) == Band(today - ingested)
  {
    LightWithoutLetter(letter, Int(today - ingested));
  }

  /** Without the letter, a row with no ingestion date gets no fill. */
  lemma UndatedLight(letter: Cell, today: int)
    requires !SaysSi(letter)
    ensures Light(letter, DaysCell(None, today)).None?
  {
    LightWithoutLetter(letter, Null);
  }

  lemma LightWithoutLetter(letter: Cell, days: Cell)
    requires !SaysSi(letter)
    ensures Light(letter, days) == if AsInt(days).Some? then Band(AsInt(days).value) else None
  {
  }

  /** The "Si" flag reads as "si"; "No" and an empty cell (`str(None)`) do not. */
  lemma SaysSiOfSi()
    ensures SaysSi(Text("Si"))
  {
    TrimKeeps("Si");
    LowerSi();
  }

  lemma LowerSi()
    ensures Lower("Si") == "si"
  {
    var l := Lower("Si");
    assert l[0] == 's';
  }

  lemma SaysSiOfNo()
    ensures !SaysSi(Text("No"))
  {
    NotSi("No");
  }

  lemma SaysSiOfNull()
    ensures !SaysSi(Null)
  {
    NotSi("None");
  }

  /** A text whose second letter is `o`, with no surrounding blanks, never reads as "si". */
  lemma NotSi(s: string)
    requires 2 <= |s| && !IsSpace(s[0]) && !IsSpace(s[|s| - 1]) && s[1] == 'o'
    ensures Lower(Trim(s)) != "si"
  {
    TrimKeeps(s);
    var l := Lower(s);
    assert l[1] == 'o';
  }

  /** The ingestion date of each row, as `to_datetime` reads the FECHA column. */
  function Ingested(f: Frame, toDay: Cell -> Option<int>): (days: seq<Option<int>>)
    requires WellFormed(f) && DateColumn in f.columns
    ensures |days| == |f.rows|
  {
    var column := Get(f, DateColumn).value;
    seq(|f.rows|, i requires 0 <= i < |f.rows| => ParseDay(column[i], toDay))
  }

  /** The dating step of `generar_reporte_region`: FECHA replaced by its parsed dates, then HOY and DIAS assigned. */
  function Dated(f: Frame, today: int, toDay: Cell -> Option<int>): (g: Frame)
    requires WellFormed(f) && DateColumn in f.columns
    ensures WellFormed(g) && |g.rows| == |f.rows|
  {
    var days := Ingested(f, toDay);
    var n := |f.rows|;
    var f1 := SetColumn(f, DateColumn, seq(n, i requires 0 <= i < n => DateCell(days[i])));
    var f2 := SetColumn(f1, TodayColumn, seq(n, i requires 0 <= i < n => Day(today)));
    SetColumn(f2, DaysHeader, seq(n, i requires 0 <= i < n => DaysCell(days[i], today)))
  }

  /** Dating the frame touches only FECHA, HOY and DIAS. */
  lemma DatedKeeps(f: Frame, today: int, toDay: Cell -> Option<int>, name: string)
    requires WellFormed(f) && DateColumn in f.columns
    requires name != DateColumn && name != TodayColumn && name != DaysHeader
    ensures Get(Dated(f, today, toDay), name) == Get(f, name)
  {
    var days := Ingested(f, toDay);
    var n := |f.rows|;
    var c1 := seq(n, i requires 0 <= i < n => DateCell(days[i]));
    var f1 := SetColumn(f, DateColumn, c1);
    var c2 := seq(n, i requires 0 <= i < n => Day(today));
    var f2 := SetColumn(f1, TodayColumn, c2);
    var c3 := seq(n, i requires 0 <= i < n => DaysCell(days[i], today));
    assert Dated(f, today, toDay) == SetColumn(f2, DaysHeader, c3);
    SetColumnOther(f, DateColumn, c1, name);
    SetColumnOther(f1, TodayColumn, c2, name);
    SetColumnOther(f2, DaysHeader, c3, name);
  }

  /** Row `i` of the dated frame: its parsed date, today, and the days between them. */
  lemma DatedCells(f: Frame, today: int, toDay: Cell -> Option<int>, i: nat)
    requires WellFormed(f) && DateColumn in f.columns && i < |f.rows|
    ensures var g := Dated(f, today, toDay);
      var day := ParseDay(CellOf(f, DateColumn, i), toDay);
      CellOf(g, DateColumn, i) == DateCell(day)
      && CellOf(g, TodayColumn, i) == Day(today)
      && CellOf(g, DaysHeader, i) == DaysCell(day, today)
  {
    var days := Ingested(f, toDay);
    var n := |f.rows|;
    var c1 := seq(n, i requires 0 <= i < n => DateCell(days[i]));
    var f1 := SetColumn(f, DateColumn, c1);
    var c2 := seq(n, i requires 0 <= i < n => Day(today));
    var f2 := SetColumn(f1, TodayColumn, c2);
    var c3 := seq(n, i requires 0 <= i < n => DaysCell(days[i], today));
    var g := SetColumn(f2, DaysHeader, c3);
    assert Dated(f, today, toDay) == g;
    SetColumnOther(f1, TodayColumn, c2, DateColumn);
    SetColumnOther(f2, DaysHeader, c3, DateColumn);
    SetColumnOther(f2, DaysHeader, c3, TodayColumn);
    assert Get(g, DateColumn) == Some(c1);
    assert Get(g, TodayColumn) == Some(c2);
    assert Get(g, DaysHeader) == Some(c3);
  }

  /** CARTA ABANDONO of each row, from the DETALLE_AC column. */
  function Letters(g: Frame): (letters: seq<Cell>)
    requires WellFormed(g) && DetailColumn in g.columns
    ensures |letters| == |g.rows|
  {
    var column := Get(g, DetailColumn).value;
    seq(|g.rows|, i requires 0 <= i < |g.rows| => LetterCell(column[i]))
  }

  /**
   * The derivation step of `generar_reporte_region`, on a copy of the frame: FECHA parsed to dates, HOY today,
   * DIAS and CARTA ABANDONO derived; a missing FECHA or DETALLE_AC column
   * raises, FECHA being read first.
   */
  function Derive(f: Frame, today: int, toDay: Cell -> Option<int>): (r: Result<Frame, ReportError>)
    requires WellFormed(f)
    ensures r.Failure? <==> DateColumn !in f.columns || DetailColumn !in f.columns
    ensures r.Failure? ==> r.error == MissingColumn(if DateColumn !in f.columns then DateColumn else DetailColumn)
    ensures r.Success? ==> WellFormed(r.value) && |r.value.rows| == |f.rows|
  {
    if DateColumn !in f.columns then Failure(MissingColumn(DateColumn))
    else
      var g := Dated(f, today, toDay);
      DatedKeeps(f, today, toDay, DetailColumn);
      if DetailColumn !in g.columns then Failure(MissingColumn(DetailColumn))
      else Success(SetColumn(g, LetterHeader, Letters(g)))
  }

  /** Deriving touches only FECHA, HOY, DIAS and CARTA ABANDONO. */
  lemma DerivedKeeps(f: Frame, today: int, toDay: Cell -> Option<int>, name: string)
    requires WellFormed(f) && DateColumn in f.columns && DetailColumn in f.columns
    requires name != DateColumn && name != TodayColumn && name != DaysHeader && name != LetterHeader
    ensures Get(Derive(f, today, toDay).value, name) == Get(f, name)
  {
    var g := Dated(f, today, toDay);
    DatedKeeps(f, today, toDay, DetailColumn);
    DatedKeeps(f, today, toDay, name);
    SetColumnOther(g, LetterHeader, Letters(g), name);
  }

  /** Row `i` after deriving: parsed date, today, elapsed days and the letter flag of its detail. */
  lemma DerivedCells(f: Frame, today: int, toDay: Cell -> Option<int>, i: nat)
    requires WellFormed(f) && DateColumn in f.columns && DetailColumn in f.columns && i < |f.rows|
    ensures var g := Derive(f, today, toDay).value;
      var day := ParseDay(CellOf(f, DateColumn, i), toDay);
      CellOf(g, DateColumn, i) == DateCell(day)
      && CellOf(g, TodayColumn, i) == Day(today)
      && CellOf(g, DaysHeader, i) == DaysCell(day, today)
      && CellOf(g, LetterHeader, i) == LetterCell(CellOf(f, DetailColumn, i))
  {
    var g := Dated(f, today, toDay);
    DatedKeeps(f, today, toDay, DetailColumn);
    DatedCells(f, today, toDay, i);
    var letters := Letters(g);
    var h := SetColumn(g, LetterHeader, letters);
    assert Derive(f, today, toDay).value == h;
    SetColumnOther(g, LetterHeader, letters, DateColumn);
    SetColumnOther(g, LetterHeader, letters, TodayColumn);
    SetColumnOther(g, LetterHeader, letters, DaysHeader);
    assert CellOf(g, DetailColumn, i) == CellOf(f, DetailColumn, i);
  }

  /** The cells of column `name`, or a column of nulls when the frame has none (`df.get`). */
  function SourceColumn(f: Frame, name: string): (column: seq<Cell>)
    requires WellFormed(f)
    ensures |column| == |f.rows|
  {
    match Get(f, name)
    case Some(column) => column
    case None => seq(|f.rows|, i => Null)
  }

  /** The frame the projection step of `generar_reporte_region` builds: the output columns in order, each a copy of its source column. */
  function Projected(f: Frame): (out: Frame)
    requires WellFormed(f)
    ensures out.columns == OutputColumns()
    ensures WellFormed(out) && |out.rows| == |f.rows|
  {
    Frame(OutputColumns(), seq(|f.rows|, i requires 0 <= i < |f.rows| =>
      seq(|Mapping|, j requires 0 <= j < |Mapping| => SourceColumn(f, Mapping[j].1)[i])))
  }

  /** The projection step of `generar_reporte_region`: the output frame is built one column at a time, in the mapping's order. */
  method Project(f: Frame) returns (out: Frame)
    requires WellFormed(f)
    ensures out == Projected(f)
  {
    var names: seq<string> := [];
    var data: seq<seq<Cell>> := [];
    for j := 0 to |Mapping|
      invariant |names| == j && |data| == j
      invariant forall k :: 0 <= k < j ==> names[k] == Mapping[k].0 && data[k] == SourceColumn(f, Mapping[k].1)
    {
      var (target, source) := Mapping[j];
      var column := match Get(f, source)
        case Some(cells) => cells
        case None => seq(|f.rows|, i => Null);
      names := names + [target];
      data := data + [column];
    }
    out := Frame(names, seq(|f.rows|, i requires 0 <= i < |f.rows| =>
      seq(|data|, k requires 0 <= k < |data| => data[k][i])));
    assert names == OutputColumns();
    forall i | 0 <= i < |f.rows|
      ensures out.rows[i] == Projected(f).rows[i]
    {
    }
  }

  /** The sheet `to_excel` writes: a header row of column names, then the rows, without an index column. */
  function Grid(out: Frame): (grid: seq<seq<Cell>>)
    requires WellFormed(out)
    ensures |grid| == |out.rows| + 1
    ensures forall i :: 0 <= i < |grid| ==> |grid[i]| == |out.columns|
    ensures forall j :: 0 <= j < |out.columns| ==> grid[0][j] == Text(out.columns[j])
    ensures grid[1..] == out.rows
  {
    [seq(|out.columns|, j requires 0 <= j < |out.columns| => Text(out.columns[j]))] + out.rows
  }

  /** No two output columns share a name. */
  lemma OutputColumnsDistinct()
    ensures forall a, b :: 0 <= a < b < |Mapping| ==> Mapping[a].0 != Mapping[b].0
    ensures forall j :: 0 <= j < |Mapping| ==> Mapping[j].0 != []
  {
  }

  /** Each output column, read back by its name, is a copy of its source column (nulls when that is absent). */
  lemma ProjectedColumn(f: Frame, j: nat)
    requires WellFormed(f) && j < |Mapping|
    ensures Get(Projected(f), Mapping[j].0) == Some(SourceColumn(f, Mapping[j].1))
  {
    OutputColumnsDistinct();
    var out := Projected(f);
    var name := Mapping[j].0;
    var k := IndexOf(out.columns, name).value;
    assert k == j;
    var source := SourceColumn(f, Mapping[j].1);
    var column := seq(|out.rows|, i requires 0 <= i < |out.rows| => out.rows[i][k]);
    assert Get(out, name) == Some(column);
    forall i | 0 <= i < |f.rows|
      ensures column[i] == source[i]
    {
      assert out.rows[i][j] == source[i];
    }
    assert column == source;
  }

  /** The header row `to_excel` writes for a report: the output column names, in order. */
  function HeaderRow(): (header: seq<Cell>)
    ensures |header| == |Mapping| && forall j :: 0 <= j < |Mapping| ==> header[j] == Text(Mapping[j].0)
  {
    seq(|Mapping|, j requires 0 <= j < |Mapping| => Text(Mapping[j].0))
  }

  /** The header scan over a report's header row finds DIAS in column 3 and CARTA ABANDONO in column 4, and nowhere else. */
  lemma ReportHeader()
    ensures HeaderIndex(HeaderRow(), DaysHeader) == Some(3)
    ensures HeaderIndex(HeaderRow(), LetterHeader) == Some(4)
  {
    OutputColumnsDistinct();
    var header := HeaderRow();
    assert header[3] == Text(DaysHeader) && header[4] == Text(LetterHeader);
    var d := HeaderIndex(header, DaysHeader).value;
    var l := HeaderIndex(header, LetterHeader).value;
    assert Mapping[d].0 == DaysHeader;
    assert Mapping[l].0 == LetterHeader;
  }

  /** Every column of a written report has a truthy header, so every column gets a width, at least its header's length plus two. */
  lemma ReportWidths(ws: Worksheet)
    requires ws.Valid() && ws.columns == |Mapping|
    requires ws.values[0] == HeaderRow()
    ensures FirstNone(ws.Fitted()) == ws.columns
    ensures forall j :: 0 <= j < ws.columns ==> ws.Fitted()[j].Some? && ws.Fitted()[j].value >= |Mapping[j].0| + 2
  {
    OutputColumnsDistinct();
    var fitted := ws.Fitted();
    forall j | 0 <= j < ws.columns
      ensures fitted[j].Some? && fitted[j].value >= |Mapping[j].0| + 2
    {
      ColumnWidthFitsHeader(ws.Column(j), Mapping[j].0);
    }
  }

  /** Data row `i + 1` of a report's grid holds, in column `j`, cell `i` of the column the mapping copies there. */
  lemma ProjectedCell(g: Frame, i: nat, j: nat, source: string)
    requires WellFormed(g) && i < |g.rows| && j < |Mapping| && Mapping[j].1 == source
    ensures Grid(Projected(g))[i + 1][j] == CellOf(g, source, i)
  {
    var out := Projected(g);
    assert Grid(out)[i + 1] == out.rows[i];
  }

  /**
   * Data row `i + 1` of the written sheet: DIAS, CARTA ABANDONO, HOY and
   * FECHA INGRESO hold the cells derived from input row `i`.
   */
  lemma ReportRowDerived(f: Frame, today: int, toDay: Cell -> Option<int>, i: nat)
    requires WellFormed(f) && DateColumn in f.columns && DetailColumn in f.columns && i < |f.rows|
    ensures var row := Grid(Projected(Derive(f, today, toDay).value))[i + 1];
      var day := ParseDay(CellOf(f, DateColumn, i), toDay);
      row[3] == DaysCell(day, today) && row[4] == LetterCell(CellOf(f, DetailColumn, i))
      && row[5] == Day(today) && row[6] == DateCell(day)
  {
    var g := Derive(f, today, toDay).value;
    DerivedCells(f, today, toDay, i);
    ProjectedLight(g, i);
    ProjectedDates(g, i);
  }

  /** DIAS and CARTA ABANDONO land in columns 3 and 4 of a report row. */
  lemma ProjectedLight(g: Frame, i: nat)
    requires WellFormed(g) && i < |g.rows|
    ensures Grid(Projected(g))[i + 1][3] == CellOf(g, DaysHeader, i)
    ensures Grid(Projected(g))[i + 1][4] == CellOf(g, LetterHeader, i)
  {
    ProjectedCell(g, i, 3, DaysHeader);
    ProjectedCell(g, i, 4, LetterHeader);
  }

  /** HOY and FECHA land in columns 5 and 6 of a report row. */
  lemma ProjectedDates(g: Frame, i: nat)
    requires WellFormed(g) && i < |g.rows|
    ensures Grid(Projected(g))[i + 1][5] == CellOf(g, TodayColumn, i)
    ensures Grid(Projected(g))[i + 1][6] == CellOf(g, DateColumn, i)
  {
    ProjectedCell(g, i, 5, TodayColumn);
    ProjectedCell(g, i, 6, DateColumn);
  }

  /** Every other column of data row `i + 1` copies cell `i` of its source column, null when the input lacks it. */
  lemma ReportRowCopied(f: Frame, today: int, toDay: Cell -> Option<int>, i: nat, j: nat)
    requires WellFormed(f) && DateColumn in f.columns && DetailColumn in f.columns && i < |f.rows|
    requires j < |Mapping| && !(3 <= j <= 6)
    ensures Grid(Projected(Derive(f, today, toDay).value))[i + 1][j] == CellOf(f, Mapping[j].1, i)
  {
    var g := Derive(f, today, toDay).value;
    ProjectedCell(g, i, j, Mapping[j].1);
    CopiedSource(j);
    DerivedKeeps(f, today, toDay, Mapping[j].1);
  }

  /** The columns copied as they are do not come from a derived column. */
  lemma CopiedSource(j: nat)
    requires j < |Mapping| && !(3 <= j <= 6)
    ensures Mapping[j].1 != DateColumn && Mapping[j].1 != TodayColumn
    ensures Mapping[j].1 != DaysHeader && Mapping[j].1 != LetterHeader
  {
    var source := Mapping[j].1;
    assert source[0] != 'H' || |source| > 3;
    assert source != DateColumn;
  }

  /** On a sheet with DIAS in column 3 and the letter in column 4, an unfilled cell ends with the light of its row on DIAS, and stays unfilled elsewhere. */
  lemma ReportFill(ws: Worksheet, i: nat, j: nat)
    requires ws.Valid() && i < |ws.values| && j < ws.columns
    requires HeaderIndex(ws.values[0], DaysHeader) == Some(3) && HeaderIndex(ws.values[0], LetterHeader) == Some(4)
    ensures ws.LitFill(i, j, None) == if 1 <= i && j == 3 then Light(ws.values[i][4], ws.values[i][3]) else None
  {
  }

  /** What the formatted sheet of a report holds: its grid, a width for every column, and the lights on DIAS. */
  ghost predicate Formatted(ws: Worksheet, out: Frame)
    requires WellFormed(out) && |out.columns| == |Mapping|
    reads ws.fills, ws.widths
  {
    ws.Valid() && ws.values == Grid(out) && ws.columns == |Mapping|
    && Widened(ws, out.columns) && Lit(ws)
  }

  /** Every column has the width its cells ask for, at least its header's length plus two. */
  ghost predicate Widened(ws: Worksheet, header: seq<string>)
    requires ws.Valid() && ws.columns == |header|
    reads ws.widths
  {
    forall j :: 0 <= j < ws.columns ==>
      ws.widths[j] == ColumnWidth(ws.Column(j)) && ws.widths[j].Some? && ws.widths[j].value >= |header[j]| + 2
  }

  /** Every data row's DIAS cell (column 3) carries the row's light, and no other cell is filled. */
  ghost predicate Lit(ws: Worksheet)
    requires ws.Valid() && ws.columns == |Mapping|
    reads ws.fills
  {
    forall i, j :: 0 <= i < |ws.values| && 0 <= j < ws.columns ==>
      ws.fills[i, j] == if 1 <= i && j == 3 then Light(ws.values[i][4], ws.values[i][3]) else None
  }

  /**
   * `generar_reporte_region` up to the bytes it returns: derive the columns,
   * project, write the sheet, fit the widths and apply the traffic light.
   */
  method GenerateReport(f: Frame, today: int, toDay: Cell -> Option<int>) returns (res: Result<Worksheet, ReportError>)
    requires WellFormed(f)
    ensures Derive(f, today, toDay).Failure? ==> res == Failure(Derive(f, today, toDay).error)
    ensures Derive(f, today, toDay).Success? ==>
      res.Success? && fresh(res.value.fills) && fresh(res.value.widths)
      && Formatted(res.value, Projected(Derive(f, today, toDay).value))
  {
    var derived := Derive(f, today, toDay);
    if derived.Failure? {
      return Failure(derived.error);
    }
    var out := Project(derived.value);
    var ws := WriteSheet(out);
    return Success(ws);
  }

  /** The writing and formatting steps of `generar_reporte_region`: the projected frame written to a sheet, its widths fitted and its DIAS column lit. */
  method WriteSheet(out: Frame) returns (ws: Worksheet)
    requires WellFormed(out) && out.columns == OutputColumns()
    ensures fresh(ws.fills) && fresh(ws.widths) && Formatted(ws, out)
  {
    ws := new Worksheet(Grid(out));
    assert ws.values[0] == HeaderRow();
    FitReport(ws);
    LightReport(ws);
  }

  /** The width pass of `generar_reporte_region` on a report sheet: every column gets its width. */
  method FitReport(ws: Worksheet)
    requires ws.Valid() && ws.columns == |Mapping|
    requires ws.values[0] == HeaderRow()
    modifies ws.widths
    ensures Widened(ws, OutputColumns())
  {
    ReportWidths(ws);
    var ok := ws.FitColumns();
  }

  /** The call to `aplicar_colores_semaforo` on a report sheet with no fills yet: the DIAS column gets the lights. */
  method LightReport(ws: Worksheet)
    requires ws.Valid() && ws.columns == |Mapping|
    requires ws.values[0] == HeaderRow()
    requires forall i, j :: 0 <= i < |ws.values| && 0 <= j < ws.columns ==> ws.fills[i, j] == None
    modifies ws.fills
    ensures Lit(ws)
  {
    ReportHeader();
    ws.ApplyTrafficLight();
    forall i, j | 0 <= i < |ws.values| && 0 <= j < ws.columns
      ensures ws.fills[i, j] == if 1 <= i && j == 3 then Light(ws.values[i][4], ws.values[i][3]) else None
    {
      ReportFill(ws, i, j);
    }
  }
}
