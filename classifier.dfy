/**
 * Loading and filtering the ticket export (`cargar_y_filtrar_datos`): column
 * names are normalised, CCOSER and ESTADONOMB must exist, every row gets the
 * region of its trimmed cost-center code, and only pending rows are kept.
 */
module Classifier {
  import opened Wrappers
  import opened Strings
  import opened Frames
  import opened Regions

  const CodeColumn: string := "CCOSER"
  const StatusColumn: string := "ESTADONOMB"
  const RegionColumn: string := "REGION"
  const PendingStatus: string := "PENDIENTE"

  /** The error raised when a required column is missing; its message names both columns, whichever is absent. */
  datatype SchemaError = MissingRequiredColumns

  /** `.str.strip().str.upper()` on a column name. */
  function NormalizeName(name: string): string {
    Upper(Trim(name))
  }

  lemma NormalizeNameIdempotent(name: string)
    ensures NormalizeName(NormalizeName(name)) == NormalizeName(name)
  {
    UpperOfTrimmed(Trim(name));
  }

  function Normalize(f: Frame): (g: Frame)
    ensures g.rows == f.rows && |g.columns| == |f.columns|
    ensures forall j :: 0 <= j < |f.columns| ==> g.columns[j] == NormalizeName(f.columns[j])
  {
    f.(columns := seq(|f.columns|, j requires 0 <= j < |f.columns| => NormalizeName(f.columns[j])))
  }

  /** `.astype(str).str.strip()` on a cost-center cell; an empty cell reads as NaN, whose text is "nan". */
  function CodeText(c: Cell): string {
    Trim(if c.Null? then "nan" else Str(c))
  }

  /** The REGION cell for an assignment: the region's name, or null. */
  function RegionCell(r: Option<Region>): Cell {
    match r
    case None => Null
    case Some(region) => Text(Name(region))
  }

  /** `.str.strip().str.upper() == 'PENDIENTE'`; a cell that is not text gives NaN, which is not equal. */
  predicate IsPending(c: Cell) {
    c.Text? && Upper(Trim(c.s)) == PendingStatus
  }

  predicate KeptRow(row: seq<Cell>, k: nat) {
    k < |row| && IsPending(row[k])
  }

  /** The rows whose status cell (position `k`) is pending, in their original order. */
  function KeepPending(rows: seq<seq<Cell>>, k: nat): (kept: seq<seq<Cell>>)
    ensures |kept| <= |rows|
    ensures forall i :: 0 <= i < |kept| ==> kept[i] in rows && KeptRow(kept[i], k)
    ensures forall row :: row in rows && KeptRow(row, k) ==> row in kept
  {
    Select(rows, row => KeptRow(row, k))
  }

  /** Filtering a concatenation filters each part: the filter keeps the original order. */
  lemma KeepPendingAppend(a: seq<seq<Cell>>, b: seq<seq<Cell>>, k: nat)
    ensures KeepPending(a + b, k) == KeepPending(a, k) + KeepPending(b, k)
  {
    SelectAppend(a, b, row => KeptRow(row, k));
  }

  /** Rows that are all pending pass the filter unchanged. */
  lemma KeepPendingAll(rows: seq<seq<Cell>>, k: nat)
    requires forall i :: 0 <= i < |rows| ==> KeptRow(rows[i], k)
    ensures KeepPending(rows, k) == rows
  {
    SelectAll(rows, row => KeptRow(row, k));
  }

  /** Filtering the filter's own output changes nothing. */
  lemma KeepPendingIdempotent(rows: seq<seq<Cell>>, k: nat)
    ensures KeepPending(KeepPending(rows, k), k) == KeepPending(rows, k)
  {
    KeepPendingAll(KeepPending(rows, k), k);
  }

  function TrimmedCodes(column: seq<Cell>): (codes: seq<string>)
    ensures |codes| == |column|
  {
    seq(|column|, i requires 0 <= i < |column| => CodeText(column[i]))
  }

  function TextCells(texts: seq<string>): (cells: seq<Cell>)
    ensures |cells| == |texts|
  {
    seq(|texts|, i requires 0 <= i < |texts| => Text(texts[i]))
  }

  function RegionCells(regions: seq<Option<Region>>): (cells: seq<Cell>)
    ensures |cells| == |regions|
  {
    seq(|regions|, i requires 0 <= i < |regions| => RegionCell(regions[i]))
  }

  function RegionsOf(codes: seq<string>): (regions: seq<Option<Region>>)
    ensures |regions| == |codes|
  {
    seq(|codes|, i requires 0 <= i < |codes| => RegionOf(codes[i]))
  }

  /** The labelling step of `cargar_y_filtrar_datos` on a normalised frame: CCOSER becomes trimmed text and REGION the region of that text. */
  function Labelled(f: Frame): (g: Frame)
    requires WellFormed(f) && CodeColumn in f.columns
    ensures WellFormed(g) && |g.rows| == |f.rows|
    ensures g.columns == if RegionColumn in f.columns then f.columns else f.columns + [RegionColumn]
  {
    var codes := TrimmedCodes(Get(f, CodeColumn).value);
    var f1 := SetColumn(f, CodeColumn, TextCells(codes));
    SetColumn(f1, RegionColumn, RegionCells(RegionsOf(codes)))
  }

  /** The export has both required columns once its column names are normalised. */
  predicate Loadable(raw: Frame) {
    CodeColumn in Normalize(raw).columns && StatusColumn in Normalize(raw).columns
  }

  /** The whole operation minus reading the workbook: the pending, region-labelled rows, or the schema error. */
  function Classify(raw: Frame): (r: Result<Frame, SchemaError>)
    requires WellFormed(raw)
    ensures r.Failure? <==> !Loadable(raw)
    ensures r.Success? ==> WellFormed(r.value)
    ensures r.Success? ==>
      r.value.columns == if RegionColumn in Normalize(raw).columns then Normalize(raw).columns else Normalize(raw).columns + [RegionColumn]
  {
    var f := Normalize(raw);
    if CodeColumn !in f.columns || StatusColumn !in f.columns then Failure(MissingRequiredColumns)
    else
      var g := Labelled(f);
      Success(g.(rows := KeepPending(g.rows, IndexOf(g.columns, StatusColumn).value)))
  }

  /** Row `i` of the export, once labelled, is in the result exactly when its status is pending. */
  lemma ClassifyKeepsPending(raw: Frame, i: nat)
    requires WellFormed(raw) && Loadable(raw) && i < |raw.rows|
    ensures Labelled(Normalize(raw)).rows[i] in Classify(raw).value.rows
      <==> IsPending(CellOf(Normalize(raw), StatusColumn, i))
  {
    var f := Normalize(raw);
    var g := Labelled(f);
    var si := IndexOf(g.columns, StatusColumn).value;
    assert Classify(raw).value.rows == KeepPending(g.rows, si);
    LabelledStatus(f, i);
    PendingIn(g.rows, si, i);
  }

  /** Labelling row `i` of the export changes only its CCOSER and REGION cells. */
  lemma ClassifyKeepsCells(raw: Frame, i: nat)
    requires WellFormed(raw) && Loadable(raw) && i < |raw.rows|
    ensures forall j ::
      0 <= j < |raw.columns| && NormalizeName(raw.columns[j]) != CodeColumn && NormalizeName(raw.columns[j]) != RegionColumn
      ==> Labelled(Normalize(raw)).rows[i][j] == raw.rows[i][j]
  {
    LabelledRow(Normalize(raw), i);
  }

  /** A row is kept by the filter exactly when its own status cell is pending. */
  lemma PendingIn(rows: seq<seq<Cell>>, k: nat, i: nat)
    requires i < |rows| && k < |rows[i]|
    ensures rows[i] in KeepPending(rows, k) <==> IsPending(rows[i][k])
  {
    if rows[i] in KeepPending(rows, k) {
      var kept := KeepPending(rows, k);
      var m :| 0 <= m < |kept| && kept[m] == rows[i];
      assert KeptRow(kept[m], k);
    }
  }

  /** Labelling leaves the status column alone. */
  lemma LabelledStatus(f: Frame, i: nat)
    requires WellFormed(f) && CodeColumn in f.columns && StatusColumn in f.columns && i < |f.rows|
    ensures var g := Labelled(f);
      var si := IndexOf(g.columns, StatusColumn).value;
      si < |g.rows[i]| && g.rows[i][si] == CellOf(f, StatusColumn, i)
  {
    var codes := TrimmedCodes(Get(f, CodeColumn).value);
    var f1 := SetColumn(f, CodeColumn, TextCells(codes));
    var cells := RegionCells(RegionsOf(codes));
    var g := SetColumn(f1, RegionColumn, cells);
    assert g == Labelled(f);
    SetColumnOther(f, CodeColumn, TextCells(codes), StatusColumn);
    SetColumnOther(f1, RegionColumn, cells, StatusColumn);
    var si := IndexOf(g.columns, StatusColumn).value;
    assert g.rows[i][si] == Get(g, StatusColumn).value[i];
  }

  /** A labelled row: its code cell is trimmed text and its region cell is the region of that code. */
  predicate RowLabelled(row: seq<Cell>, ci: nat, ri: nat) {
    ci < |row| && ri < |row| && row[ci].Text? && Trim(row[ci].s) == row[ci].s
    && row[ri] == RegionCell(RegionOf(row[ci].s))
  }

  /** Row `i` of the labelled frame is labelled, and its code is the trimmed text of the original cell. */
  lemma LabelledRow(f: Frame, i: nat)
    requires WellFormed(f) && CodeColumn in f.columns && i < |f.rows|
    ensures var g := Labelled(f);
      var ci := IndexOf(g.columns, CodeColumn).value;
      var ri := IndexOf(g.columns, RegionColumn).value;
      RowLabelled(g.rows[i], ci, ri) && g.rows[i][ci] == Text(CodeText(Get(f, CodeColumn).value[i]))
    ensures forall j :: 0 <= j < |f.columns| && f.columns[j] != CodeColumn && f.columns[j] != RegionColumn ==>
      Labelled(f).rows[i][j] == f.rows[i][j]
  {
    var codes := TrimmedCodes(Get(f, CodeColumn).value);
    var f1 := SetColumn(f, CodeColumn, TextCells(codes));
    var cells := RegionCells(RegionsOf(codes));
    var g := SetColumn(f1, RegionColumn, cells);
    assert g == Labelled(f);
    SetColumnOther(f1, RegionColumn, cells, CodeColumn);
    var ci := IndexOf(g.columns, CodeColumn).value;
    var ri := IndexOf(g.columns, RegionColumn).value;
    assert g.rows[i][ci] == Get(g, CodeColumn).value[i] == TextCells(codes)[i];
    assert g.rows[i][ri] == Get(g, RegionColumn).value[i] == cells[i];
    TrimIdempotent(CodeText(Get(f, CodeColumn).value[i]));
    forall j | 0 <= j < |f.columns| && f.columns[j] != CodeColumn && f.columns[j] != RegionColumn
      ensures g.rows[i][j] == f.rows[i][j]
    {
      SetColumnCell(f, CodeColumn, TextCells(codes), i, j);
      SetColumnCell(f1, RegionColumn, cells, i, j);
    }
  }

  lemma LabelledRows(f: Frame)
    requires WellFormed(f) && CodeColumn in f.columns
    ensures var g := Labelled(f);
      var ci := IndexOf(g.columns, CodeColumn).value;
      var ri := IndexOf(g.columns, RegionColumn).value;
      forall i :: 0 <= i < |g.rows| ==> RowLabelled(g.rows[i], ci, ri)
  {
    forall i | 0 <= i < |f.rows| {
      LabelledRow(f, i);
    }
  }

  /**
   * What classification guarantees of every row it returns: the status is
   * pending, CCOSER holds trimmed text, and REGION is the region of that code.
   */
  lemma ClassifiedRows(raw: Frame)
    requires WellFormed(raw) && Loadable(raw)
    ensures var out := Classify(raw).value;
      var ci := IndexOf(out.columns, CodeColumn);
      var ri := IndexOf(out.columns, RegionColumn);
      var si := IndexOf(out.columns, StatusColumn);
      ci.Some? && ri.Some? && si.Some?
      && forall i :: 0 <= i < |out.rows| ==> RowLabelled(out.rows[i], ci.value, ri.value) && KeptRow(out.rows[i], si.value)
  {
    var f := Normalize(raw);
    var g := Labelled(f);
    var si := IndexOf(g.columns, StatusColumn).value;
    assert Classify(raw) == Success(g.(rows := KeepPending(g.rows, si)));
    PendingLabelled(f);
  }

  /** Labelling then filtering a normalised frame, as `cargar_y_filtrar_datos` does: every row that survives the filter is labelled and pending. */
  lemma PendingLabelled(f: Frame)
    requires WellFormed(f) && CodeColumn in f.columns && StatusColumn in f.columns
    ensures var g := Labelled(f);
      var ci := IndexOf(g.columns, CodeColumn);
      var ri := IndexOf(g.columns, RegionColumn);
      var si := IndexOf(g.columns, StatusColumn);
      ci.Some? && ri.Some? && si.Some?
      && var kept := KeepPending(g.rows, si.value);
      forall i :: 0 <= i < |kept| ==> RowLabelled(kept[i], ci.value, ri.value) && KeptRow(kept[i], si.value)
  {
    var g := Labelled(f);
    LabelledRows(f);
    var ci := IndexOf(g.columns, CodeColumn).value;
    var ri := IndexOf(g.columns, RegionColumn).value;
    var si := IndexOf(g.columns, StatusColumn).value;
    KeepPendingKeeps(g.rows, si, ci, ri);
  }

  /** The filter only drops rows, so every row it keeps is labelled when every input row is. */
  lemma KeepPendingKeeps(rows: seq<seq<Cell>>, k: nat, ci: nat, ri: nat)
    requires forall i :: 0 <= i < |rows| ==> RowLabelled(rows[i], ci, ri)
    ensures var kept := KeepPending(rows, k);
      forall i :: 0 <= i < |kept| ==> RowLabelled(kept[i], ci, ri) && KeptRow(kept[i], k)
  {
    var kept := KeepPending(rows, k);
    forall i | 0 <= i < |kept| ensures RowLabelled(kept[i], ci, ri) {
      var j :| 0 <= j < |rows| && rows[j] == kept[i];
    }
  }

  /**
   * In a labelled row with code `code`, REGION is region `r` exactly when `r`'s
   * list holds `code`, and null exactly when no list does.
   */
  lemma LabelledRegion(row: seq<Cell>, ci: nat, ri: nat, r: Region)
    requires RowLabelled(row, ci, ri)
    ensures row[ri] == Text(Name(r)) <==> row[ci].s in Codes(r)
    ensures row[ri] == Null <==> forall q: Region :: row[ci].s !in Codes(q)
  {
    var code := row[ci].s;
    RegionOfExact(code, r);
    match RegionOf(code)
    case None =>
    case Some(q) =>
      RegionOfExact(code, q);
      NamedName(q);
      NamedName(r);
  }

  /** The same, read through the column names of the frame classification returns. */
  lemma ClassifiedRegion(raw: Frame, i: nat, r: Region)
    requires WellFormed(raw) && Loadable(raw) && i < |Classify(raw).value.rows|
    ensures var out := Classify(raw).value;
      var code := CellOf(out, CodeColumn, i);
      var region := CellOf(out, RegionColumn, i);
      code.Text?
      && (region == Text(Name(r)) <==> code.s in Codes(r))
      && (region == Null <==> forall q: Region :: code.s !in Codes(q))
  {
    var out := Classify(raw).value;
    ClassifiedRows(raw);
    var ci := IndexOf(out.columns, CodeColumn).value;
    var ri := IndexOf(out.columns, RegionColumn).value;
    assert CellOf(out, CodeColumn, i) == Get(out, CodeColumn).value[i] == out.rows[i][ci];
    assert CellOf(out, RegionColumn, i) == Get(out, RegionColumn).value[i] == out.rows[i][ri];
    LabelledRegion(out.rows[i], ci, ri, r);
  }

  /** The columns of a normalised frame are their own normal form. */
  predicate NormalColumns(f: Frame) {
    forall j :: 0 <= j < |f.columns| ==> NormalizeName(f.columns[j]) == f.columns[j]
  }

  /** The labelled frame's column names are already normal: normalising them again changes nothing. */
  lemma NormalizeIsNormal(raw: Frame)
    ensures NormalColumns(Normalize(raw))
  {
    var f := Normalize(raw);
    forall j | 0 <= j < |f.columns| ensures NormalizeName(f.columns[j]) == f.columns[j] {
      NormalizeNameIdempotent(raw.columns[j]);
    }
  }

  lemma LabelledKeepsNormal(f: Frame)
    requires WellFormed(f) && CodeColumn in f.columns && NormalColumns(f)
    ensures NormalColumns(Labelled(f))
  {
    var g := Labelled(f);
    RegionColumnNormal();
    forall j | 0 <= j < |g.columns| ensures NormalizeName(g.columns[j]) == g.columns[j] {
      if j < |f.columns| {
        assert g.columns[j] == f.columns[j];
      }
    }
  }

  lemma RegionColumnNormal()
    ensures NormalizeName(RegionColumn) == RegionColumn
  {
    TrimKeeps(RegionColumn);
    assert Upper(RegionColumn) == RegionColumn;
  }

  /** Labelling a frame whose rows are all labelled rewrites CCOSER and REGION with what they hold. */
  lemma LabelledFixpoint(f: Frame)
    requires WellFormed(f) && CodeColumn in f.columns && RegionColumn in f.columns
    requires forall i :: 0 <= i < |f.rows| ==>
      RowLabelled(f.rows[i], IndexOf(f.columns, CodeColumn).value, IndexOf(f.columns, RegionColumn).value)
    ensures Labelled(f) == f
  {
    var ci := IndexOf(f.columns, CodeColumn).value;
    var ri := IndexOf(f.columns, RegionColumn).value;
    var codes := TrimmedCodes(Get(f, CodeColumn).value);
    forall i | 0 <= i < |f.rows| ensures codes[i] == f.rows[i][ci].s {
      assert Get(f, CodeColumn).value[i] == f.rows[i][ci];
    }
    assert TextCells(codes) == Get(f, CodeColumn).value;
    SetColumnSame(f, CodeColumn);
    forall i | 0 <= i < |f.rows| ensures RegionCells(RegionsOf(codes))[i] == Get(f, RegionColumn).value[i] {
      assert Get(f, RegionColumn).value[i] == f.rows[i][ri];
    }
    assert RegionCells(RegionsOf(codes)) == Get(f, RegionColumn).value;
    SetColumnSame(f, RegionColumn);
  }

  lemma NormalizeNormal(f: Frame)
    requires NormalColumns(f)
    ensures Normalize(f) == f
  {
  }

  /** Running the operation on its own output returns that output unchanged. */
  lemma ClassifyIdempotent(raw: Frame)
    requires WellFormed(raw) && Loadable(raw)
    ensures Classify(Classify(raw).value) == Classify(raw)
  {
    var f := Normalize(raw);
    var g := Labelled(f);
    var si := IndexOf(g.columns, StatusColumn).value;
    var out := g.(rows := KeepPending(g.rows, si));
    assert Classify(raw) == Success(out);
    ClassifiedRows(raw);
    NormalizeIsNormal(raw);
    LabelledKeepsNormal(f);
    NormalizeNormal(out);
    LabelledFixpoint(out);
    KeepPendingAll(out.rows, si);
    assert Classify(out) == Success(out.(rows := KeepPending(out.rows, si)));
  }

  /**
   * `df_informe['REGION'] = None` followed by the loop over the table: for each
   * region in declaration order, every row whose code is in its list is
   * overwritten with that region.
   */
  method AssignRegions(codes: seq<string>) returns (regions: seq<Option<Region>>)
    ensures regions == RegionsOf(codes)
  {
    var column := new Option<Region>[|codes|](_ => None);
    for k := 0 to |Declared|
      invariant forall i :: 0 <= i < |codes| ==> column[i] == Scan(Declared[..k], codes[i])
    {
      assert Declared[..k + 1][..k] == Declared[..k];
      MarkRegion(column, codes, Declared[k]);
    }
    assert Declared[..|Declared|] == Declared;
    regions := column[..];
  }

  /** One pass of the region loop in `cargar_y_filtrar_datos`: every row whose code is in the region's list gets the region; the others keep theirs. */
  method MarkRegion(column: array<Option<Region>>, codes: seq<string>, region: Region)
    requires column.Length == |codes|
    modifies column
    ensures forall i :: 0 <= i < |codes| ==>
      column[i] == if codes[i] in Codes(region) then Some(region) else old(column[i])
  {
    for i := 0 to |codes|
      invariant forall j :: 0 <= j < i ==>
        column[j] == if codes[j] in Codes(region) then Some(region) else old(column[j])
      invariant forall j :: i <= j < |codes| ==> column[j] == old(column[j])
    {
      if codes[i] in Codes(region) {
        column[i] := Some(region);
      }
    }
  }

  /** `cargar_y_filtrar_datos` after the workbook has been read into `raw`. */
  method ClassifyAndFilter(raw: Frame) returns (res: Result<Frame, SchemaError>)
    requires WellFormed(raw)
    ensures res == Classify(raw)
  {
    var f := Normalize(raw);
    if CodeColumn !in f.columns || StatusColumn !in f.columns {
      return Failure(MissingRequiredColumns);
    }
    var codes := TrimmedCodes(Get(f, CodeColumn).value);
    var labelled := SetColumn(f, CodeColumn, TextCells(codes));
    var regions := AssignRegions(codes);
    labelled := SetColumn(labelled, RegionColumn, RegionCells(regions));
    var status := IndexOf(labelled.columns, StatusColumn).value;
    res := Success(labelled.(rows := KeepPending(labelled.rows, status)));
  }
}
