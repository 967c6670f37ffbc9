# Pending-ticket region reports, modelled in Dafny

This project models the processing core of `logic.py`, a batch transform over a
service-ticket export. The core does three things:

- **Load and filter** (`cargar_y_filtrar_datos`). It normalises the column names
  (trimmed, upper case) and requires the columns CCOSER and ESTADONOMB. It turns
  every cost-center code into trimmed text and labels each row with the region
  whose code list holds that code, or with nothing. It then keeps only the rows
  whose status reads `PENDIENTE`.
- **Build a region report** (`generar_reporte_region`). It parses FECHA into a
  date and stamps HOY with today. It derives DIAS, the number of days from the
  ingestion date to today. It derives CARTA ABANDONO, which is "Si" when the
  detail is text that mentions "carta abandono" in any letter case, "No" when
  it is text without the phrase or empty, and null when it is a non-text value
  (a number, say), which `.str` turns into NaN. The
  frame is then projected onto the fourteen output columns of the fixed
  mapping, and a column the input lacks becomes nulls.
- **Format the written sheet.** Each column gets the width of its widest truthy
  cell plus two. The traffic light (`aplicar_colores_semaforo`) fills each data
  row's DIAS cell:
  - orange when the letter cell reads "si";
  - otherwise green for 1-10 days, yellow for 11-20, red for 21-31 and gray
    from 32;
  - otherwise the cell is left alone.

Files and modules:

- `wrappers.dfy` (`Wrappers`): Option and Result.
- `strings.dfy` (`Strings`): ASCII trim and case mapping, substring search, and
  integer text and parsing.
- `dates.dfy` (`Dates`): day numbers and the text of a midnight timestamp.
- `frames.dfy` (`Frames`):
  - cells;
  - a data frame as named columns over positional rows;
  - `df.get`, column assignment and row selection.
- `regions.dfy` (`Regions`): the region table.
- `classifier.dfy` (`Classifier`): load and filter.
- `formatting.dfy` (`Formatting`): bands and lights, plus a `Worksheet` class
  whose fills (a 2-D array) and widths (an array) the formatting methods update
  in place.
- `report.dfy` (`Report`): derivation, projection, and the whole report as one
  method.

Two inputs are parameters instead of ambient calls:

- `today` stands for the current date.
- `toDay` stands for the date parser applied to FECHA cells.

Dates are day numbers.

## Model

| member | source | states |
|---|---|---|
| Regions.NamedName | logic.py:11-20 | Every region's label reads back as that region, so no two regions share a label |
| Regions.CodesDisjoint | logic.py:11-20 | No code is listed under two different regions |
| Regions.ScanExact | logic.py:130-131 | For any visiting order, the loop assigns region r exactly when r was visited and its list holds the code |
| Regions.ScanOrderIndependent | logic.py:130-131 | Two visiting orders over the same regions assign the same region, so the table's order does not matter |
| Regions.RegionOfExact | logic.py:130-131 | A code is assigned region r exactly when r's list holds the code, by whole-string equality; it gets no region exactly when no list holds it |
| Strings.TrimSlice | logic.py:127 | Stripping removes a run of leading and a run of trailing whitespace and keeps the contiguous middle of the text unchanged |
| Strings.TrimIdempotent | logic.py:127 | Stripping already-stripped text changes nothing |
| Strings.UpperOfTrimmed | logic.py:122 | Upper-casing stripped text leaves it stripped, and upper-casing twice equals once |
| Strings.CaseFold | logic.py:122 | Lower-casing an upper-cased text equals lower-casing the text, and the same the other way round, so the case of the input never matters after a case mapping |
| Strings.Contains | logic.py:91 | The substring test is true exactly when the phrase occurs at some position |
| Strings.ContainsLower | logic.py:91 | An occurrence of t in s gives an occurrence of lower(t) in lower(s) |
| Strings.IntTextRoundTrip | logic.py:73 | `int(str(n)) == n` for every integer, negative ones included |
| Frames.IndexOf | logic.py:96 | The first position of the name, or none exactly when the name is absent |
| Frames.Get | logic.py:96 | `df.get` gives nothing exactly when the column is missing, and otherwise one cell per row |
| Frames.SetColumn | logic.py:88-91 | Assignment overwrites an existing column or appends a new one, and reading the column back gives the assigned cells |
| Frames.SetColumnOther | logic.py:88-91 | Assigning one column leaves every other column's cells unchanged |
| Frames.SetColumnCell | logic.py:127-128 | Assigning one column leaves every cell of every other column in place, row by row and position by position |
| Frames.SetColumnSame | logic.py:127 | Writing a column's own cells back changes nothing |
| Frames.Select | logic.py:133 | A boolean mask keeps only accepted rows, keeps every accepted row, and never adds rows |
| Frames.SelectAppend | logic.py:133 | Masking a concatenation masks each part, so the row order is kept |
| Classifier.NormalizeNameIdempotent | logic.py:122 | Normalising a normalised column name changes nothing |
| Classifier.NormalizeIsNormal | logic.py:122 | After normalisation every column name is already stripped and upper case, so normalising again changes no name |
| Classifier.KeepPending | logic.py:133 | The filtered rows are exactly the input rows whose status strips and upper-cases to PENDIENTE |
| Classifier.KeepPendingAppend | logic.py:133 | The filter keeps the original order of the rows |
| Classifier.KeepPendingIdempotent | logic.py:133 | Filtering the filter's output changes nothing |
| Classifier.Classify | logic.py:119-134 | Fails exactly when CCOSER or ESTADONOMB is missing after name normalisation. Otherwise it returns a well-formed frame whose columns are the normalised ones, with REGION appended when it was not already there |
| Classifier.LabelledRow | logic.py:127-131 | In each labelled row, CCOSER holds the trimmed text of the original code and REGION the region of that code; every other cell of the row is unchanged |
| Classifier.ClassifyKeepsCells | logic.py:122-131 | Apart from CCOSER and REGION, each labelled row keeps the input row's cells under their normalised names |
| Classifier.ClassifyKeepsPending | logic.py:127-133 | A labelled input row is in the output exactly when its status reads PENDIENTE after strip and upper |
| Classifier.ClassifiedRows | logic.py:127-133 | Every returned row is pending, its CCOSER is trimmed text, and its REGION is the region of that code |
| Classifier.ClassifiedRegion | logic.py:128-131 | In every returned row, REGION names r exactly when r's list holds the row's code, and is null exactly when no list does |
| Classifier.ClassifyIdempotent | logic.py:119-134 | Running the operation on its own output returns that output unchanged |
| Classifier.AssignRegions | logic.py:128-131 | The loop (all rows start at None; later regions overwrite earlier ones) gives each row the region of its code |
| Classifier.MarkRegion | logic.py:131 | One pass over the rows sets the region on every row whose code is in the region's list, and leaves the others as they were |
| Classifier.ClassifyAndFilter | logic.py:121-134 | The step-by-step operation equals the specification `Classify`, error case included |
| Formatting.Band | logic.py:74-77 | Each colour is given exactly on its range of days, and zero or negative days give no colour |
| Formatting.BandMonotone | logic.py:74-77 | More elapsed days never give a less severe band |
| Formatting.Light | logic.py:68-79 | Orange exactly when the letter cell reads "si". Green exactly when it does not and `int(days)` is 1-10; yellow exactly for 11-20, red for 21-31 and gray from 32. No light exactly when the cell does not read "si" and `int` fails or the days are zero or negative |
| Formatting.RgbDistinct | logic.py:40-44 | The five fills carry five different colour codes |
| Formatting.HeaderIndex | logic.py:54-58 | The last header cell equal to the name, or none exactly when no header cell equals it |
| Formatting.Widest | logic.py:108 | The longest text among the truthy cells, attained by one of them, or none exactly when no cell is truthy |
| Formatting.ColumnWidthFitsHeader | logic.py:107-109 | A column with a non-empty header always gets a width of at least the header's length plus two |
| Formatting.FirstNone | logic.py:107-109 | The entries before the stopping point are all present, and the one at it is absent |
| Formatting.Worksheet.constructor | logic.py:99-105 | A freshly written sheet holds the grid, with no fills and default widths |
| Formatting.Worksheet.FitColumns | logic.py:107-109 | Columns get their widths in order up to the first with no truthy cell, where `max` raises. Later columns are untouched; `ok` holds exactly when every column got one |
| Formatting.Worksheet.WriteWidths | logic.py:107-109 | The width loop writes the targets in order and stops at the first missing one |
| Formatting.Worksheet.LocateColumns | logic.py:54-58 | The header pass finds the last DIAS column and the last CARTA ABANDONO column |
| Formatting.Worksheet.ApplyTrafficLight | logic.py:49-79 | Nothing changes unless both headers are found. Otherwise each data row's DIAS cell gets its light or keeps its fill, and all other cells are untouched |
| Formatting.Worksheet.PaintColumn | logic.py:64-79 | Rows 2..max_row of the DIAS column get their light when there is one; every other cell keeps its fill |
| Report.DaysCell | logic.py:90 | DIAS is null exactly when there is no ingestion date. Otherwise ingestion date plus DIAS equals today |
| Report.LetterCell | logic.py:91 | A text detail gives "Si" exactly when its lower-cased text contains "carta abandono", otherwise "No"; an empty detail gives "No" and a non-text one null |
| Report.LetterAnyCase | logic.py:91 | The phrase written in any letter case marks the row "Si" |
| Report.RowLight | logic.py:68-77 | A report row's light from its derived cells: orange when the detail mentions the letter, otherwise the band of the elapsed days, and nothing without a date |
| Report.QuietLight | logic.py:72-79 | Without the letter, the light is the band of the elapsed days, or nothing without an ingestion date |
| Report.AgingLight | logic.py:73-77 | Without the letter, a dated row gets the band of today minus its ingestion date |
| Report.UndatedLight | logic.py:78-79 | Without the letter, an undated row's null DIAS makes `int` fail, so the row gets no fill |
| Report.SaysSiOfSi | logic.py:68 | The derived "Si" flag reads as "si" once stripped and lower-cased |
| Report.SaysSiOfNo | logic.py:68 | The derived "No" flag does not read as "si" |
| Report.SaysSiOfNull | logic.py:68 | An empty letter cell (`str(None)`) does not read as "si" |
| Report.Derive | logic.py:87-91 | Fails exactly when FECHA or DETALLE_AC is missing, naming FECHA first since it is read first. Otherwise keeps the row count |
| Report.DatedCells | logic.py:88-90 | Row i after dating holds the parse of its own FECHA cell, today in HOY, and in DIAS the days from that date to today, or null without a date |
| Report.DatedKeeps | logic.py:88-90 | Dating the frame touches only FECHA, HOY and DIAS |
| Report.DerivedKeeps | logic.py:87-91 | Deriving touches only FECHA, HOY, DIAS and CARTA ABANDONO; every other column is unchanged |
| Report.DerivedCells | logic.py:88-91 | Row i after deriving holds its parsed date, today, the elapsed days and the letter flag of its own detail |
| Report.OutputColumnsDistinct | logic.py:22-37 | The fourteen output names are distinct and non-empty |
| Report.Project | logic.py:94-96 | Building the output one column at a time in mapping order gives the specification frame `Projected` |
| Report.ProjectedColumn | logic.py:94-96 | Each output column, read back by name, copies its source column, or is nulls when the source is missing |
| Report.Grid | logic.py:100 | The written sheet has a header row with the column names, then frame row i as sheet row i+1, with no index column |
| Dates.TimestampShape | logic.py:108 | The text of a date cell is 19 characters: a four-digit year, month and day, dash-separated, then " 00:00:00" |
| Report.ReportHeader | logic.py:54-58 | Over the header row of a report sheet (the fourteen output names) the header scan finds DIAS in column 3 and CARTA ABANDONO in column 4 |
| Report.ReportWidths | logic.py:107-109 | Every report column has a truthy header, so the width pass never stops early, and each width is at least its header's length plus two |
| Report.ReportRowDerived | logic.py:88-96 | Sheet row i+1 holds DIAS, CARTA ABANDONO, HOY and FECHA INGRESO derived from input row i |
| Report.ReportRowCopied | logic.py:94-96 | Every other column of sheet row i+1 is cell i of its source column in the input |
| Report.ReportFill | logic.py:64-79 | On an unfilled report sheet, a cell ends up with its row's light on DIAS data cells and with no fill elsewhere |
| Report.GenerateReport | logic.py:81-111 | Fails with `Derive`'s error. Otherwise returns a fresh sheet holding the projected grid, with every column's fitted width and the lights on DIAS |
| Report.WriteSheet | logic.py:99-111 | The projected frame is written, its widths are fitted, and its DIAS column is lit |
| Report.FitReport | logic.py:107-109 | Every column of a report sheet gets the width its cells ask for |
| Report.LightReport | logic.py:111 | On a report sheet with no fills, exactly the DIAS data cells get their lights |

## Left out

- Reading the uploaded workbook (`pd.read_excel`) is not modelled. The classifier starts from the frame that was read.
- Writing the workbook to bytes and reopening it (`to_excel`, `load_workbook`, `save`, `BytesIO`) is not modelled. The sheet is built directly from the frame; `Grid` gives what `to_excel` writes.
- `datetime.now()` and `pd.to_datetime(..., errors='coerce')` are not modelled. They become the parameters `today` and `toDay`; `toDay` is applied only to cells that are neither empty nor already dates.
- pandas dtype promotion is not modelled. This covers ints becoming floats next to missing values, NaN versus None, and `astype(str)` texts such as "10201.0". Cells are `Null`, `Text`, `Int` or `Day`.
- Strings.ParseInt: models `int()` of decimal text with an optional sign and surrounding whitespace. Underscore separators, non-ASCII digits and `int()` of floats are not modelled.
- Strip, upper and lower are ASCII-only. Unicode whitespace and case mapping are not modelled.
- The warning printed when the sheet lacks DIAS or CARTA ABANDONO is not modelled. The model keeps only its effect, which is that nothing changes.
- Duplicate column names are not modelled faithfully. Frames read the first column with a name, while the header scan keeps the last, as the code does. pandas' behaviour with duplicated labels is outside the model.
- `df.apply(..., axis=1)` on a frame with no rows is not modelled; it gives DIAS as empty.
- A whole-column `.str` error on a non-text ESTADONOMB column is not modelled. A non-text status cell is simply not pending.
- A whole-column `.str` error on a DETALLE_AC column that holds no text at all is not modelled. There `.str.lower()` raises AttributeError; the model instead gives every non-text detail a null flag and every empty one "No".
- A whole-column `.str` error on non-text column labels is not modelled. Normalising the names with `columns.str` raises when no label is text; the model takes every label as text.
- The `nombre_region` parameter is not modelled because the code never uses it.
- `df_region.copy()` is implicit, since frames are values.
- `app.py` (the web front end that uploads the file, splits by region and offers downloads) is not part of this model.
- Where the code and its documentation differ, the model follows the code:
  - A missing FECHA or DETALLE_AC raises a KeyError. It is modelled as `MissingColumn`, not as a column of nulls.
  - `max` over a column with no truthy cell raises. This stops the width pass, modelled by `FitColumns` returning `ok == false`; it does not skip the column. Report sheets never reach this case, since every header is truthy.
