/** The PowerPoint table exporter: how a data frame, or the rendered
    display values of a styled one, becomes the table of display strings
    that is drawn; the column-order check and projection; and the export's
    order of effects on the file system: template check, table, temporary
    image, slide, and removal of the image whatever happens. Rendering the
    image and building the slide are library calls; their outcomes are
    parameters. */
module TableExporter {
  import opened Common
  import opened SourceFetch

  // ---------------------------------------------------------------------
  // Frames and cell formatting

  /** A data frame by columns: a name and the values of each column. */
  datatype Frame<T> = Frame(names: seq<string>, columns: seq<seq<T>>)

  predicate WellFormed<T>(f: Frame<T>) {
    |f.names| == |f.columns|
  }

  /** The cell values the plain path formats: None, text, integers and
      booleans. */
  datatype CellValue = NoneValue | StrValue(s: string) | IntValue(i: int) | BoolValue(b: bool)

  /** `_format_cell_value`: None is the empty string, anything else its
      `str()`. */
  function FormatCellValue(v: CellValue): (s: string)
    ensures v.NoneValue? ==> s == []
    ensures v.StrValue? ==> s == v.s
    ensures v.IntValue? ==> ParseInt(s) == Some(v.i)
    ensures v.BoolValue? ==> s == if v.b then "True" else "False"
  {
    match v
    case NoneValue => ""
    case StrValue(s) => s
    case IntValue(i) => IntRoundTrip(i); IntToString(i)
    case BoolValue(b) => if b then "True" else "False"
  }

  /** `column.apply(_format_cell_value)`. */
  function FormatColumn(values: seq<CellValue>): (shown: seq<string>)
    ensures |shown| == |values|
    ensures forall i :: 0 <= i < |values| ==> shown[i] == FormatCellValue(values[i])
  {
    seq(|values|, i requires 0 <= i < |values| => FormatCellValue(values[i]))
  }

  /** The plain frame with every column formatted. */
  function FormattedFrame(frame: Frame<CellValue>): (display: Frame<string>)
    ensures display.names == frame.names && |display.columns| == |frame.columns|
    ensures forall j :: 0 <= j < |frame.columns| ==> display.columns[j] == FormatColumn(frame.columns[j])
  {
    Frame(frame.names, seq(|frame.columns|, j requires 0 <= j < |frame.columns| => FormatColumn(frame.columns[j])))
  }

  /** The plain branch of `_create_display_dataframe`: a copy of the frame
      whose columns are replaced, one at a time, by their formatted
      values. */
  method FormatColumns(frame: Frame<CellValue>) returns (display: Frame<string>)
    requires WellFormed(frame)
    ensures display == FormattedFrame(frame)
  {
    var n := |frame.columns|;
    var columns := new seq<string>[n];
    for j := 0 to n
      invariant forall k :: 0 <= k < j ==> columns[k] == FormatColumn(frame.columns[k])
    {
      columns[j] := FormatColumn(frame.columns[j]);
    }
    display := Frame(frame.names, columns[..]);
  }

  /** Every cell of the plain frame shows as its formatted value, under
      the same column names. */
  lemma PlainCellsFormatted(frame: Frame<CellValue>, j: nat, i: nat)
    requires WellFormed(frame) && j < |frame.columns| && i < |frame.columns[j]|
    ensures WellFormed(FormattedFrame(frame))
    ensures FormattedFrame(frame).columns[j][i] == FormatCellValue(frame.columns[j][i])
  {
  }

  // ---------------------------------------------------------------------
  // Display values from a styled frame

  /** A cell of the styler's rendered table: its "display_value", when it
      has one. */
  type RenderedCell = Option<string>

  /** The rendered table: header rows and body rows, each a list of
      cells; a missing section is empty. */
  datatype Rendered = Rendered(header: seq<seq<RenderedCell>>, body: seq<seq<RenderedCell>>)

  function DisplayValue(c: RenderedCell): string {
    if c.Some? then c.value else ""
  }

  function DisplayValues(row: seq<RenderedCell>): (values: seq<string>)
    ensures |values| == |row|
    ensures forall i :: 0 <= i < |row| ==> values[i] == DisplayValue(row[i])
  {
    seq(|row|, i requires 0 <= i < |row| => DisplayValue(row[i]))
  }

  /** `values[-n:]` in Python, as the source writes it: `-0` is `0`, so a
      count of zero keeps the whole list. */
  function LastAsWritten<T>(values: seq<T>, n: nat): seq<T> {
    if n == 0 || n > |values| then values else values[|values| - n..]
  }

  /** The trimming as written: longer than `n` keeps `values[-n:]`. */
  function TrimAsWritten<T>(values: seq<T>, n: nat): seq<T> {
    if |values| > n then LastAsWritten(values, n) else values
  }

  /** With no column to fill, a row holding only its index cell is not
      trimmed, so it is longer than the header. */
  lemma TrimAsWrittenKeepsIndexCell()
    ensures TrimAsWritten(["row 0"], 0) == ["row 0"]
    ensures |TrimAsWritten(["row 0"], 0)| > 0
  {
  }

  /** The trimming meant: the last `n` values (all of them when there are
      fewer). */
  function Trim<T>(values: seq<T>, n: nat): (r: seq<T>)
    ensures |r| == if |values| > n then n else |values|
    ensures r == values[|values| - |r|..]
  {
    if |values| > n then values[|values| - n..] else values
  }

  /** The two agree except when the count is zero and there are values. */
  lemma TrimAgrees<T>(values: seq<T>, n: nat)
    ensures n > 0 || values == [] ==> TrimAsWritten(values, n) == Trim(values, n)
    ensures n == 0 && values != [] ==> TrimAsWritten(values, n) == values && Trim(values, n) == []
  {
  }

  /** The column names: the data's own when nothing is rendered in the
      header, otherwise the last header row's display values, trimmed to
      the data's width as written (leading index cells drop off, except
      that with no data columns nothing is trimmed). */
  function HeaderOf(rendered: Rendered, dataColumns: seq<string>): (columns: seq<string>)
    ensures rendered.header == [] ==> columns == dataColumns
    ensures rendered.header != [] && |dataColumns| > 0 ==>
      columns == Trim(DisplayValues(rendered.header[|rendered.header| - 1]), |dataColumns|)
    ensures rendered.header != [] && |dataColumns| == 0 ==>
      columns == DisplayValues(rendered.header[|rendered.header| - 1])
    ensures |dataColumns| > 0 ==> |columns| <= |dataColumns|
  {
    if rendered.header == [] then dataColumns
    else
      TrimAgrees(DisplayValues(rendered.header[|rendered.header| - 1]), |dataColumns|);
      TrimAsWritten(DisplayValues(rendered.header[|rendered.header| - 1]), |dataColumns|)
  }

  /** The body rows' display values, each trimmed to the header's width
      as written: a zero width trims nothing. */
  function BodyOf(rendered: Rendered, width: nat): (rows: seq<seq<string>>)
    ensures |rows| == |rendered.body|
    ensures width > 0 ==> forall i :: 0 <= i < |rows| ==> rows[i] == Trim(DisplayValues(rendered.body[i]), width)
    ensures width == 0 ==> forall i :: 0 <= i < |rows| ==> rows[i] == DisplayValues(rendered.body[i])
  {
    seq(|rendered.body|, i requires 0 <= i < |rendered.body| =>
      TrimAgrees(DisplayValues(rendered.body[i]), width);
      TrimAsWritten(DisplayValues(rendered.body[i]), width))
  }

  /** The widest row's length, zero without rows: the number of columns
      pandas infers from a list of rows. */
  function Widest(rows: seq<seq<string>>): (w: nat)
    ensures forall i :: 0 <= i < |rows| ==> |rows[i]| <= w
    ensures rows != [] ==> exists i :: 0 <= i < |rows| && |rows[i]| == w
    ensures rows == [] ==> w == 0
  {
    if rows == [] then 0
    else
      var rest := Widest(rows[1..]);
      if |rows[0]| >= rest then |rows[0]|
      else
        assert rows[1..] != [];
        var k :| 0 <= k < |rows[1..]| && |rows[1..][k]| == rest;
        assert |rows[k + 1]| == rest;
        rest
  }

  /** `pd.DataFrame(rows, columns=columns)` by columns; a row shorter than
      the header shows an empty string in the cells it lacks. */
  function BuildFrame(columns: seq<string>, rows: seq<seq<string>>): (f: Frame<string>)
    ensures WellFormed(f) && f.names == columns
    ensures forall j :: 0 <= j < |columns| ==> |f.columns[j]| == |rows|
  {
    Frame(columns, seq(|columns|, j requires 0 <= j < |columns| =>
      seq(|rows|, i requires 0 <= i < |rows| => if j < |rows[i]| then rows[i][j] else "")))
  }

  /** The `ValueError` pandas raises when the header's length is not the
      number of columns the rows make. */
  datatype FrameError = ColumnCountMismatch(passed: nat, inferred: nat)

  /** `pd.DataFrame(rows, columns=columns)`: refused when some row is wider
      than the header, or when there are rows and all are narrower; with no
      rows the header alone makes an empty frame. */
  function FrameOf(columns: seq<string>, rows: seq<seq<string>>): (r: Result<Frame<string>, FrameError>)
    ensures r.Err? <==>
      (exists i :: 0 <= i < |rows| && |rows[i]| > |columns|) ||
      (rows != [] && forall i :: 0 <= i < |rows| ==> |rows[i]| < |columns|)
    ensures r.Err? ==> r.error.passed == |columns| && r.error.inferred != |columns|
    ensures r.Err? ==> exists i :: 0 <= i < |rows| && |rows[i]| == r.error.inferred
    ensures r.Ok? ==> r.value == BuildFrame(columns, rows)
  {
    if rows != [] && Widest(rows) != |columns| then Err(ColumnCountMismatch(|columns|, Widest(rows)))
    else Ok(BuildFrame(columns, rows))
  }

  /** `_extract_display_values_from_styler`: the frame built from the
      trimmed header and body. */
  function StylerFrame(rendered: Rendered, dataColumns: seq<string>): (r: Result<Frame<string>, FrameError>)
    ensures r.Ok? ==> WellFormed(r.value) && r.value.names == HeaderOf(rendered, dataColumns)
  {
    var columns := HeaderOf(rendered, dataColumns);
    FrameOf(columns, BodyOf(rendered, |columns|))
  }

  /** The row loop of `_extract_display_values_from_styler`: one row of
      display values per body row, appended in order. */
  method DisplayRows(rendered: Rendered, width: nat) returns (rows: seq<seq<string>>)
    ensures rows == BodyOf(rendered, width)
  {
    rows := [];
    var i := 0;
    while i < |rendered.body|
      invariant 0 <= i <= |rendered.body|
      invariant rows == BodyOf(rendered, width)[..i]
      decreases |rendered.body| - i
    {
      var values := DisplayValues(rendered.body[i]);
      if |values| > width {
        values := LastAsWritten(values, width);
      }
      rows := rows + [values];
      i := i + 1;
    }
  }

  /** The header step of `_extract_display_values_from_styler`. */
  method HeaderColumns(rendered: Rendered, dataColumns: seq<string>) returns (columns: seq<string>)
    ensures columns == HeaderOf(rendered, dataColumns)
  {
    if rendered.header == [] {
      columns := dataColumns;
    } else {
      var headerValues := DisplayValues(rendered.header[|rendered.header| - 1]);
      if |headerValues| > |dataColumns| {
        headerValues := LastAsWritten(headerValues, |dataColumns|);
      }
      columns := headerValues;
    }
  }

  /** `_extract_display_values_from_styler`: the header, then the rows,
      then the frame. */
  method ExtractDisplayValues(rendered: Rendered, dataColumns: seq<string>)
    returns (display: Result<Frame<string>, FrameError>)
    ensures display == StylerFrame(rendered, dataColumns)
  {
    var columns := HeaderColumns(rendered, dataColumns);
    var rows := DisplayRows(rendered, |columns|);
    display := FrameOf(columns, rows);
  }

  /** As written, a header with columns bounds every extracted row, each
      row keeps the rightmost cells of its rendered row, and an empty
      header leaves the rows whole. */
  lemma RowsFitHeader(rendered: Rendered, dataColumns: seq<string>)
    ensures var columns := HeaderOf(rendered, dataColumns);
      |columns| > 0 ==> forall row :: row in BodyOf(rendered, |columns|) ==> |row| <= |columns|
    ensures var columns := HeaderOf(rendered, dataColumns);
      forall i :: 0 <= i < |rendered.body| ==>
        var shown := DisplayValues(rendered.body[i]);
        BodyOf(rendered, |columns|)[i] == shown[|shown| - |BodyOf(rendered, |columns|)[i]|..]
    ensures var columns := HeaderOf(rendered, dataColumns);
      |columns| == 0 ==> forall i :: 0 <= i < |rendered.body| ==> |BodyOf(rendered, |columns|)[i]| == |rendered.body[i]|
  {
  }

  /** The frame of rows cut from rendered rows: the cut keeps every row
      whole under an empty header and otherwise trims it to the header. */
  lemma CutRowsFrame(columns: seq<string>, rows: seq<seq<string>>, body: seq<seq<RenderedCell>>)
    requires |rows| == |body|
    requires |columns| == 0 ==> forall i :: 0 <= i < |rows| ==> |rows[i]| == |body[i]|
    requires |columns| > 0 ==> forall i :: 0 <= i < |rows| ==>
      |rows[i]| == if |body[i]| > |columns| then |columns| else |body[i]|
    ensures FrameOf(columns, rows).Err? <==>
      (|columns| == 0 && exists i :: 0 <= i < |body| && body[i] != []) ||
      (|columns| > 0 && body != [] && forall i :: 0 <= i < |body| ==> |body[i]| < |columns|)
  {
    if |columns| == 0 {
      if exists i :: 0 <= i < |body| && body[i] != [] {
        var i :| 0 <= i < |body| && body[i] != [];
        assert |rows[i]| > |columns|;
      }
    } else {
      assert forall i :: 0 <= i < |rows| ==> |rows[i]| <= |columns|;
      assert forall i :: 0 <= i < |rows| ==> (|rows[i]| < |columns| <==> |body[i]| < |columns|);
    }
  }

  /** The frame as written is refused exactly when the header is empty and
      some rendered row is not, or when there are rows and every rendered
      row is narrower than a non-empty header. */
  lemma StylerFrameRejects(rendered: Rendered, dataColumns: seq<string>)
    ensures var n := |HeaderOf(rendered, dataColumns)|;
      StylerFrame(rendered, dataColumns).Err? <==>
        (n == 0 && exists i :: 0 <= i < |rendered.body| && rendered.body[i] != []) ||
        (n > 0 && rendered.body != [] && forall i :: 0 <= i < |rendered.body| ==> |rendered.body[i]| < n)
  {
    var columns := HeaderOf(rendered, dataColumns);
    CutRowsFrame(columns, BodyOf(rendered, |columns|), rendered.body);
  }

  /** The trimming meant, throughout: the header is the last header row's
      last `n` values (none when there are no data columns), and each row
      its last values up to the header's width. */
  function HeaderIntended(rendered: Rendered, dataColumns: seq<string>): (columns: seq<string>)
    ensures |columns| <= |dataColumns|
  {
    if rendered.header == [] then dataColumns
    else Trim(DisplayValues(rendered.header[|rendered.header| - 1]), |dataColumns|)
  }

  function StylerFrameIntended(rendered: Rendered, dataColumns: seq<string>): Result<Frame<string>, FrameError> {
    var columns := HeaderIntended(rendered, dataColumns);
    FrameOf(columns, seq(|rendered.body|, i requires 0 <= i < |rendered.body| =>
      Trim(DisplayValues(rendered.body[i]), |columns|)))
  }

  /** With the trimming meant, no row is ever wider than the header: the
      frame is refused only when there are rows, the header is not empty
      and every rendered row is narrower than it. */
  lemma IntendedRowsFitHeader(rendered: Rendered, dataColumns: seq<string>)
    ensures var n := |HeaderIntended(rendered, dataColumns)|;
      StylerFrameIntended(rendered, dataColumns).Err? <==>
        n > 0 && rendered.body != [] && forall i :: 0 <= i < |rendered.body| ==> |rendered.body[i]| < n
  {
    var columns := HeaderIntended(rendered, dataColumns);
    var rows := seq(|rendered.body|, i requires 0 <= i < |rendered.body| =>
      Trim(DisplayValues(rendered.body[i]), |columns|));
    TrimmedRowsFrame(columns, rows, rendered.body);
  }

  /** The frame of rows each trimmed to the header: never too wide, so
      refused only when there are rows and all are narrower than a
      non-empty header. */
  lemma TrimmedRowsFrame(columns: seq<string>, rows: seq<seq<string>>, body: seq<seq<RenderedCell>>)
    requires |rows| == |body|
    requires forall i :: 0 <= i < |rows| ==>
      |rows[i]| == if |body[i]| > |columns| then |columns| else |body[i]|
    ensures FrameOf(columns, rows).Err? <==>
      |columns| > 0 && body != [] && forall i :: 0 <= i < |body| ==> |body[i]| < |columns|
  {
    assert forall i :: 0 <= i < |rows| ==> |rows[i]| <= |columns|;
    assert forall i :: 0 <= i < |rows| ==> (|rows[i]| < |columns| <==> |body[i]| < |columns|);
  }

  /** A styled table with no data columns and no rendered header row, whose
      one body row holds its index cell: as written the row stays whole,
      one cell wider than the empty header, and pandas refuses the frame;
      the trimming meant drops the cell and builds an empty-columned
      frame. */
  lemma IndexCellRejectsFrame()
    ensures StylerFrame(Rendered([], [[Some("row 0")]]), []) == Err(ColumnCountMismatch(0, 1))
    ensures StylerFrameIntended(Rendered([], [[Some("row 0")]]), []).Ok?
  {
    var rendered := Rendered([], [[Some("row 0")]]);
    assert DisplayValues(rendered.body[0]) == ["row 0"];
    assert BodyOf(rendered, 0) == [["row 0"]];
    assert Widest([["row 0"]]) == 1;
  }

  // ---------------------------------------------------------------------
  // The display frame

  /** What `export` is given: a plain frame, a plain frame with
      formatters (rendered through a styler), or a styler. For the last
      two, the rendering of the styler is a parameter. */
  datatype TableInput =
    | PlainFrame(frame: Frame<CellValue>)
    | FormattedFrameInput(frame: Frame<CellValue>, rendered: Rendered)
    | StylerInput(dataColumns: seq<string>, rendered: Rendered)

  /** `_create_display_dataframe`: a plain frame is formatted cell by cell
      and always built; the other two go through the styler and can be
      refused. */
  function DisplayFrame(input: TableInput): (display: Result<Frame<string>, FrameError>)
    requires input.PlainFrame? ==> WellFormed(input.frame)
    ensures display.Ok? ==> WellFormed(display.value)
    ensures input.PlainFrame? ==> display == Ok(FormattedFrame(input.frame))
    ensures input.StylerInput? ==> display == StylerFrame(input.rendered, input.dataColumns)
    ensures input.FormattedFrameInput? ==> display == StylerFrame(input.rendered, input.frame.names)
  {
    match input
    case PlainFrame(frame) => Ok(FormattedFrame(frame))
    case FormattedFrameInput(frame, rendered) => StylerFrame(rendered, frame.names)
    case StylerInput(dataColumns, rendered) => StylerFrame(rendered, dataColumns)
  }

  /** `_create_display_dataframe`, step by step. */
  method CreateDisplayFrame(input: TableInput) returns (built: Result<Frame<string>, FrameError>)
    requires input.PlainFrame? ==> WellFormed(input.frame)
    ensures built == DisplayFrame(input)
  {
    match input {
      case PlainFrame(frame) =>
        var formatted := FormatColumns(frame);
        built := Ok(formatted);
      case FormattedFrameInput(frame, rendered) =>
        built := ExtractDisplayValues(rendered, frame.names);
      case StylerInput(dataColumns, rendered) =>
        built := ExtractDisplayValues(rendered, dataColumns);
    }
  }

  // ---------------------------------------------------------------------
  // Column order

  /** `[c for c in column_order if c not in columns]`. */
  function MissingColumns(order: seq<string>, names: seq<string>): (missing: seq<string>)
    ensures forall c :: c in missing <==> c in order && c !in names
    ensures |missing| <= |order|
  {
    if order == [] then []
    else if order[0] !in names then [order[0]] + MissingColumns(order[1..], names)
    else MissingColumns(order[1..], names)
  }

  /** The missing names keep the order they have in `column_order`: they
      are what is left of it once the present names are removed. */
  lemma {:induction false} MissingInOrder(order: seq<string>, names: seq<string>, extra: string)
    requires extra !in names
    ensures MissingColumns(order + [extra], names) == MissingColumns(order, names) + [extra]
  {
    if order != [] {
      assert (order + [extra])[1..] == order[1..] + [extra];
      MissingInOrder(order[1..], names, extra);
    } else {
      assert MissingColumns([], names) == [];
    }
  }

  /** The position of the first column with this name. */
  function IndexOf(names: seq<string>, name: string): (k: nat)
    requires name in names
    ensures k < |names| && names[k] == name
    ensures forall i :: 0 <= i < k ==> names[i] != name
  {
    if names[0] == name then 0 else 1 + IndexOf(names[1..], name)
  }

  /** `display_df[list(column_order)]`: the named columns, in that order. */
  function Project(frame: Frame<string>, order: seq<string>): (p: Frame<string>)
    requires WellFormed(frame)
    requires forall c :: c in order ==> c in frame.names
    ensures WellFormed(p) && p.names == order
    ensures forall k :: 0 <= k < |order| ==> p.columns[k] == frame.columns[IndexOf(frame.names, order[k])]
  {
    Frame(order, seq(|order|, k requires 0 <= k < |order| => frame.columns[IndexOf(frame.names, order[k])]))
  }

  // ---------------------------------------------------------------------
  // export

  /** The options dataclass (used by the rendering and embedding only). */
  datatype ExportOptions = ExportOptions(
    font: string, headerFill: string, headerFontColor: string, rowFill: string, rowFontColor: string,
    alternatingFill: Option<string>, topInches: real, leftInches: real, widthInches: Option<real>)

  const DefaultOptions: ExportOptions :=
    ExportOptions("Source Sans Pro", "#2F5597", "#FFFFFF", "#FFFFFF", "#222222", Some("#F2F2F2"), 1.0, 0.75, Some(9.0))

  /** How `export` ends. */
  datatype ExportOutcome =
    | Exported(destination: string, table: Frame<string>)
    | TemplateNotFound(template: string)
    | FrameRejected(error: FrameError)
    | ColumnsNotPresent(missing: seq<string>)
    | NoSlideLayouts

  /** The table drawn: the display frame, projected on `column_order`
      when given, or the names it lacks. */
  function TableFor(display: Frame<string>, columnOrder: Option<seq<string>>): (r: Result<Frame<string>, seq<string>>)
    requires WellFormed(display)
    ensures columnOrder.None? ==> r == Ok(display)
    ensures columnOrder.Some? ==> (r.Err? <==> exists c :: c in columnOrder.value && c !in display.names)
    ensures columnOrder.Some? && r.Err? ==> r.error == MissingColumns(columnOrder.value, display.names)
    ensures columnOrder.Some? && r.Ok? ==> WellFormed(r.value) && r.value.names == columnOrder.value
  {
    match columnOrder
    case None => Ok(display)
    case Some(order) =>
      var missing := MissingColumns(order, display.names);
      if missing != [] then assert missing[0] in missing; Err(missing)
      else Ok(Project(display, order))
  }

  /** `export`: the template must exist before anything is rendered; the
      display frame must be built, then the column order is checked; the
      slide needs a layout. */
  function ExportResult(input: TableInput, templateExists: bool, template: string, destination: string,
                        columnOrder: Option<seq<string>>, layouts: nat): (o: ExportOutcome)
    requires input.PlainFrame? ==> WellFormed(input.frame)
    ensures !templateExists <==> o == TemplateNotFound(template)
    ensures o.Exported? ==> layouts > 0 && o.destination == destination && DisplayFrame(input).Ok?
  {
    if !templateExists then TemplateNotFound(template)
    else
      match DisplayFrame(input)
      case Err(error) => FrameRejected(error)
      case Ok(display) =>
        match TableFor(display, columnOrder)
        case Err(missing) => ColumnsNotPresent(missing)
        case Ok(table) =>
          if layouts == 0 then NoSlideLayouts
          else Exported(destination, table)
  }

  /** The files of the file system the exporter reads and writes. */
  class FileSystem {
    var files: set<string>

    constructor(files: set<string>)
      ensures this.files == files
    {
      this.files := files;
    }

    /** Writing a file creates it or replaces it. */
    method Write(path: string)
      modifies this
      ensures files == old(files) + {path}
    {
      files := files + {path};
    }

    /** `unlink(missing_ok=True)`. */
    method Unlink(path: string)
      modifies this
      ensures files == old(files) - {path}
    {
      files := files - {path};
    }
  }

  /** `PowerPointTableExporter`: the options it renders with. */
  class PowerPointTableExporter {
    const options: ExportOptions

    /** `options or ExportOptions()`. */
    constructor(options: Option<ExportOptions>)
      ensures this.options == if options.Some? then options.value else DefaultOptions
    {
      this.options := if options.Some? then options.value else DefaultOptions;
    }

    /** `export`. The temporary image gets the fresh name `image`; the
        template has `layouts` slide layouts. The image is removed whether
        or not the slide could be built, and only a built deck is
        saved. */
    method Export(fs: FileSystem, input: TableInput, template: string, destination: string,
                  columnOrder: Option<seq<string>>, image: string, layouts: nat)
      returns (outcome: ExportOutcome)
      requires input.PlainFrame? ==> WellFormed(input.frame)
      requires image !in fs.files && image != destination
      modifies fs
      ensures outcome == ExportResult(input, template in old(fs.files), template, destination, columnOrder, layouts)
      ensures fs.files == if outcome.Exported? then old(fs.files) + {destination} else old(fs.files)
    {
      if template !in fs.files {
        return TemplateNotFound(template);
      }
      var built := CreateDisplayFrame(input);
      if built.Err? {
        return FrameRejected(built.error);
      }
      var display := built.value;
      ghost var table := TableFor(display, columnOrder);
      if columnOrder.Some? {
        var missing := MissingColumns(columnOrder.value, display.names);
        if missing != [] {
          assert table == Err(missing);
          return ColumnsNotPresent(missing);
        }
        display := Project(display, columnOrder.value);
      }
      assert table == Ok(display);
      fs.Write(image);
      // try: embed the image; finally: remove it
      if layouts == 0 {
        fs.Unlink(image);
        return NoSlideLayouts;
      }
      fs.Write(destination);
      fs.Unlink(image);
      outcome := Exported(destination, display);
    }
  }

  /** `export_table_to_pptx`: an exporter with the given look and the
      default placement, then `export`. */
  method ExportTableToPptx(fs: FileSystem, input: TableInput, template: string, destination: string,
                           font: string, headerFill: string, headerFontColor: string, rowFill: string,
                           rowFontColor: string, alternatingFill: Option<string>,
                           columnOrder: Option<seq<string>>, image: string, layouts: nat)
    returns (outcome: ExportOutcome)
    requires input.PlainFrame? ==> WellFormed(input.frame)
    requires image !in fs.files && image != destination
    modifies fs
    ensures outcome == ExportResult(input, template in old(fs.files), template, destination, columnOrder, layouts)
    ensures fs.files == if outcome.Exported? then old(fs.files) + {destination} else old(fs.files)
  {
    var options := ExportOptions(font, headerFill, headerFontColor, rowFill, rowFontColor, alternatingFill,
                                 DefaultOptions.topInches, DefaultOptions.leftInches, DefaultOptions.widthInches);
    var exporter := new PowerPointTableExporter(Some(options));
    outcome := exporter.Export(fs, input, template, destination, columnOrder, image, layouts);
  }

  /** A missing template stops the export before any rendering, a refused
      display frame before the column order is looked at, and a bad column
      order before any image or deck is written. */
  lemma FailuresWriteNothing(input: TableInput, templateExists: bool, template: string, destination: string,
                             columnOrder: Option<seq<string>>, layouts: nat)
    requires input.PlainFrame? ==> WellFormed(input.frame)
    ensures var o := ExportResult(input, templateExists, template, destination, columnOrder, layouts);
      o.FrameRejected? <==> templateExists && DisplayFrame(input).Err?
    ensures var o := ExportResult(input, templateExists, template, destination, columnOrder, layouts);
      o.FrameRejected? ==> !input.PlainFrame? && o.error == DisplayFrame(input).error
    ensures var o := ExportResult(input, templateExists, template, destination, columnOrder, layouts);
      o.ColumnsNotPresent? ==>
        (templateExists && columnOrder.Some? && o.missing != [] && DisplayFrame(input).Ok? &&
         o.missing == MissingColumns(columnOrder.value, DisplayFrame(input).value.names))
    ensures var o := ExportResult(input, templateExists, template, destination, columnOrder, layouts);
      o.Exported? && columnOrder.Some? ==> o.table.names == columnOrder.value
    ensures var o := ExportResult(input, templateExists, template, destination, columnOrder, layouts);
      o.Exported? && columnOrder.None? ==> o.table == DisplayFrame(input).value
  {
  }
}
