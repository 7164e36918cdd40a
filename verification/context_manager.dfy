/** The subplot bookkeeping of `axes_context`: `_AxesHandler` hands out the
    axes of a grid of figures, one figure per row of `columns` axes,
    creating rows on demand; and the argument checks and export-file name
    of `LatexContextManager`. Plotting itself is not modelled: a figure is
    named by the order in which it was created, an axis by its figure and
    its position in that figure's row. */
module ContextManager {
  import opened Common
  import opened PathNames

  const SqueezeRequired: string := "The squeeze argument for subplots in _AxesHandler has to be False."
  const TooManyValues: string := "too many values to unpack (expected 2)"
  const NotEnoughValues: string := "not enough values to unpack (expected 2)"
  const SvgRequired: string := "filename.endswith('.svg')"

  /** A keyword-argument value: only `False` itself matters to the checks
      (`value is not False`), everything else is opaque. */
  datatype KwValue = Flag(b: bool) | Other(text: string)

  type Kwargs = map<string, KwValue>

  /** The exceptions the modelled code raises. */
  datatype PlotError =
    | AssertionError(reason: string)
    | IndexError(index: int)
    | ValueError(reason: string)
    | TypeError
    | ZeroDivisionError
    | AttributeError(reason: string)

  /** `plt.subplots` rejects fewer than one column, so a handler with
      `columns < 1` never yields an axis; the model requires a positive
      count. */
  type Columns = n: nat | n >= 1 witness 1

  predicate SqueezeOff(kwargs: Kwargs) {
    "squeeze" in kwargs && kwargs["squeeze"] == Flag(false)
  }

  /** The keyword arguments `_AxesHandler.__init__` keeps for
      `plt.subplots`: `None` counts as no arguments, a missing `squeeze` is
      added as `False` (to a copy), and any `squeeze` other than `False`
      is refused. */
  function PrepareSubplotKwargs(kwargs: Option<Kwargs>): (r: Result<Kwargs, PlotError>)
    ensures r.Ok? <==> kwargs.None? || "squeeze" !in kwargs.value || kwargs.value["squeeze"] == Flag(false)
    ensures r.Ok? ==> SqueezeOff(r.value)
    ensures r.Ok? && kwargs.None? ==> r.value == map["squeeze" := Flag(false)]
    ensures r.Ok? && kwargs.Some? ==> r.value.Keys == kwargs.value.Keys + {"squeeze"}
    ensures r.Ok? && kwargs.Some? ==> forall key :: key in kwargs.value && key != "squeeze" ==> r.value[key] == kwargs.value[key]
    ensures r.Err? ==> r.error.AssertionError?
  {
    var given := if kwargs.None? then map[] else kwargs.value;
    if "squeeze" !in given then Ok(given["squeeze" := Flag(false)])
    else if given["squeeze"] == Flag(false) then Ok(given)
    else Err(AssertionError(SqueezeRequired))
  }

  /** One axis of the grid. */
  datatype Axis = Axis(figure: nat, position: nat)

  /** `(figure, axes.flatten())` as `_new_subplot` returns it. */
  datatype Subplot = Subplot(figure: nat, axes: seq<Axis>)

  /** `plt.subplots(1, columns, squeeze=False)`: a new figure, the
      `index`-th one created, holding one row of `columns` axes. */
  function NewSubplot(index: nat, columns: Columns): (s: Subplot)
    ensures s.figure == index && |s.axes| == columns
    ensures forall j :: 0 <= j < columns ==> s.axes[j] == Axis(index, j)
  {
    Subplot(index, seq(columns, j requires 0 <= j < columns => Axis(index, j)))
  }

  /** The first `n` rows a handler creates. */
  function Rows(n: nat, columns: Columns): seq<Subplot> {
    seq(n, i requires 0 <= i < n => NewSubplot(i, columns))
  }

  /** The mutable state of a handler as a value: its rows and its
      `counter`. */
  datatype Grid = Grid(subplots: seq<Subplot>, counter: int)

  /** What every handler state satisfies: the rows are the ones created so
      far, in order, the counter starts at -1 and is only set once a row
      was looked up. */
  predicate GridOk(g: Grid, columns: Columns) {
    && g.counter >= -1
    && (g.counter >= 0 ==> g.subplots != [])
    && g.subplots == Rows(|g.subplots|, columns)
  }

  /** The rows after `while row >= len(subplots): subplots.append(...)`. */
  function Grow(subplots: seq<Subplot>, row: int, columns: Columns): (r: seq<Subplot>)
    ensures |r| == Max(|subplots|, row + 1)
    ensures r[..|subplots|] == subplots
    ensures forall i :: |subplots| <= i < |r| ==> r[i] == NewSubplot(i, columns)
    decreases row - |subplots|
  {
    if row >= |subplots| then Grow(subplots + [NewSubplot(|subplots|, columns)], row, columns)
    else subplots
  }

  /** `get_axes(row=row, col=col)` on state `g`: the new state and the axis
      returned or the exception raised. The counter is updated before the
      column is checked, so a bad column still moves it. */
  function GetAxesSpec(g: Grid, columns: Columns, row: int, col: int): (r: (Grid, Result<Axis, PlotError>))
  {
    var subplots := Grow(g.subplots, row, columns);
    if !InRange(row, |subplots|) then
      (Grid(subplots, g.counter), Err(IndexError(row)))
    else
      var axes := subplots[PyIndex(row, |subplots|)].axes;
      var counter := Max(g.counter, row * columns + col);
      if !InRange(col, |axes|) then (Grid(subplots, counter), Err(IndexError(col)))
      else (Grid(subplots, counter), Ok(axes[PyIndex(col, |axes|)]))
  }

  /** The argument of `handler[item]`: an integer, a tuple or list of
      integers, or anything else. */
  datatype Item = IntItem(i: int) | PairItem(parts: seq<int>) | OtherItem

  /** `handler[item]` on state `g`. A negative integer first evaluates (and
      discards) `item % counter`, which divides by zero when the counter is
      0; an integer is then split into `(item // columns, item % columns)`;
      a tuple or list must unpack into exactly `(row, col)`. */
  function GetItemSpec(g: Grid, columns: Columns, item: Item): (r: (Grid, Result<Axis, PlotError>)) {
    match item
    case IntItem(i) =>
      if i < 0 && g.counter == 0 then (g, Err(ZeroDivisionError))
      else GetAxesSpec(g, columns, i / columns, i % columns)
    case PairItem(parts) =>
      if |parts| > 2 then (g, Err(ValueError(TooManyValues)))
      else if |parts| < 2 then (g, Err(ValueError(NotEnoughValues)))
      else GetAxesSpec(g, columns, parts[0], parts[1])
    case OtherItem => (g, Err(TypeError))
  }

  /** The `new` property: the axis after the last one handed out. */
  function NewSpec(g: Grid, columns: Columns): (Grid, Result<Axis, PlotError>) {
    GetItemSpec(g, columns, IntItem(g.counter + 1))
  }

  /** The `last` property: the axis handed out last. */
  function LastSpec(g: Grid, columns: Columns): (Grid, Result<Axis, PlotError>) {
    GetItemSpec(g, columns, IntItem(g.counter))
  }

  class AxesHandler {
    const columns: Columns
    const subplotKwargs: Kwargs
    var subplots: seq<Subplot>
    var counter: int

    ghost predicate Valid()
      reads this
    {
      SqueezeOff(subplotKwargs) && GridOk(State(), columns)
    }

    function State(): Grid
      reads this
    {
      Grid(subplots, counter)
    }

    /** `__init__` once its keyword arguments have passed the check. */
    constructor Make(columns: Columns, subplotKwargs: Kwargs)
      requires SqueezeOff(subplotKwargs)
      ensures Valid()
      ensures this.columns == columns && this.subplotKwargs == subplotKwargs
      ensures State() == Grid([], -1)
    {
      this.columns := columns;
      this.subplotKwargs := subplotKwargs;
      subplots := [];
      counter := -1;
    }

    /** `_AxesHandler(columns, subplot_kwargs)`: fails exactly when the
        keyword arguments carry a `squeeze` other than `False`. */
    static method Create(columns: Columns, subplotKwargs: Option<Kwargs>) returns (r: Result<AxesHandler, PlotError>)
      ensures r.Err? <==> PrepareSubplotKwargs(subplotKwargs).Err?
      ensures r.Err? ==> r.error == PrepareSubplotKwargs(subplotKwargs).error
      ensures r.Ok? ==> fresh(r.value) && r.value.Valid() && r.value.State() == Grid([], -1)
      ensures r.Ok? ==> r.value.columns == columns && r.value.subplotKwargs == PrepareSubplotKwargs(subplotKwargs).value
    {
      var prepared := PrepareSubplotKwargs(subplotKwargs);
      if prepared.Err? {
        return Err(prepared.error);
      }
      var handler := new AxesHandler.Make(columns, prepared.value);
      r := Ok(handler);
    }

    /** `get_axes(row=row, col=col)`: appends rows until `row` exists, then
        looks the axis up. */
    method GetAxes(row: int, col: int) returns (r: Result<Axis, PlotError>)
      requires Valid()
      modifies this
      ensures Valid()
      ensures (State(), r) == GetAxesSpec(old(State()), columns, row, col)
    {
      while row >= |subplots|
        invariant Valid() && counter == old(counter)
        invariant Grow(subplots, row, columns) == Grow(old(subplots), row, columns)
        decreases row - |subplots|
      {
        subplots := subplots + [NewSubplot(|subplots|, columns)];
      }
      if !InRange(row, |subplots|) {
        return Err(IndexError(row));
      }
      var axes := subplots[PyIndex(row, |subplots|)].axes;
      counter := Max(counter, row * columns + col);
      if !InRange(col, |axes|) {
        return Err(IndexError(col));
      }
      r := Ok(axes[PyIndex(col, |axes|)]);
    }

    /** `handler[item]`. */
    method GetItem(item: Item) returns (r: Result<Axis, PlotError>)
      requires Valid()
      modifies this
      ensures Valid()
      ensures (State(), r) == GetItemSpec(old(State()), columns, item)
    {
      match item {
        case IntItem(i) =>
          if i < 0 && counter == 0 {
            return Err(ZeroDivisionError);
          }
          r := GetAxes(i / columns, i % columns);
        case PairItem(parts) =>
          if |parts| > 2 {
            return Err(ValueError(TooManyValues));
          } else if |parts| < 2 {
            return Err(ValueError(NotEnoughValues));
          }
          r := GetAxes(parts[0], parts[1]);
        case OtherItem =>
          r := Err(TypeError);
      }
    }

    /** The `new` property. */
    method New() returns (r: Result<Axis, PlotError>)
      requires Valid()
      modifies this
      ensures Valid()
      ensures (State(), r) == NewSpec(old(State()), columns)
    {
      r := GetItem(IntItem(counter + 1));
    }

    /** The `last` property. */
    method Last() returns (r: Result<Axis, PlotError>)
      requires Valid()
      modifies this
      ensures Valid()
      ensures (State(), r) == LastSpec(old(State()), columns)
    {
      r := GetItem(IntItem(counter));
    }
  }

  /** `get_axes` only appends rows, and afterwards row `row` exists. */
  lemma GetAxesGrows(g: Grid, columns: Columns, row: int, col: int)
    requires GridOk(g, columns)
    ensures var r := GetAxesSpec(g, columns, row, col);
      && GridOk(r.0, columns)
      && r.0.subplots[..|g.subplots|] == g.subplots
      && |r.0.subplots| == Max(|g.subplots|, row + 1)
      && (row >= 0 ==> |r.0.subplots| > row)
  {
    var subplots := Grow(g.subplots, row, columns);
    assert subplots == Rows(|subplots|, columns);
  }

  /** `get_axes` never lowers the counter; once the row exists it sets it
      to `max(counter, row * columns + col)`, whether or not the column is
      valid. */
  lemma GetAxesCounter(g: Grid, columns: Columns, row: int, col: int)
    requires GridOk(g, columns)
    ensures var r := GetAxesSpec(g, columns, row, col);
      && r.0.counter >= g.counter
      && (row >= -|g.subplots| ==> r.0.counter == Max(g.counter, row * columns + col))
      && (row < -|g.subplots| ==> r.0.counter == g.counter)
  {
  }

  /** `get_axes` succeeds exactly when both indices are valid Python
      indices, and returns the axis at that row and column. */
  lemma GetAxesResult(g: Grid, columns: Columns, row: int, col: int)
    requires GridOk(g, columns)
    ensures var r := GetAxesSpec(g, columns, row, col);
      var n := Max(|g.subplots|, row + 1);
      && (r.1.Ok? <==> InRange(row, n) && InRange(col, columns))
      && (r.1.Ok? ==> r.1.value == Axis(PyIndex(row, n), PyIndex(col, columns)))
      && (r.1.Err? ==> r.1.error.IndexError?)
  {
  }

  /** An integer item is the cell `(i // columns, i % columns)`: Python's
      floor division, whose column is in range and which recombines to
      `i`. */
  lemma IntItemCell(g: Grid, columns: Columns, i: int)
    requires i >= 0 || g.counter != 0
    ensures GetItemSpec(g, columns, IntItem(i)) == GetAxesSpec(g, columns, i / columns, i % columns)
    ensures 0 <= i % columns < columns && (i / columns) * columns + i % columns == i
    ensures i >= 0 ==> i / columns >= 0
  {
    FloorCell(i, columns);
    assert GetItemSpec(g, columns, IntItem(i)) == GetAxesSpec(g, columns, i / columns, i % columns);
  }

  /** The `i`-th axis counted row by row in a grid of `columns` columns. */
  function Cell(i: nat, columns: Columns): (a: Axis)
    ensures a.figure * columns + a.position == i && a.position < columns
  {
    FloorCell(i, columns);
    Axis(i / columns, i % columns)
  }

  /** Floor division by the number of columns gives a column in range and
      a row that recombine to the original number. */
  lemma FloorCell(i: int, columns: Columns)
    ensures 0 <= i % columns < columns && (i / columns) * columns + i % columns == i
    ensures i >= 0 ==> i / columns >= 0
  {
  }

  /** A tuple or list is passed through as `(row, col)`; anything other
      than an integer, a tuple or a list raises `TypeError`. */
  lemma ItemDispatch(g: Grid, columns: Columns, row: int, col: int)
    ensures GetItemSpec(g, columns, PairItem([row, col])) == GetAxesSpec(g, columns, row, col)
    ensures GetItemSpec(g, columns, OtherItem) == (g, Err(TypeError))
    ensures GetItemSpec(g, columns, IntItem(-1)).1 == Err(ZeroDivisionError) <==> g.counter == 0
  {
  }

  /** `new` always succeeds, raises the counter by exactly one and returns
      the cell after the previous one, row by row. */
  lemma NewAdvances(g: Grid, columns: Columns)
    requires GridOk(g, columns)
    ensures var r := NewSpec(g, columns);
      && GridOk(r.0, columns)
      && r.0.counter == g.counter + 1
      && r.1 == Ok(Cell(g.counter + 1, columns))
  {
    var i := g.counter + 1;
    IntItemCell(g, columns, i);
    var row, col := i / columns, i % columns;
    GetAxesGrows(g, columns, row, col);
    GetAxesCounter(g, columns, row, col);
    GetAxesResult(g, columns, row, col);
    assert row * columns + col == i;
    assert row * columns >= g.counter + 1 - col;
  }

  /** `last` never moves the counter. It fails only before anything was
      created; with a counter of -1 and rows present it is the last axis of
      the last row. */
  lemma LastKeepsCounter(g: Grid, columns: Columns)
    requires GridOk(g, columns)
    ensures var r := LastSpec(g, columns);
      && GridOk(r.0, columns)
      && r.0.counter == g.counter
      && (r.1.Err? <==> g.counter == -1 && g.subplots == [])
      && (g.counter >= 0 ==> r.1 == Ok(Cell(g.counter, columns)))
      && (g.counter == -1 && g.subplots != [] ==> r.1 == Ok(Axis(|g.subplots| - 1, columns - 1)))
  {
    var i := g.counter;
    IntItemCell(g, columns, i);
    GetAxesGrows(g, columns, i / columns, i % columns);
    GetAxesCounter(g, columns, i / columns, i % columns);
    GetAxesResult(g, columns, i / columns, i % columns);
    if i == -1 {
      MinusOneCell(columns);
    }
  }

  /** Python's `-1 // columns` and `-1 % columns`: the last column of the
      row before. */
  lemma MinusOneCell(columns: Columns)
    ensures -1 / columns == -1 && -1 % columns == columns - 1
  {
  }

  /** The usage in `axes_context`'s documentation with two columns: `new`,
      `new`, `last`, `[1]`, `[1, 1]`. The two `new` fill the first row,
      `last` and `[1]` both give its second axis again, and `[1, 1]`
      creates the second row. */
  lemma TwoColumnWalkthrough()
    ensures var g0 := Grid([], -1);
      var s1 := NewSpec(g0, 2);
      var s2 := NewSpec(s1.0, 2);
      var s3 := LastSpec(s2.0, 2);
      var s4 := GetItemSpec(s3.0, 2, IntItem(1));
      var s5 := GetItemSpec(s4.0, 2, PairItem([1, 1]));
      && s1.1 == Ok(Axis(0, 0)) && s2.1 == Ok(Axis(0, 1)) && s3.1 == Ok(Axis(0, 1))
      && s4.1 == Ok(Axis(0, 1)) && s5.1 == Ok(Axis(1, 1))
      && |s4.0.subplots| == 1 && |s5.0.subplots| == 2 && s5.0.counter == 3
  {
    var g0 := Grid([], -1);
    assert GridOk(g0, 2);
    NewAdvances(g0, 2);
    var s1 := NewSpec(g0, 2);
    GetAxesGrows(g0, 2, 0, 0);
    NewAdvances(s1.0, 2);
    var s2 := NewSpec(s1.0, 2);
    GetAxesGrows(s1.0, 2, 0, 1);
    LastKeepsCounter(s2.0, 2);
    var s3 := LastSpec(s2.0, 2);
    GetAxesGrows(s2.0, 2, 0, 1);
    GetAxesGrows(s3.0, 2, 0, 1);
    GetAxesResult(s3.0, 2, 0, 1);
    var s4 := GetItemSpec(s3.0, 2, IntItem(1));
    GetAxesGrows(s4.0, 2, 1, 1);
    GetAxesResult(s4.0, 2, 1, 1);
  }

  /** `LatexContextManager`: the figure file (which must be an SVG file)
      and where and in which format the exported copy goes. Fonts,
      formatters, palette and figure size are styling and not modelled. */
  class LatexContextManager {
    const filename: string
    const buildFolder: string
    const extraRc: Kwargs
    const exportType: Option<string>
    const formatX: bool
    const formatY: bool

    /** `__init__` once the file name has passed its check: the build
        folder defaults to the directory of the file, the extra rc
        parameters to none. */
    constructor Make(filename: string, buildFolder: Option<string>, extraRc: Option<Kwargs>,
                     exportType: Option<string>, formatX: bool, formatY: bool)
      requires EndsWith(filename, ".svg")
      ensures this.filename == filename && this.exportType == exportType
      ensures this.formatX == formatX && this.formatY == formatY
      ensures this.buildFolder == if buildFolder.Some? then buildFolder.value else Dirname(filename)
      ensures this.extraRc == if extraRc.Some? then extraRc.value else map[]
    {
      this.filename := filename;
      this.buildFolder := if buildFolder.Some? then buildFolder.value else Dirname(filename);
      this.extraRc := if extraRc.Some? then extraRc.value else map[];
      this.exportType := exportType;
      this.formatX := formatX;
      this.formatY := formatY;
    }

    /** `LatexContextManager(filename, ...)`: refuses any file name not
        ending in ".svg". */
    static method Create(filename: string, buildFolder: Option<string>, extraRc: Option<Kwargs>,
                         exportType: Option<string>, formatX: bool, formatY: bool)
      returns (r: Result<LatexContextManager, PlotError>)
      ensures r.Err? <==> !EndsWith(filename, ".svg")
      ensures r.Err? ==> r.error.AssertionError?
      ensures r.Ok? ==> fresh(r.value) && r.value.filename == filename && r.value.exportType == exportType
      ensures r.Ok? && buildFolder.None? ==> r.value.buildFolder == Dirname(filename)
      ensures r.Ok? && buildFolder.Some? ==> r.value.buildFolder == buildFolder.value
      ensures r.Ok? && extraRc.None? ==> r.value.extraRc == map[]
    {
      if !EndsWith(filename, ".svg") {
        return Err(AssertionError(SvgRequired));
      }
      var manager := new LatexContextManager.Make(filename, buildFolder, extraRc, exportType, formatX, formatY);
      r := Ok(manager);
    }

    /** The file the export writes, if an export type is set. */
    function BuildFile(): (r: Option<string>)
      ensures r.Some? <==> exportType.Some?
      ensures r.Some? ==> EndsWith(r.value, "." + exportType.value)
    {
      if exportType.Some? then Some(ExportFile(buildFolder, filename, exportType.value)) else None
    }
  }

  /** The export file: the figure's base name placed in the build folder,
      with its extension replaced by `exportType`. */
  function ExportFile(buildFolder: string, filename: string, exportType: string): (r: string)
    ensures EndsWith(r, "." + exportType)
  {
    var stem := SplitExt(Join(buildFolder, Basename(filename))).0;
    DotExtensionSuffix(stem, exportType);
    stem + "." + exportType
  }

  lemma DotExtensionSuffix(stem: string, ext: string)
    ensures EndsWith(stem + "." + ext, "." + ext)
  {
    var r := stem + "." + ext;
    assert r[|r| - |"." + ext|..] == "." + ext;
  }

  /** Joining a name with no '/' to a folder and then adding ".svg" is the
      same as joining the name with ".svg" already on it. */
  lemma {:induction false} JoinKeepsExtension(folder: string, stem: string)
    requires '/' !in stem
    ensures Join(folder, stem + ".svg") == Join(folder, stem) + ".svg"
  {
    assert !StartsWith(stem + ".svg", "/") by {
      if |stem| > 0 {
        assert (stem + ".svg")[0] == stem[0];
      } else {
        assert (stem + ".svg")[0] == '.';
      }
    }
    assert !StartsWith(stem, "/") by {
      if |stem| > 0 {
        assert stem[0] in stem;
      }
    }
  }

  /** For an SVG file whose name before ".svg" has a character other than
      '.', the export file is that name, in the build folder, with the
      export type as its extension. */
  lemma {:induction false} ExportFileReplacesSvg(buildFolder: string, filename: string, exportType: string, stem: string)
    requires Basename(filename) == stem + ".svg"
    requires HasNonDot(stem, 0, |stem|)
    ensures ExportFile(buildFolder, filename, exportType) == Join(buildFolder, stem) + "." + exportType
  {
    assert '/' !in stem by {
      forall k | 0 <= k < |stem| ensures stem[k] != '/' {
        assert stem[k] == (stem + ".svg")[k];
      }
    }
    JoinKeepsExtension(buildFolder, stem);
    SplitExtOfStem(Join(buildFolder, stem), stem);
  }

  /** `splitext` of a path ending in a last component `stem` (not only
      dots) followed by ".svg" splits off exactly the ".svg". */
  lemma {:induction false} SplitExtOfStem(x: string, stem: string)
    requires EndsWith(x, stem) && '/' !in stem && HasNonDot(stem, 0, |stem|)
    ensures SplitExt(x + ".svg") == (x, ".svg")
  {
    var p := x + ".svg";
    var start := |x| - |stem|;
    LastSlashBeforeStem(x, stem);
    LastDotOfSvg(x);
    var k :| 0 <= k < |stem| && stem[k] != '.';
    assert p[start + k] == x[start + k] == stem[k];
    assert HasNonDot(p, RFind(p, '/') + 1, RFind(p, '.'));
    assert p[..|x|] == x && p[|x|..] == ".svg";
  }

  lemma {:induction false} LastSlashBeforeStem(x: string, stem: string)
    requires EndsWith(x, stem) && '/' !in stem
    ensures RFind(x + ".svg", '/') < |x| - |stem|
  {
    var prefix := x[..|x| - |stem|];
    var tail := stem + ".svg";
    assert x + ".svg" == prefix + tail;
    assert '/' !in tail by {
      forall k | 0 <= k < |tail| ensures tail[k] != '/' {
        if k < |stem| {
          assert tail[k] == stem[k];
        }
      }
    }
    RFindPastTail(prefix, tail, '/');
  }

  lemma {:induction false} LastDotOfSvg(x: string)
    ensures RFind(x + ".svg", '.') == |x|
  {
    assert x + ".svg" == x + ['.'] + "svg";
    RFindSplit(x, '.', "svg");
  }

  /** `figures/plot.svg` with the default build folder exports next to
      itself. */
  lemma ExportNextToFigure()
    ensures ExportFile(Dirname("figures/plot.svg"), "figures/plot.svg", "pdf") == "figures/plot.pdf"
  {
    PlotSvgParts();
    PlotSvgExport("figures", "figures/plot.svg", "pdf");
    PlotPdfName();
  }

  /** The spelling of the example's names. */
  lemma PlotPdfName()
    ensures Join("figures", "plot") + "." + "pdf" == "figures/plot.pdf"
  {
    assert !EndsWith("figures", "/") by {
      assert "figures"[6..] != "/";
    }
    assert !StartsWith("plot", "/") by {
      assert "plot"[..1] != "/";
    }
    assert Join("figures", "plot") == "figures/plot";
  }

  lemma PlotSvgExport(folder: string, filename: string, exportType: string)
    requires Basename(filename) == "plot" + ".svg"
    ensures ExportFile(folder, filename, exportType) == Join(folder, "plot") + "." + exportType
  {
    assert HasNonDot("plot", 0, 4) by {
      assert "plot"[0] != '.';
    }
    ExportFileReplacesSvg(folder, filename, exportType, "plot");
  }

  lemma PlotSvgParts()
    ensures Basename("figures/plot.svg") == "plot" + ".svg"
    ensures Dirname("figures/plot.svg") == "figures"
  {
    PlotSvgSplit();
    assert !AllSlashes("figures/") by {
      assert "figures/"[0] != '/';
    }
    assert RStripSlashes("figures/") == "figures" by {
      assert "figures/"[..7] == "figures";
    }
  }

  /** The last slash of "figures/plot.svg" is its eighth character. */
  lemma PlotSvgSplit()
    ensures RFind("figures/plot.svg", '/') == 7
    ensures "figures/plot.svg"[..8] == "figures/" && "figures/plot.svg"[8..] == "plot.svg"
  {
    var f := "figures/plot.svg";
    assert f == "figures" + ['/'] + "plot.svg";
    RFindSplit("figures", '/', "plot.svg");
  }

  /** A file named just ".svg" has no extension for `splitext`, so the
      export type is appended to the full name. */
  lemma HiddenSvgKeepsName()
    ensures ExportFile("build", "figs/.svg", "pdf") == "build/.svg.pdf"
  {
    HiddenSvgParts();
    assert !StartsWith(".svg", "/") by {
      assert ".svg"[..1] != "/";
    }
    assert !EndsWith("build", "/") by {
      assert "build"[4..] != "/";
    }
    assert Join("build", ".svg") == "build/.svg";
  }

  lemma HiddenSvgParts()
    ensures Basename("figs/.svg") == ".svg"
    ensures SplitExt("build/.svg") == ("build/.svg", "")
  {
    assert "figs/.svg" == "figs" + ['/'] + ".svg";
    RFindSplit("figs", '/', ".svg");
    var p := "build/.svg";
    assert p == "build" + ['/'] + ".svg";
    RFindSplit("build", '/', ".svg");
    assert p == "build/" + ['.'] + "svg";
    RFindSplit("build/", '.', "svg");
  }
}
