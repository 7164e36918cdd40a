/** The layout `facet_grid` plans: which plotting function draws which
    signal with which keyword arguments on which axis of a grid of
    `colwrap` columns, and which axes are switched off. A signal and a
    plotting function are opaque values; drawing is recorded, not done. */
module FacetGrid {
  import opened Common
  import opened ContextManager

  const NoFlatten: string := "'Axes' object has no attribute 'flatten'"

  const ListsMismatch: string := "len(function_list) == len(data_list) or len(function_list) == 1 or len(data_list) == 1"
  const KwargsMismatch: string := "len(kwargs_list) in (0, 1, len(data_list), len(function_list))"
  const NotPositive: string := "Number of rows and columns must be positive integers"

  /** What happens to one axis of the grid: it is drawn on by a function,
      switched off, or left as created. */
  datatype Panel<D, F> = Drawn(plot: F, signal: D, kwargs: Kwargs) | Off | Blank

  /** The grid of `rows` x `columns` axes in row-major order, as
      `axis.flatten()` lists them. */
  datatype Layout<D, F> = Layout(rows: nat, columns: nat, panels: seq<Panel<D, F>>)

  /** The first assertion: as many functions as signals, or one of the two
      lists has a single element. */
  predicate ListsMatch(dataCount: nat, functionCount: nat) {
    functionCount == dataCount || functionCount == 1 || dataCount == 1
  }

  /** The second assertion: no keyword arguments, one set for all, or one
      set per signal or per function. */
  predicate KwargsMatch(kwargsCount: nat, dataCount: nat, functionCount: nat) {
    kwargsCount == 0 || kwargsCount == 1 || kwargsCount == dataCount || kwargsCount == functionCount
  }

  /** `n * [x]`. */
  function Repeat<T>(x: T, n: nat): (r: seq<T>)
    ensures |r| == n && forall i :: 0 <= i < n ==> r[i] == x
  {
    seq(n, _ => x)
  }

  /** A single-element list repeated `n` times; any other list as it is. */
  function Broadcast<T>(xs: seq<T>, n: nat): seq<T> {
    if |xs| == 1 then Repeat(xs[0], n) else xs
  }

  /** The keyword-argument list after the three rebindings: empty becomes
      one empty dict per signal, and a single dict is repeated per signal
      and then, if still single, per function. */
  function BroadcastKwargs(kwargs: seq<Kwargs>, dataCount: nat, functionCount: nat): seq<Kwargs> {
    var filled := if |kwargs| == 0 then Repeat(map[], dataCount) else kwargs;
    Broadcast(Broadcast(filled, dataCount), functionCount)
  }

  function NumberOfPlots(dataCount: nat, functionCount: nat): nat {
    Max(functionCount, dataCount)
  }

  /** `int(np.ceil(plots / colwrap))` for a positive `colwrap`. */
  function NumberOfRows(plots: nat, colwrap: nat): nat
    requires colwrap >= 1
  {
    (plots + colwrap - 1) / colwrap
  }

  /** The axes of a grid whose first `drawn` axes show the broadcast lists
      and whose axes from `plots` on are switched off. */
  function Panels<D, F>(data: seq<D>, functions: seq<F>, kwargs: seq<Kwargs>, plots: nat, total: nat): seq<Panel<D, F>>
    requires |data| <= |functions| && |data| <= |kwargs|
  {
    seq(total, i requires 0 <= i < total =>
          if i < |data| then Drawn(functions[i], data[i], kwargs[i])
          else if i < plots then Blank
          else Off)
  }

  /** `facet_grid(data_list, function_list, kwargs_list, colwrap)` with the
      axes a flat list in every case: the checks in the order they fail,
      then the layout. */
  function FacetGridOutcome<D, F>(data: seq<D>, functions: seq<F>, kwargs: seq<Kwargs>, colwrap: int): (r: Result<Layout<D, F>, PlotError>)
  {
    if !ListsMatch(|data|, |functions|) then
      Err(AssertionError(ListsMismatch))
    else if !KwargsMatch(|kwargs|, |data|, |functions|) then
      Err(AssertionError(KwargsMismatch))
    else if colwrap == 0 then
      Err(ZeroDivisionError)
    else if colwrap < 0 || NumberOfPlots(|data|, |functions|) == 0 then
      Err(ValueError(NotPositive))
    else
      Ok(Plan(data, functions, kwargs, colwrap))
  }

  /** The grid once every check has passed: `ceil(plots / colwrap)` rows of
      `colwrap` axes showing the broadcast lists. */
  function Plan<D, F>(data: seq<D>, functions: seq<F>, kwargs: seq<Kwargs>, colwrap: nat): Layout<D, F>
    requires ListsMatch(|data|, |functions|) && KwargsMatch(|kwargs|, |data|, |functions|)
    requires colwrap >= 1
  {
    var plots := NumberOfPlots(|data|, |functions|);
    var rows := NumberOfRows(plots, colwrap);
    var drawnData := Broadcast(data, |functions|);
    var drawnFunctions := Broadcast(functions, |drawnData|);
    var drawnKwargs := BroadcastKwargs(kwargs, |data|, |functions|);
    BroadcastLengths(data, functions, kwargs);
    Layout(rows, colwrap, Panels(drawnData, drawnFunctions, drawnKwargs, plots, rows * colwrap))
  }

  /** `facet_grid` as written: `plt.subplots(1, 1)` returns a single axis,
      not an array, so `axis.flatten()` fails on a one-by-one grid as soon
      as there is something to draw. */
  function FacetGridAsWritten<D, F>(data: seq<D>, functions: seq<F>, kwargs: seq<Kwargs>, colwrap: int): (r: Result<Layout<D, F>, PlotError>)
  {
    var planned := FacetGridOutcome(data, functions, kwargs, colwrap);
    if planned.Ok? && planned.value.rows == 1 && colwrap == 1 && Broadcast(data, |functions|) != [] then
      Err(AttributeError(NoFlatten))
    else
      planned
  }

  /** Under the two assertions every broadcast list has the length of the
      broadcast signal list, which is the number of plots unless one list
      is empty and the other has one element. */
  lemma BroadcastLengths<D, F>(data: seq<D>, functions: seq<F>, kwargs: seq<Kwargs>)
    requires ListsMatch(|data|, |functions|) && KwargsMatch(|kwargs|, |data|, |functions|)
    ensures var drawnData := Broadcast(data, |functions|);
      && |Broadcast(functions, |drawnData|)| == |drawnData|
      && |BroadcastKwargs(kwargs, |data|, |functions|)| == |drawnData|
      && (|drawnData| == NumberOfPlots(|data|, |functions|)
          || (NumberOfPlots(|data|, |functions|) == 1 && drawnData == []))
  {
  }

  /** Element `i` of each broadcast list is the original's element `i`, or
      its only element. */
  lemma BroadcastElements<D, F>(data: seq<D>, functions: seq<F>, kwargs: seq<Kwargs>, i: nat)
    requires ListsMatch(|data|, |functions|) && KwargsMatch(|kwargs|, |data|, |functions|)
    requires i < |Broadcast(data, |functions|)|
    ensures var drawnData := Broadcast(data, |functions|);
      && drawnData[i] == data[if |data| == 1 then 0 else i]
      && Broadcast(functions, |drawnData|)[i] == functions[if |functions| == 1 then 0 else i]
      && BroadcastKwargs(kwargs, |data|, |functions|)[i]
         == if |kwargs| == 0 then map[] else kwargs[if |kwargs| == 1 then 0 else i]
  {
    BroadcastLengths(data, functions, kwargs);
  }

  /** The rows are the fewest that hold all plots: the grid has room for
      every plot and fewer than `colwrap` axes to spare. */
  lemma RowsCoverPlots(plots: nat, colwrap: nat)
    requires colwrap >= 1
    ensures var rows := NumberOfRows(plots, colwrap);
      plots <= rows * colwrap < plots + colwrap
  {
    var rows := NumberOfRows(plots, colwrap);
    var m := (plots + colwrap - 1) % colwrap;
    assert rows * colwrap + m == plots + colwrap - 1;
  }

  predicate FailsAssertion<T>(r: Result<T, PlotError>) {
    r.Err? && r.error.AssertionError?
  }

  /** `facet_grid` fails on one of its assertions exactly when the list
      lengths do not match. */
  lemma FacetGridAssertions<D, F>(data: seq<D>, functions: seq<F>, kwargs: seq<Kwargs>, colwrap: int)
    ensures FailsAssertion(FacetGridOutcome(data, functions, kwargs, colwrap))
      <==> !ListsMatch(|data|, |functions|) || !KwargsMatch(|kwargs|, |data|, |functions|)
  {
  }

  /** Past the assertions, `colwrap == 0` divides by zero and nothing else
      does. */
  lemma FacetGridDividesByZero<D, F>(data: seq<D>, functions: seq<F>, kwargs: seq<Kwargs>, colwrap: int)
    ensures FacetGridOutcome(data, functions, kwargs, colwrap) == Err(ZeroDivisionError)
      <==> ListsMatch(|data|, |functions|) && KwargsMatch(|kwargs|, |data|, |functions|) && colwrap == 0
  {
  }

  /** A grid is planned exactly when the lengths match, `colwrap` is
      positive and there is something to plot; a negative `colwrap` or
      nothing to plot is refused by `plt.subplots`. */
  lemma FacetGridPlans<D, F>(data: seq<D>, functions: seq<F>, kwargs: seq<Kwargs>, colwrap: int)
    ensures FacetGridOutcome(data, functions, kwargs, colwrap).Ok?
      <==> ListsMatch(|data|, |functions|) && KwargsMatch(|kwargs|, |data|, |functions|)
           && colwrap >= 1 && (data != [] || functions != [])
  {
    if ListsMatch(|data|, |functions|) && KwargsMatch(|kwargs|, |data|, |functions|) && colwrap >= 1 {
      assert NumberOfPlots(|data|, |functions|) == 0 <==> data == [] && functions == [];
    }
  }

  /** In a planned grid, axis `i` is drawn on exactly when `i` is below
      the number of broadcast signals, with that signal, function and
      keyword arguments; exactly the axes from the number of plots up to
      the end of the grid are switched off, and there are fewer than
      `colwrap` of them. */
  lemma LayoutPanels<D, F>(data: seq<D>, functions: seq<F>, kwargs: seq<Kwargs>, colwrap: int)
    requires FacetGridOutcome(data, functions, kwargs, colwrap).Ok?
    ensures var layout := FacetGridOutcome(data, functions, kwargs, colwrap).value;
      var plots := NumberOfPlots(|data|, |functions|);
      var drawnData := Broadcast(data, |functions|);
      && layout.columns == colwrap
      && |layout.panels| == layout.rows * layout.columns
      && plots <= |layout.panels| < plots + colwrap
      && (forall i :: 0 <= i < |layout.panels| ==> (layout.panels[i].Drawn? <==> i < |drawnData|))
      && (forall i :: 0 <= i < |layout.panels| ==> (layout.panels[i].Off? <==> plots <= i))
      && (forall i :: 0 <= i < |drawnData| ==>
            layout.panels[i] == Drawn(Broadcast(functions, |drawnData|)[i], drawnData[i],
                                      BroadcastKwargs(kwargs, |data|, |functions|)[i]))
  {
    var plots := NumberOfPlots(|data|, |functions|);
    RowsCoverPlots(plots, colwrap);
    BroadcastLengths(data, functions, kwargs);
  }

  /** With the two assertions met, a positive `colwrap` and something to
      plot, the corrected `facet_grid` always plans a grid. */
  lemma IntendedAlwaysPlans<D, F>(data: seq<D>, functions: seq<F>, kwargs: seq<Kwargs>, colwrap: int)
    requires ListsMatch(|data|, |functions|) && KwargsMatch(|kwargs|, |data|, |functions|)
    requires colwrap >= 1 && (data != [] || functions != [])
    ensures FacetGridOutcome(data, functions, kwargs, colwrap).Ok?
    ensures FacetGridOutcome(data, functions, kwargs, colwrap).value.rows >= 1
  {
    var plots := NumberOfPlots(|data|, |functions|);
    RowsCoverPlots(plots, colwrap);
  }

  /** As written, one signal and one function in one column raise
      `AttributeError`, where the corrected plan draws the single axis. */
  lemma SingleAxisFails<D, F>(x: D, f: F)
    ensures FacetGridAsWritten([x], [f], [], 1) == Err(AttributeError(NoFlatten))
    ensures FacetGridOutcome([x], [f], [], 1) == Ok(Layout(1, 1, [Drawn(f, x, map[])]))
  {
    var layout := FacetGridOutcome([x], [f], [], 1).value;
    assert NumberOfRows(1, 1) == 1;
    LayoutPanels([x], [f], [], 1);
    assert layout.panels == [Drawn(f, x, map[])];
  }

  /** The written and corrected versions differ only on that one-by-one
      grid. */
  lemma AsWrittenDiffersOnlyOnSingleAxis<D, F>(data: seq<D>, functions: seq<F>, kwargs: seq<Kwargs>, colwrap: int)
    ensures var planned := FacetGridOutcome(data, functions, kwargs, colwrap);
      FacetGridAsWritten(data, functions, kwargs, colwrap) != planned
      <==> planned.Ok? && planned.value.rows * colwrap == 1 && Broadcast(data, |functions|) != []
  {
  }

  /** `facet_grid` as written: rebinds the keyword-argument, signal and
      function lists, then fills the grid's axes, failing on a one-by-one
      grid with something to draw. */
  method FacetGrid<D, F>(data: seq<D>, functions: seq<F>, kwargs: seq<Kwargs>, colwrap: int)
    returns (r: Result<Layout<D, F>, PlotError>)
    ensures r == FacetGridAsWritten(data, functions, kwargs, colwrap)
  {
    if !ListsMatch(|data|, |functions|) {
      return Err(AssertionError(ListsMismatch));
    }
    if !KwargsMatch(|kwargs|, |data|, |functions|) {
      return Err(AssertionError(KwargsMismatch));
    }
    var plots := Max(|functions|, |data|);
    if colwrap == 0 {
      return Err(ZeroDivisionError);
    }
    if colwrap < 0 || plots == 0 {
      return Err(ValueError(NotPositive));
    }
    var rows := NumberOfRows(plots, colwrap);
    var kwargsList := kwargs;
    if |kwargsList| == 0 {
      kwargsList := Repeat(map[], |data|);
    }
    if |kwargsList| == 1 {
      kwargsList := Repeat(kwargsList[0], |data|);
    }
    if |kwargsList| == 1 {
      kwargsList := Repeat(kwargsList[0], |functions|);
    }
    assert kwargsList == BroadcastKwargs(kwargs, |data|, |functions|);
    var dataList := data;
    if |dataList| == 1 {
      dataList := Repeat(dataList[0], |functions|);
    }
    var functionList := functions;
    if |functionList| == 1 {
      functionList := Repeat(functionList[0], |dataList|);
    }
    assert dataList == Broadcast(data, |functions|) && functionList == Broadcast(functions, |dataList|);
    BroadcastLengths(data, functions, kwargs);
    RowsCoverPlots(plots, colwrap);
    // `plt.subplots(1, 1)` returns a bare `Axes`: the first `axis.flatten()`
    // of the drawing loop fails, and the switch-off loop has nothing to do.
    if rows == 1 && colwrap == 1 && |dataList| > 0 {
      return Err(AttributeError(NoFlatten));
    }
    var panels := FillPanels(dataList, functionList, kwargsList, plots, rows * colwrap);
    r := Ok(Layout(rows, colwrap, panels));
  }

  /** The two loops over the flattened axes: draw the broadcast lists, then
      switch off every axis from `plots` to the end of the grid. */
  method FillPanels<D, F>(data: seq<D>, functions: seq<F>, kwargs: seq<Kwargs>, plots: nat, total: nat)
    returns (panels: seq<Panel<D, F>>)
    requires |data| <= |functions| && |data| <= |kwargs| && |data| <= plots <= total
    ensures panels == Panels(data, functions, kwargs, plots, total)
  {
    var axes := new Panel<D, F>[total](_ => Blank);
    for index := 0 to |data|
      invariant forall i :: 0 <= i < index ==> axes[i] == Drawn(functions[i], data[i], kwargs[i])
      invariant forall i :: index <= i < total ==> axes[i] == Blank
    {
      axes[index] := Drawn(functions[index], data[index], kwargs[index]);
    }
    for index := plots to total
      invariant forall i :: 0 <= i < |data| ==> axes[i] == Drawn(functions[i], data[i], kwargs[i])
      invariant forall i :: |data| <= i < plots ==> axes[i] == Blank
      invariant forall i :: plots <= i < index ==> axes[i] == Off
      invariant forall i :: index <= i < total ==> axes[i] == Blank
    {
      axes[index] := Off;
    }
    panels := axes[..];
  }
}
