/** `recursive_load_audio` of paderbox/io/audioread.py: every leaf of a
    nested structure of lists, tuples and dicts is loaded with
    `load_audio`; a list whose results are arrays of one shape becomes one
    array with a new leading axis, any other list stays a list, and a dict
    keeps its keys. */
module RecursiveLoad {
  import opened Common
  import opened AudioTypes
  import opened Signals
  import opened AudioLoad

  /** The `path` argument: a leaf, a list or tuple, or a dict (its items in
      insertion order). */
  datatype PathTree =
    | Leaf(path: PathArg)
    | Items(items: seq<PathTree>)
    | Mapping(entries: seq<(string, PathTree)>)

  /** An n-dimensional float array, its elements in row-major order. */
  datatype NdArray = NdArray(shape: seq<nat>, data: seq<real>)

  /** What `recursive_load_audio` returns for each kind of node. */
  datatype LoadedTree =
    | LeafValue(loaded: Loaded)
    | Stacked(arr: NdArray)
    | ListOf(items: seq<LoadedTree>)
    | DictOf(entries: seq<(string, LoadedTree)>)

  /** The keyword arguments of `recursive_load_audio`: those of
      `load_audio` except `channel`, which the leaves leave at `None`. */
  datatype RecursiveParams = RecursiveParams(
    frames: real,
    start: real,
    stop: Option<real>,
    dtype: Option<DType>,
    fillValue: Option<real>,
    expectedSampleRate: Option<nat>,
    unit: Unit,
    returnSampleRate: bool)

  /** The arguments each leaf is loaded with. */
  function LeafParams(q: RecursiveParams): (p: LoadParams)
    ensures p.channel == AllChannels
    ensures p.frames == q.frames && p.start == q.start && p.stop == q.stop && p.unit == q.unit
    ensures p.dtype == q.dtype && p.fillValue == q.fillValue
    ensures p.expectedSampleRate == q.expectedSampleRate && p.returnSampleRate == q.returnSampleRate
  {
    LoadParams(q.frames, q.start, q.stop, AllChannels, q.dtype, q.fillValue, q.expectedSampleRate, q.unit,
               q.returnSampleRate)
  }

  function Concat(rows: seq<seq<real>>): (r: seq<real>)
    ensures rows != [] ==> r == rows[0] + Concat(rows[1..])
  {
    if rows == [] then [] else rows[0] + Concat(rows[1..])
  }

  /** A matrix whose rows all have `w` elements holds `|rows| * w`. */
  lemma {:induction false} ConcatLength(rows: seq<seq<real>>, w: nat)
    requires forall i :: 0 <= i < |rows| ==> |rows[i]| == w
    ensures |Concat(rows)| == |rows| * w
  {
    if rows != [] {
      ConcatLength(rows[1..], w);
      MulSucc(|rows| - 1, w);
    }
  }

  lemma MulSucc(n: nat, w: nat)
    ensures (n + 1) * w == w + n * w
  {
  }

  lemma MulAdd(a: nat, b: nat, w: nat)
    ensures (a + b) * w == a * w + b * w && b * w >= 0
  {
  }

  /** Block `k` of `n` blocks of `size` elements lies inside them. */
  lemma BlockInside(k: nat, n: nat, size: nat, j: nat)
    requires k < n && j < size
    ensures k * size + j < n * size
  {
    MulSucc(k, size);
    MulAdd(k + 1, n - (k + 1), size);
  }

  /** The number of elements of an array of shape `shape`. */
  function Prod(shape: seq<nat>): nat {
    if shape == [] then 1 else shape[0] * Prod(shape[1..])
  }

  /** An array holds exactly as many elements as its shape says. */
  predicate Consistent(x: NdArray) {
    |x.data| == Prod(x.shape)
  }

  /** `np.asarray(a)` of a loaded signal. */
  function AsNdArray(a: Array): (r: NdArray)
    ensures r.shape == Shape(a)
    ensures Consistent(r)
  {
    match a
    case Signal1(v) => NdArray([|v|], v)
    case Signal2(rows, w) =>
      ConcatLength(rows, w);
      assert Prod([|rows|, w]) == |rows| * w by {
        assert Prod([w]) == w;
      }
      NdArray([|rows|, w], Concat(rows))
  }

  /** The array a loaded node stands for, if it is one: a signal (without
      the rate) or an already stacked list. */
  function ArrayOf(t: LoadedTree): Option<NdArray> {
    match t
    case LeafValue(Plain(a)) => Some(AsNdArray(a))
    case Stacked(x) => Some(x)
    case _ => None
  }

  /** A node that is an array holds as many elements as its shape says. */
  predicate ArrayConsistent(t: LoadedTree) {
    ArrayOf(t).Some? ==> Consistent(ArrayOf(t).value)
  }

  /** True when every item is an array of the shape `shape`. */
  predicate AllArraysOfShape(items: seq<LoadedTree>, shape: seq<nat>) {
    forall i :: 0 <= i < |items| ==> ArrayOf(items[i]).Some? && ArrayOf(items[i]).value.shape == shape
  }

  /** The elements of the stacked arrays, one after the other. */
  function StackData(items: seq<LoadedTree>): seq<real>
    requires forall i :: 0 <= i < |items| ==> ArrayOf(items[i]).Some?
  {
    if items == [] then [] else ArrayOf(items[0]).value.data + StackData(items[1..])
  }

  /** When every item holds `size` elements, the stacked data holds
      `|items|` blocks of them. */
  lemma {:induction false} StackDataLength(items: seq<LoadedTree>, size: nat)
    requires forall i :: 0 <= i < |items| ==> ArrayOf(items[i]).Some? && |ArrayOf(items[i]).value.data| == size
    ensures |StackData(items)| == |items| * size
  {
    if items != [] {
      StackDataLength(items[1..], size);
      MulSucc(|items| - 1, size);
    }
  }

  /** Element `j` of block `k` of the stacked data. */
  lemma {:induction false} StackDataAt(items: seq<LoadedTree>, size: nat, k: nat, j: nat)
    requires forall i :: 0 <= i < |items| ==> ArrayOf(items[i]).Some? && |ArrayOf(items[i]).value.data| == size
    requires k < |items| && j < size
    ensures k * size + j < |StackData(items)| && StackData(items)[k * size + j] == ArrayOf(items[k]).value.data[j]
  {
    StackDataLength(items, size);
    BlockInside(k, |items|, size, j);
    var first, rest := ArrayOf(items[0]).value.data, StackData(items[1..]);
    assert StackData(items) == first + rest;
    if k > 0 {
      StackDataAt(items[1..], size, k - 1, j);
      MulSucc(k - 1, size);
      assert items[1..][k - 1] == items[k];
    }
  }

  /** Lines 389-398: `np.array(data)` succeeds with a numeric array exactly
      when all items are arrays of one shape; the empty list gives an
      array of shape (0,). Otherwise the list itself is returned. */
  function StackOrList(items: seq<LoadedTree>): (r: LoadedTree)
    ensures r.Stacked? || r == ListOf(items)
    ensures r.Stacked? <==> items == [] || (ArrayOf(items[0]).Some? && AllArraysOfShape(items, ArrayOf(items[0]).value.shape))
    ensures r.Stacked? && items != [] ==> r.arr.shape == [|items|] + ArrayOf(items[0]).value.shape
    ensures r.Stacked? && items == [] ==> r.arr.shape == [0]
  {
    if items == [] then Stacked(NdArray([0], []))
    else if ArrayOf(items[0]).Some? && AllArraysOfShape(items, ArrayOf(items[0]).value.shape) then
      Stacked(NdArray([|items|] + ArrayOf(items[0]).value.shape, StackData(items)))
    else ListOf(items)
  }

  /** A stack of arrays that each hold as many elements as their shape
      says does too. */
  lemma StackedShape(items: seq<LoadedTree>)
    requires forall i :: 0 <= i < |items| ==> ArrayConsistent(items[i])
    ensures ArrayConsistent(StackOrList(items))
  {
    var r := StackOrList(items);
    if r.Stacked? && items != [] {
      var shape := ArrayOf(items[0]).value.shape;
      StackDataLength(items, Prod(shape));
      assert ([|items|] + shape)[1..] == shape;
    }
  }

  /** Element `j` of block `k` of a stacked list is element `j` of item
      `k`: `np.array(data)[k]` is `data[k]`. */
  lemma StackedElement(items: seq<LoadedTree>, k: nat, j: nat)
    requires StackOrList(items).Stacked? && items != []
    requires forall i :: 0 <= i < |items| ==> ArrayConsistent(items[i])
    requires k < |items| && j < Prod(ArrayOf(items[0]).value.shape)
    ensures var size := Prod(ArrayOf(items[0]).value.shape);
            var x := StackOrList(items).arr;
            && k * size + j < |x.data| && j < |ArrayOf(items[k]).value.data|
            && x.data[k * size + j] == ArrayOf(items[k]).value.data[j]
  {
    StackDataAt(items, Prod(ArrayOf(items[0]).value.shape), k, j);
  }

  /** `recursive_load_audio(tree, **q)`: the first error raised anywhere
      (in list and dict order) is the result. */
  function RecursiveLoadAudio(dec: Decoder, tree: PathTree, q: RecursiveParams): (r: Result<LoadedTree, LoadError>)
    ensures tree.Leaf? ==> r.Ok? == LoadAudioOutcome(dec, tree.path, LeafParams(q)).Ok?
    ensures tree.Leaf? && r.Ok? ==> r.value == LeafValue(LoadAudioOutcome(dec, tree.path, LeafParams(q)).value)
    ensures tree.Mapping? && r.Ok? ==>
              r.value.DictOf? && |r.value.entries| == |tree.entries|
              && forall i :: 0 <= i < |tree.entries| ==> r.value.entries[i].0 == tree.entries[i].0
    ensures tree.Items? && r.Ok? ==> r.value.Stacked? || (r.value.ListOf? && |r.value.items| == |tree.items|)
    ensures tree.Items? && r.Ok? ==> LoadItems(dec, tree.items, q).Ok?
    ensures tree.Items? && r.Ok? ==>
              var loaded := LoadItems(dec, tree.items, q).value;
              && (r.value.Stacked? <==> loaded == [] || (ArrayOf(loaded[0]).Some?
                                                         && AllArraysOfShape(loaded, ArrayOf(loaded[0]).value.shape)))
              && (r.value.ListOf? ==> r.value.items == loaded)
    ensures r.Ok? ==> ArrayConsistent(r.value)
    decreases tree, 1
  {
    match tree
    case Leaf(path) =>
      var loaded :- LoadAudioOutcome(dec, path, LeafParams(q));
      Ok(LeafValue(loaded))
    case Items(items) =>
      var loaded :- LoadItems(dec, items, q);
      StackedShape(loaded);
      Ok(StackOrList(loaded))
    case Mapping(entries) =>
      var loaded :- LoadEntries(dec, entries, q);
      Ok(DictOf(loaded))
  }

  /** The list comprehension of line 387: each item loaded in order. */
  function LoadItems(dec: Decoder, items: seq<PathTree>, q: RecursiveParams): (r: Result<seq<LoadedTree>, LoadError>)
    ensures r.Ok? ==> |r.value| == |items|
    ensures r.Ok? ==> forall i :: 0 <= i < |items| ==> RecursiveLoadAudio(dec, items[i], q) == Ok(r.value[i])
    ensures r.Ok? ==> forall i :: 0 <= i < |items| ==> ArrayConsistent(r.value[i])
    ensures r.Err? ==> exists i :: 0 <= i < |items| && RecursiveLoadAudio(dec, items[i], q) == Err(r.error)
                                   && forall j :: 0 <= j < i ==> RecursiveLoadAudio(dec, items[j], q).Ok?
    decreases items, 0
  {
    if items == [] then Ok([])
    else
      var first :- RecursiveLoadAudio(dec, items[0], q);
      var rest :- LoadItems(dec, items[1..], q);
      Ok([first] + rest)
  }

  /** The dict comprehension of line 400: each value loaded in order, each
      under its own key. */
  function LoadEntries(dec: Decoder, entries: seq<(string, PathTree)>, q: RecursiveParams)
    : (r: Result<seq<(string, LoadedTree)>, LoadError>)
    ensures r.Ok? ==> |r.value| == |entries|
    ensures r.Ok? ==> forall i :: 0 <= i < |entries| ==> r.value[i].0 == entries[i].0
    decreases entries, 0
  {
    if entries == [] then Ok([])
    else
      var (key, value) := entries[0];
      assert value < entries[0];
      var first :- RecursiveLoadAudio(dec, value, q);
      var rest :- LoadEntries(dec, entries[1..], q);
      Ok([(key, first)] + rest)
  }

  /** A dict maps each key to what its value loads to on its own. */
  lemma {:induction false} DictValuesLoaded(dec: Decoder, entries: seq<(string, PathTree)>, q: RecursiveParams)
    requires LoadEntries(dec, entries, q).Ok?
    ensures forall i :: 0 <= i < |entries| ==>
              RecursiveLoadAudio(dec, entries[i].1, q) == Ok(LoadEntries(dec, entries, q).value[i].1)
  {
    if entries != [] {
      DictValuesLoaded(dec, entries[1..], q);
      var r := LoadEntries(dec, entries, q).value;
      var rest := LoadEntries(dec, entries[1..], q).value;
      assert r[1..] == rest;
      forall i | 1 <= i < |entries|
        ensures RecursiveLoadAudio(dec, entries[i].1, q) == Ok(r[i].1)
      {
        assert entries[1..][i - 1] == entries[i];
      }
    }
  }

  lemma LoadTwo(dec: Decoder, x: PathTree, y: PathTree, q: RecursiveParams, u: LoadedTree, v: LoadedTree)
    requires RecursiveLoadAudio(dec, x, q) == Ok(u) && RecursiveLoadAudio(dec, y, q) == Ok(v)
    ensures LoadItems(dec, [x, y], q) == Ok([u, v])
  {
    assert [x, y][1..] == [y];
    assert [y][1..] == [] && [y][0] == y;
    assert LoadItems(dec, [], q) == Ok([]);
    assert [v] + [] == [v];
    assert LoadItems(dec, [y], q) == Ok([v]);
    assert [x, y][0] == x;
    assert [u] + [v] == [u, v];
  }

  /** An empty list loads to an empty float array of shape (0,). */
  lemma EmptyListStacks(dec: Decoder, q: RecursiveParams)
    ensures RecursiveLoadAudio(dec, Items([]), q) == Ok(Stacked(NdArray([0], [])))
  {
  }

  /** `[p, p]`: two loads of one file are stacked along a new first axis. */
  lemma SameFileTwiceStacks(dec: Decoder, path: PathArg, q: RecursiveParams, a: Array)
    requires LoadAudioOutcome(dec, path, LeafParams(q)) == Ok(Plain(a))
    ensures RecursiveLoadAudio(dec, Items([Leaf(path), Leaf(path)]), q)
            == Ok(Stacked(NdArray([2] + Shape(a), AsNdArray(a).data + AsNdArray(a).data)))
  {
    var leaf := LeafValue(Plain(a));
    LoadTwo(dec, Leaf(path), Leaf(path), q, leaf, leaf);
    StackTwice(leaf);
  }

  /** Two equal arrays stack to one with a new first axis of length 2. */
  lemma StackTwice(t: LoadedTree)
    requires ArrayOf(t).Some?
    ensures StackOrList([t, t]) == Stacked(NdArray([2] + ArrayOf(t).value.shape, ArrayOf(t).value.data + ArrayOf(t).value.data))
  {
    var items := [t, t];
    assert items[1..] == [t] && [t][1..] == [];
    assert StackData([t]) == ArrayOf(t).value.data;
  }

  /** `[p1, p2]` with files of different shapes stays a list. */
  lemma DifferentShapesStayList(dec: Decoder, p1: PathArg, p2: PathArg, q: RecursiveParams, a1: Array, a2: Array)
    requires LoadAudioOutcome(dec, p1, LeafParams(q)) == Ok(Plain(a1))
    requires LoadAudioOutcome(dec, p2, LeafParams(q)) == Ok(Plain(a2))
    requires Shape(a1) != Shape(a2)
    ensures RecursiveLoadAudio(dec, Items([Leaf(p1), Leaf(p2)]), q)
            == Ok(ListOf([LeafValue(Plain(a1)), LeafValue(Plain(a2))]))
  {
    var u, v := LeafValue(Plain(a1)), LeafValue(Plain(a2));
    LoadTwo(dec, Leaf(p1), Leaf(p2), q, u, v);
    TwoShapesStayList(u, v);
  }

  /** Two arrays of different shapes are not stacked. */
  lemma TwoShapesStayList(u: LoadedTree, v: LoadedTree)
    requires ArrayOf(u).Some? && ArrayOf(v).Some? && ArrayOf(u).value.shape != ArrayOf(v).value.shape
    ensures StackOrList([u, v]) == ListOf([u, v])
  {
    assert [u, v][1] == v;
  }

  /** `[p1, (p2, p2)]`: the inner tuple is stacked, and the outer list
      stays a list when that stack and the first signal differ in shape. */
  lemma NestedList(dec: Decoder, p1: PathArg, p2: PathArg, q: RecursiveParams, a1: Array, a2: Array)
    requires LoadAudioOutcome(dec, p1, LeafParams(q)) == Ok(Plain(a1))
    requires LoadAudioOutcome(dec, p2, LeafParams(q)) == Ok(Plain(a2))
    requires Shape(a1) != [2] + Shape(a2)
    ensures RecursiveLoadAudio(dec, Items([Leaf(p1), Items([Leaf(p2), Leaf(p2)])]), q)
            == Ok(ListOf([LeafValue(Plain(a1)),
                          Stacked(NdArray([2] + Shape(a2), AsNdArray(a2).data + AsNdArray(a2).data))]))
  {
    SameFileTwiceStacks(dec, p2, q, a2);
    var inner := Items([Leaf(p2), Leaf(p2)]);
    var stacked := Stacked(NdArray([2] + Shape(a2), AsNdArray(a2).data + AsNdArray(a2).data));
    LoadTwo(dec, Leaf(p1), inner, q, LeafValue(Plain(a1)), stacked);
    TwoShapesStayList(LeafValue(Plain(a1)), stacked);
  }

  /** With `return_sample_rate=True` a leaf is a (signal, rate) pair, so a
      list of files is never stacked. */
  lemma PairsAreNotStacked(dec: Decoder, paths: seq<PathArg>, q: RecursiveParams)
    requires q.returnSampleRate && paths != []
    ensures var r := RecursiveLoadAudio(dec, Items(seq(|paths|, i requires 0 <= i < |paths| => Leaf(paths[i]))), q);
            r.Ok? ==> r.value.ListOf?
  {
    var items := seq(|paths|, i requires 0 <= i < |paths| => Leaf(paths[i]));
    var loaded := LoadItems(dec, items, q);
    if loaded.Ok? {
      assert RecursiveLoadAudio(dec, items[0], q) == Ok(loaded.value[0]);
      assert loaded.value[0].LeafValue? && loaded.value[0].loaded.WithRate?;
    }
  }

  /** The first item that fails makes the whole list fail with its error. */
  lemma FirstErrorWins(dec: Decoder, items: seq<PathTree>, q: RecursiveParams, k: nat)
    requires k < |items| && RecursiveLoadAudio(dec, items[k], q).Err?
    requires forall j :: 0 <= j < k ==> RecursiveLoadAudio(dec, items[j], q).Ok?
    ensures RecursiveLoadAudio(dec, Items(items), q) == Err(RecursiveLoadAudio(dec, items[k], q).error)
  {
    var r := LoadItems(dec, items, q);
    if r.Err? {
      var i :| 0 <= i < |items| && RecursiveLoadAudio(dec, items[i], q) == Err(r.error)
               && forall j :: 0 <= j < i ==> RecursiveLoadAudio(dec, items[j], q).Ok?;
      assert i == k;
    }
  }
}
