/** The numeric arrays the loader handles: a one-dimensional signal or a
    two-dimensional matrix of rows, and numpy's transpose `.T` on them. */
module Signals {

  /** `Signal2(rows, width)` is a `len(rows)` x `width` matrix; the width is
      kept so that a matrix without rows still has a shape. */
  datatype Signal = Signal1(samples: seq<real>) | Signal2(rows: seq<seq<real>>, width: nat)

  predicate Rectangular(s: Signal) {
    s.Signal2? ==> forall i :: 0 <= i < |s.rows| ==> |s.rows[i]| == s.width
  }

  /** A numpy array of one or two dimensions. */
  type Array = s: Signal | Rectangular(s) witness Signal1([])

  function Shape(s: Signal): seq<nat> {
    match s
    case Signal1(v) => [|v|]
    case Signal2(rows, w) => [|rows|, w]
  }

  /** `a.size`: the number of elements. */
  function Size(s: Signal): nat {
    match s
    case Signal1(v) => |v|
    case Signal2(rows, w) => |rows| * w
  }

  /** `a.T`: a one-dimensional array is unchanged, a matrix is mirrored. */
  function Transpose(s: Array): (r: Array)
    ensures s.Signal1? ==> r == s
    ensures s.Signal2? ==> r.Signal2? && Shape(r) == [s.width, |s.rows|]
    ensures s.Signal2? ==> forall i, j :: 0 <= i < |s.rows| && 0 <= j < s.width ==> r.rows[j][i] == s.rows[i][j]
  {
    match s
    case Signal1(_) => s
    case Signal2(rows, w) =>
      Signal2(seq(w, j requires 0 <= j < w => seq(|rows|, i requires 0 <= i < |rows| => rows[i][j])), |rows|)
  }

  /** Transposing twice gives the matrix back. */
  lemma TransposeTwice(s: Array)
    ensures Transpose(Transpose(s)) == s
  {
    if s.Signal2? {
      var t := Transpose(Transpose(s));
      assert |t.rows| == |s.rows|;
      forall i | 0 <= i < |s.rows| ensures t.rows[i] == s.rows[i] {
        assert |t.rows[i]| == s.width;
      }
    }
  }
}
