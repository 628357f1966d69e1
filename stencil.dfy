/** The four-point stencil, at the granularity of whole rows.
    One pass `op(i)` rewrites every inner cell of row i from its left and right
    neighbours in the same row and the cells directly above and below.  The new
    row is therefore a deterministic function of three rows of the grid: the
    row above, the row itself and the row below, as they stand when the pass
    starts.  A `Row` records that dataflow symbolically, so two runs produce
    bit-identical grids whenever they produce equal `Row` terms. */
module Stencil {

  /** The contents of one grid row: as seeded before the run, or the result
      of one relaxation pass over `self` that read `up` and `down`. */
  datatype Row = Seeded(id: int) | Relaxed(up: Row, self: Row, down: Row)

  /** The number of relaxation passes applied to a row since it was seeded. */
  function Passes(r: Row): nat
  {
    match r
    case Seeded(_) => 0
    case Relaxed(_, self, _) => 1 + Passes(self)
  }

  /** Row i of a grid seeded with `seed`, after k passes of the sequential
      sweep: within a pass the rows go top to bottom, so a row reads the row
      above as already relaxed k times and the row below as relaxed k - 1
      times.  The first and the last row are never relaxed. */
  function RowAfter(seed: seq<Row>, i: nat, k: nat): Row
    requires i < |seed|
    decreases k, i
  {
    if i == 0 || i == |seed| - 1 || k == 0 then seed[i]
    else Relaxed(RowAfter(seed, i - 1, k), RowAfter(seed, i, k - 1), RowAfter(seed, i + 1, k - 1))
  }

  /** The whole grid after k sequential passes. */
  function Relaxation(seed: seq<Row>, k: nat): (g: seq<Row>)
    ensures |g| == |seed|
  {
    seq(|seed|, i requires 0 <= i < |seed| => RowAfter(seed, i, k))
  }

  /** Every inner row of the relaxed grid has had exactly k passes applied
      to it, and the border rows none. */
  lemma {:induction false} PassesAfter(seed: seq<Row>, i: nat, k: nat)
    requires i < |seed|
    ensures 0 < i < |seed| - 1 ==> Passes(RowAfter(seed, i, k)) == Passes(seed[i]) + k
    ensures i == 0 || i == |seed| - 1 ==> RowAfter(seed, i, k) == seed[i]
  {
    if 0 < i < |seed| - 1 && k > 0 {
      PassesAfter(seed, i, k - 1);
    }
  }

  /** A row relaxed a different number of times is a different row: reading a
      neighbour one pass too early or too late changes the result. */
  lemma StagesDiffer(seed: seq<Row>, i: nat, k: nat, k': nat)
    requires 0 < i < |seed| - 1 && k != k'
    ensures RowAfter(seed, i, k) != RowAfter(seed, i, k')
  {
    PassesAfter(seed, i, k);
    PassesAfter(seed, i, k');
  }

  /** One pass of the stencil over row i of `field` (test.cpp `op` and `op1`). */
  method Op(field: array<Row>, i: nat)
    requires 0 < i < field.Length - 1
    modifies field
    ensures field[..] == old(field[..])[i := Relaxed(old(field[i - 1]), old(field[i]), old(field[i + 1]))]
  {
    field[i] := Relaxed(field[i - 1], field[i], field[i + 1]);
  }
}
