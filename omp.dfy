/** The anti-diagonal schedule of `par_omp`.  Steps t = 1 .. LastStep(H, T)
    run one after another; in step t the rows of t's parity are relaxed, each
    only when `i <= t && i > t - 2*T`.  Rows picked in one step are never
    adjacent, so the order in which a parallel loop visits them does not
    change the result; the model visits them top to bottom. */
module OpenMP {
  import opened Stencil

  /** The number of the last step: (2T - 1) + (H - 3). */
  function LastStep(H: int, T: nat): int
  {
    (2 * T - 1) + (H - 3)
  }

  /** Step t relaxes row i: i is in the loop for t's parity (odd rows from 1,
      even rows from 2) and the guard holds. */
  predicate Selected(T: nat, t: int, i: int)
  {
    1 <= i && i % 2 == t % 2 && i <= t && i > t - 2 * T
  }

  /** How many of the steps 1 .. t select row i. */
  function Count(T: nat, i: int, t: int): nat
    decreases t
  {
    if t < 1 then 0 else Count(T, i, t - 1) + (if Selected(T, t, i) then 1 else 0)
  }

  /** Closed form of `Count`: nothing before step i, then one pass every
      second step, T in all. */
  function Done(T: nat, i: int, t: int): nat
  {
    if t < i then 0 else if (t - i) / 2 + 1 < T then (t - i) / 2 + 1 else T
  }

  lemma {:induction false} CountIsDone(T: nat, i: int, t: int)
    requires 1 <= i
    ensures Count(T, i, t) == Done(T, i, t)
    decreases t
  {
    if t >= 1 {
      CountIsDone(T, i, t - 1);
    }
  }

  /** Row i is selected exactly at the steps i, i + 2, ..., i + 2(T - 1). */
  lemma SelectedAt(T: nat, i: int, t: int)
    requires 1 <= i
    ensures Selected(T, t, i) <==> i <= t && (t - i) % 2 == 0 && (t - i) / 2 < T
  {
  }

  /** Over the whole run every inner row is selected exactly T times. */
  lemma SelectedTTimes(H: int, T: nat, i: int)
    requires 1 <= i < H - 1
    ensures Count(T, i, LastStep(H, T)) == T
  {
    CountIsDone(T, i, LastStep(H, T));
  }

  /** Rows relaxed in the same step are pairwise non-adjacent. */
  lemma NonAdjacent(T: nat, t: int, i: int, j: int)
    requires Selected(T, t, i) && Selected(T, t, j) && i != j
    ensures i - j >= 2 || j - i >= 2
  {
  }

  /** When step t relaxes row i for the (c+1)-th time, the row above has
      already had c + 1 passes and the row below c: the order of `seq_alg`. */
  lemma WavefrontOrder(T: nat, t: int, i: int)
    requires Selected(T, t, i)
    ensures Done(T, i, t) == Done(T, i, t - 1) + 1
    ensures i >= 2 ==> Done(T, i - 1, t) == Done(T, i, t)
    ensures Done(T, i + 1, t - 1) == Done(T, i, t - 1)
  {
  }

  /** A row not selected at step t keeps its pass count. */
  lemma Unselected(T: nat, t: int, i: int)
    requires 1 <= i && !Selected(T, t, i)
    ensures Done(T, i, t) == Done(T, i, t - 1)
  {
  }

  /** The grid part-way through step t: rows above i have had their step-t
      passes, the rest stand as after step t - 1. */
  ghost predicate Midway(g: seq<Row>, seed: seq<Row>, T: nat, t: int, i: int)
  {
    |g| == |seed| &&
    forall r :: 0 <= r < |g| ==> g[r] == RowAfter(seed, r, if r < i then Done(T, r, t) else Done(T, r, t - 1))
  }

  /** Visiting row i in step t (relaxing it when selected) moves the grid
      from `Midway` at i to `Midway` at i + 2. */
  lemma VisitRow(g: seq<Row>, seed: seq<Row>, T: nat, t: int, i: int)
    requires 1 <= i < |g| - 1 && i % 2 == t % 2
    requires Midway(g, seed, T, t, i)
    ensures Selected(T, t, i) ==> Midway(g[i := Relaxed(g[i - 1], g[i], g[i + 1])], seed, T, t, i + 2)
    ensures !Selected(T, t, i) ==> Midway(g, seed, T, t, i + 2)
  {
    Unselected(T, t, i + 1);
    if Selected(T, t, i) {
      WavefrontOrder(T, t, i);
      var g' := g[i := Relaxed(g[i - 1], g[i], g[i + 1])];
      assert g'[i] == RowAfter(seed, i, Done(T, i, t));
      forall r | 0 <= r < |g'|
        ensures g'[r] == RowAfter(seed, r, if r < i + 2 then Done(T, r, t) else Done(T, r, t - 1))
      {
        if r != i && r != i + 1 {
          assert g'[r] == g[r];
        }
      }
    } else {
      Unselected(T, t, i);
    }
  }

  /** One step of `par_omp`: the parallel loop over the rows i = first,
      first + 2, ... of step t. */
  method OmpStep(field: array<Row>, T: nat, t: int, first: int, ghost seed: seq<Row>)
    requires first == 1 || first == 2
    requires first % 2 == t % 2 && |seed| == field.Length
    requires forall r :: 0 <= r < field.Length ==> field[r] == RowAfter(seed, r, Done(T, r, t - 1))
    modifies field
    ensures forall r :: 0 <= r < field.Length ==> field[r] == RowAfter(seed, r, Done(T, r, t))
  {
    var i := first;
    if field.Length > 0 {
      PassesAfter(seed, 0, Done(T, 0, t));
      PassesAfter(seed, 0, Done(T, 0, t - 1));
    }
    if first == 2 {
      Unselected(T, t, 1);
    }
    while i < field.Length - 1
      invariant first <= i && i % 2 == t % 2
      invariant Midway(field[..], seed, T, t, i)
    {
      VisitRow(field[..], seed, T, t, i);
      if i <= t && i > t - 2 * T {
        Op(field, i);
      }
      i := i + 2;
    }
    forall r | 0 <= r < field.Length
      ensures field[r] == RowAfter(seed, r, Done(T, r, t))
    {
      assert field[r] == field[..][r];
      if r >= i {
        PassesAfter(seed, r, Done(T, r, t));
        PassesAfter(seed, r, Done(T, r, t - 1));
      }
    }
  }

  /** `par_omp`: LastStep(H, T) steps of alternating parity. */
  method ParOmp(field: array<Row>, T: nat)
    modifies field
    ensures field[..] == Relaxation(old(field[..]), T)
  {
    ghost var seed := field[..];
    var H := field.Length;
    var t := 1;
    while t <= (2 * T - 1) + (H - 3)
      invariant 1 <= t && (t <= LastStep(H, T) + 1 || t == 1)
      invariant forall r :: 0 <= r < H ==> field[r] == RowAfter(seed, r, Done(T, r, t - 1))
    {
      if t % 2 == 1 {
        OmpStep(field, T, t, 1, seed);
      }
      if t % 2 == 0 {
        OmpStep(field, T, t, 2, seed);
      }
      t := t + 1;
    }
    forall r | 0 <= r < H
      ensures field[r] == RowAfter(seed, r, T)
    {
      if 0 < r < H - 1 {
        assert Done(T, r, t - 1) == T;
      } else {
        PassesAfter(seed, r, T);
        PassesAfter(seed, r, Done(T, r, t - 1));
      }
    }
  }
}
