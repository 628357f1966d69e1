/** One trial of the benchmark in test.cpp `main`: the sequential baseline on
    one grid, then `par_omp` and `par_tet` on a second grid reseeded before
    each, each compared against the baseline. */
module Harness {
  import opened Stencil
  import Sequential
  import OpenMP
  import Templet

  /** Fill the grid with the given seed rows (the part of `shufle` and
      `shufle_seq` that is kept: their `rand()` values are the input). */
  method Reseed(field: array<Row>, seed: seq<Row>)
    requires field.Length == |seed|
    modifies field
    ensures field[..] == seed
  {
    for i := 0 to field.Length
      invariant field[..i] == seed[..i]
    {
      field[i] := seed[i];
    }
  }

  /** `compare`: the two grids agree row for row. */
  method Compare(field1: array<Row>, field: array<Row>) returns (same: bool)
    requires field1.Length == field.Length
    ensures same <==> field1[..] == field[..]
  {
    var i := 0;
    while i < field1.Length
      invariant 0 <= i <= field1.Length
      invariant field1[..i] == field[..i]
    {
      if field1[i] != field[i] {
        assert field1[..][i] != field[..][i];
        return false;
      }
      i := i + 1;
    }
    assert field1[..] == field1[..i] && field[..] == field[..i];
    return true;
  }

  /** One trial: both parallel schedules reproduce the sequential grid. */
  method Trial(seed: seq<Row>, T: nat) returns (ompOk: bool, templetOk: bool)
    requires |seed| >= 4
    ensures ompOk && templetOk
  {
    var field1 := new Row[|seed|];
    var field := new Row[|seed|];
    Reseed(field1, seed);
    Sequential.SeqAlg(field1, T);
    Reseed(field, seed);
    OpenMP.ParOmp(field, T);
    ompOk := Compare(field1, field);
    Reseed(field, seed);
    Templet.ParTet(field, T);
    templetOk := Compare(field1, field);
  }
}
