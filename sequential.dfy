/** The sequential baseline `seq_alg`: T passes, each sweeping the inner rows
    from top to bottom. */
module Sequential {
  import opened Stencil

  method SeqAlg(field: array<Row>, T: nat)
    modifies field
    ensures field[..] == Relaxation(old(field[..]), T)
  {
    ghost var seed := field[..];
    var H := field.Length;
    var t := 1;
    while t <= T
      invariant 1 <= t <= T + 1
      invariant forall r :: 0 <= r < H ==> field[r] == RowAfter(seed, r, t - 1)
    {
      var i := 1;
      while i < H - 1
        invariant 1 <= i && (i <= H - 1 || H < 2)
        invariant forall r :: 0 <= r < H ==> field[r] == RowAfter(seed, r, if r < i then t else t - 1)
      {
        Op(field, i);
        i := i + 1;
      }
      t := t + 1;
    }
  }
}
