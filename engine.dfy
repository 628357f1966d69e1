/** The Templet engine of test.cpp:120-223 with one worker thread: the ready
    queue of `engine`, the channels `cs`, the counters `ts` and the grid the
    actors relax.  Actor pid stands for `ps[pid]`, and channel c for `cs[c]`.
    Each method is specified by the function of the same name in `Protocol`. */
module Templet {
  import opened Stencil
  import P = Protocol

  class Engine {
    /** Grid height; the actors own rows 1 .. H-2. */
    const H: nat
    /** Number of passes each row makes. */
    const T: nat
    /** Number of row actors, H - 2. */
    const N: nat
    /** The grid as it was when the engine was set up. */
    ghost const seed: seq<Row>

    /** `engine::ready`: channel indices in FIFO order. */
    var ready: seq<nat>
    /** `cs`: the N - 1 boundary channels. */
    const cs: array<P.Chan>
    /** `ts`: per-actor iteration counters. */
    const ts: array<int>
    /** `field`: the grid, shared with the caller. */
    const field: array<Row>

    /** The engine's state as a value. */
    function Snapshot(): P.State
      reads this, cs, ts, field
    {
      P.State(ready, cs[..], ts[..], field[..])
    }

    /** The arrays fit N actors, and N >= 2. */
    ghost predicate Shaped()
      reads this
    {
      N >= 2 && H == N + 2 && |seed| == H && field.Length == H && cs.Length == N - 1 && ts.Length == N
    }

    ghost predicate Valid()
      reads this, cs, ts, field
    {
      Shaped() && P.Inv(T, seed, Snapshot())
    }

    /** The setup part of `par_tet`: every counter at 1, every channel
        addressed to the actor above it and idle, then one token on channel
        0 for actor 0. */
    constructor (field: array<Row>, T: nat)
      requires field.Length >= 4
      ensures this.field == field && this.T == T && seed == field[..]
      ensures fresh(cs) && fresh(ts)
      ensures Valid()
      ensures Snapshot() == P.Setup(field[..])
    {
      var n := field.Length - 2;
      var ts0 := new int[n];
      for i := 0 to n
        invariant forall j :: 0 <= j < i ==> ts0[j] == 1
      {
        ts0[i] := 1;
      }
      var cs0 := new P.Chan[n - 1];
      for i := 0 to n - 1
        invariant forall j :: 0 <= j < i ==> cs0[j] == P.Chan(j, false)
        invariant forall j :: 0 <= j < n ==> ts0[j] == 1
      {
        cs0[i] := P.Chan(i, false);
      }
      H, N, this.T, this.field, seed := field.Length, n, T, field, field[..];
      ts, cs, ready := ts0, cs0, [];
      new;
      assert Snapshot().cs == seq(n - 1, i requires 0 <= i => P.Chan(i, false));
      assert Snapshot().ts == seq(n, _ => 1);
      Send(0, 0);
      P.SetupInv(T, seed);
    }

    /** `send`: a channel already in flight is left alone; otherwise it is
        marked in flight, addressed to p and queued at the back. */
    method Send(c: nat, p: nat)
      requires c < cs.Length
      modifies this`ready, cs
      ensures Snapshot() == P.Send(old(Snapshot()), c, p)
      ensures old(cs[c].sending) ==> ready == old(ready) && cs[..] == old(cs[..])
      ensures !old(cs[c].sending) ==> ready == old(ready) + [c] && cs[..] == old(cs[..])[c := P.Chan(p, true)]
    {
      if cs[c].sending {
        return;
      }
      cs[c] := P.Chan(p, true);
      ready := ready + [c];
    }

    /** `recv` of actor pid: relax its row only when both neighbours have
        handed over their tokens and passes remain, then notify both. */
    method Recv(pid: nat)
      requires Shaped() && pid < N
      modifies this`ready, cs, ts, field
      ensures Snapshot() == P.Recv(T, old(Snapshot()), pid)
    {
      if (pid == 0 || P.Access(cs[pid - 1], pid)) && (pid == N - 1 || P.Access(cs[pid], pid)) && ts[pid] <= T {
        Op(field, pid + 1);
        ts[pid] := ts[pid] + 1;
        assert Snapshot() == P.Relax(old(Snapshot()), pid);
        if pid != 0 {
          Send(pid - 1, pid - 1);
        }
        if pid != N - 1 {
          Send(pid, pid + 1);
        }
      }
    }

    /** One turn of `tfunc` once the queue is non-empty: take the front
        channel, clear its in-flight flag and hand it to its addressee. */
    method Dispatch()
      requires Valid() && ready != []
      modifies this`ready, cs, ts, field
      ensures Valid()
      ensures P.CanDispatch(old(Snapshot())) && Snapshot() == P.Dispatch(T, old(Snapshot()))
    {
      P.DispatchInv(T, seed, Snapshot());
      var c := ready[0];
      ready := ready[1..];
      var p := cs[c].addressee;
      cs[c] := cs[c].(sending := false);
      assert Snapshot() == P.Pop(old(Snapshot()));
      Recv(p);
    }

    /** The single worker's loop: dispatch until the queue is empty.  It
        stops, and then every row has made exactly T passes and the grid is
        the sequential result. */
    method Run()
      requires Valid()
      modifies this`ready, cs, ts, field
      ensures Valid() && ready == []
      ensures forall pid :: 0 <= pid < N ==> ts[pid] == T + 1
      ensures field[..] == Relaxation(seed, T)
    {
      while ready != []
        invariant Valid()
        decreases P.Measure(T, Snapshot())
      {
        P.DispatchProgress(T, seed, Snapshot());
        Dispatch();
      }
      P.Quiescence(T, seed, Snapshot());
    }
  }

  /** `par_tet`: set the engine up on `field` and run it to quiescence. */
  method ParTet(field: array<Row>, T: nat)
    requires field.Length >= 4
    modifies field
    ensures field[..] == Relaxation(old(field[..]), T)
  {
    var e := new Engine(field, T);
    e.Run();
  }
}
