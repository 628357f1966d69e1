/** The token protocol of the Templet engine (test.cpp:120-220) as a state
    machine over values, run by a single worker.  Actor `pid` (0 .. N-1)
    owns grid row pid + 1; channel c (0 .. N-2) sits between actors c and
    c + 1.  The functions here specify the engine's methods; the lemmas prove
    what the protocol guarantees. */
module Protocol {
  import opened Stencil

  /** A boundary channel (`struct chan`): the actor the token is for, and
      whether the token is still waiting in the ready queue. */
  datatype Chan = Chan(addressee: nat, sending: bool)

  /** The engine's ready queue of channel indices, the channels `cs`, the
      iteration counters `ts` and the grid `field`. */
  datatype State = State(ready: seq<nat>, cs: seq<Chan>, ts: seq<int>, field: seq<Row>)

  /** At least two actors, one channel fewer, and the grid's N + 2 rows. */
  predicate Sized(s: State)
  {
    |s.ts| >= 2 && |s.cs| == |s.ts| - 1 && |s.field| == |s.ts| + 2
  }

  /** `access`: the token on c is for p and has been taken out of the queue. */
  predicate Access(c: Chan, p: nat)
  {
    c.addressee == p && !c.sending
  }

  /** `send`: suppressed while the channel's token is in flight; otherwise
      the token is addressed to p and the channel queued at the back. */
  function Send(s: State, c: nat, p: nat): State
    requires c < |s.cs|
  {
    if s.cs[c].sending then s
    else s.(cs := s.cs[c := Chan(p, true)], ready := s.ready + [c])
  }

  /** The gate in `recv`: both neighbours have handed their token over (an
      edge actor has no neighbour on one side) and passes remain. */
  predicate Ready(T: nat, s: State, pid: nat)
    requires Sized(s) && pid < |s.ts|
  {
    && (pid == 0 || Access(s.cs[pid - 1], pid))
    && (pid == |s.ts| - 1 || Access(s.cs[pid], pid))
    && s.ts[pid] <= T
  }

  /** `op(pid+1); ts[pid]++`: relax actor pid's row and count the pass. */
  function Relax(s: State, pid: nat): State
    requires Sized(s) && pid < |s.ts|
  {
    s.(field := s.field[pid + 1 := Relaxed(s.field[pid], s.field[pid + 1], s.field[pid + 2])],
       ts := s.ts[pid := s.ts[pid] + 1])
  }

  /** The two `send`s that close `recv`: a token for each neighbour that
      exists, the one above first. */
  function Notify(s: State, pid: nat): State
    requires Sized(s) && pid < |s.ts|
  {
    var upward := if pid != 0 then Send(s, pid - 1, pid - 1) else s;
    if pid != |s.ts| - 1 then Send(upward, pid, pid + 1) else upward
  }

  /** `recv` of actor pid: when the gate holds, relax row pid + 1, count the
      pass and notify both neighbours; otherwise nothing. */
  function Recv(T: nat, s: State, pid: nat): State
    requires Sized(s) && pid < |s.ts|
  {
    if Ready(T, s, pid) then Notify(Relax(s, pid), pid) else s
  }

  /** The channel at the front of the queue and its addressee exist. */
  predicate CanDispatch(s: State)
  {
    Sized(s) && s.ready != [] && s.ready[0] < |s.cs| && s.cs[s.ready[0]].addressee < |s.ts|
  }

  /** The dequeue half of a worker turn: pop the front channel and clear its
      in-flight flag; its addressee is left as it was. */
  function Pop(s: State): State
    requires CanDispatch(s)
  {
    var c := s.ready[0];
    s.(ready := s.ready[1..], cs := s.cs[c := Chan(s.cs[c].addressee, false)])
  }

  /** One turn of the worker loop in `tfunc`: pop the front channel, clear
      its in-flight flag, run `recv` for its addressee. */
  function Dispatch(T: nat, s: State): State
    requires CanDispatch(s)
  {
    Recv(T, Pop(s), s.cs[s.ready[0]].addressee)
  }

  /** The state `par_tet` builds before starting the workers: every counter
      at 1, channel i addressed to actor i and idle, then one token sent on
      channel 0 to actor 0. */
  function Setup(field: seq<Row>): State
    requires |field| >= 4
  {
    var n := |field| - 2;
    Send(State([], seq(n - 1, i requires 0 <= i => Chan(i, false)), seq(n, _ => 1), field), 0, 0)
  }

  // ---------------------------------------------------------------------
  // The invariant

  /** Each channel is queued at most once, and queued iff it is in flight. */
  ghost predicate QueueOk(s: State)
  {
    && (forall k :: 0 <= k < |s.ready| ==> s.ready[k] < |s.cs|)
    && (forall j, k :: 0 <= j < k < |s.ready| ==> s.ready[j] != s.ready[k])
    && (forall c :: 0 <= c < |s.cs| ==> (s.cs[c].sending <==> c in s.ready))
  }

  /** Counters lie in 1 .. T+1; neighbours differ by at most one, the upper
      never behind; and the token on channel c is for whichever side has
      to move next: the upper actor when both have done the same passes,
      the lower one when the upper is one ahead. */
  ghost predicate TurnOk(T: nat, s: State)
    requires Sized(s)
  {
    && (forall i :: 0 <= i < |s.ts| ==> 1 <= s.ts[i] <= T + 1)
    && (forall c :: 0 <= c < |s.cs| ==>
          && s.ts[c + 1] <= s.ts[c] <= s.ts[c + 1] + 1
          && s.cs[c].addressee == if s.ts[c] == s.ts[c + 1] then c else c + 1)
  }

  /** Every channel next to actor i carries a token addressed to i. */
  predicate HoldsTurn(s: State, i: nat)
    requires Sized(s) && i < |s.ts|
  {
    (i == 0 || s.cs[i - 1].addressee == i) && (i == |s.ts| - 1 || s.cs[i].addressee == i)
  }

  /** A channel next to actor i is in flight. */
  predicate Pending(s: State, i: nat)
    requires Sized(s) && i < |s.ts|
  {
    (i > 0 && s.cs[i - 1].sending) || (i < |s.ts| - 1 && s.cs[i].sending)
  }

  /** No lost wake-up: an unfinished actor that holds both turns still has a
      token on its way to it (except, while it is being dispatched, `skip`). */
  ghost predicate WakeOk(T: nat, s: State, skip: int)
    requires Sized(s)
  {
    forall i :: 0 <= i < |s.ts| && i != skip && s.ts[i] <= T && HoldsTurn(s, i) ==> Pending(s, i)
  }

  /** The border rows are as seeded and actor pid's row has had exactly
      ts[pid] - 1 passes, each in the sequential order. */
  ghost predicate GridOk(seed: seq<Row>, s: State)
    requires Sized(s)
  {
    && |seed| == |s.field|
    && s.field[0] == seed[0]
    && s.field[|seed| - 1] == seed[|seed| - 1]
    && forall i :: 0 <= i < |s.ts| ==> s.ts[i] >= 1 && s.field[i + 1] == RowAfter(seed, i + 1, s.ts[i] - 1)
  }

  ghost predicate Inv(T: nat, seed: seq<Row>, s: State)
  {
    Sized(s) && QueueOk(s) && TurnOk(T, s) && WakeOk(T, s, -1) && GridOk(seed, s)
  }

  // ---------------------------------------------------------------------
  // Properties

  /** `send` keeps the queue and the flags in step. */
  lemma SendKeepsQueue(s: State, c: nat, p: nat)
    requires c < |s.cs| && QueueOk(s)
    ensures QueueOk(Send(s, c, p))
    ensures |Send(s, c, p).ready| <= |s.ready| + 1
  {
    if !s.cs[c].sending {
      var r := Send(s, c, p);
      forall d | 0 <= d < |r.cs|
        ensures r.cs[d].sending <==> d in r.ready
      {
        if d != c {
          assert d in r.ready <==> d in s.ready;
        }
      }
    }
  }

  /** The state `par_tet` builds satisfies the invariant. */
  lemma SetupInv(T: nat, seed: seq<Row>)
    requires |seed| >= 4
    ensures Inv(T, seed, Setup(seed))
    ensures Setup(seed).ready == [0]
  {
    var s := Setup(seed);
    assert s.cs[0] == Chan(0, true);
    forall c | 0 <= c < |s.cs|
      ensures s.cs[c].sending <==> c in s.ready
    {
      if c != 0 {
        assert s.cs[c] == Chan(c, false);
      }
    }
    forall i | 0 <= i < |s.ts|
      ensures s.ts[i] >= 1 && s.field[i + 1] == RowAfter(seed, i + 1, s.ts[i] - 1)
    {
    }
  }

  /** When the gate lets actor pid make its k-th pass, the actor above has
      made k passes and the one below k - 1, and the three rows op reads are
      exactly the rows `seq_alg` reads for that pass. */
  lemma PassOrder(T: nat, seed: seq<Row>, s: State, pid: nat)
    requires Sized(s) && pid < |s.ts| && TurnOk(T, s) && GridOk(seed, s) && Ready(T, s, pid)
    ensures pid > 0 ==> s.ts[pid - 1] == s.ts[pid] + 1
    ensures pid < |s.ts| - 1 ==> s.ts[pid + 1] == s.ts[pid]
    ensures s.field[pid] == RowAfter(seed, pid, s.ts[pid])
    ensures s.field[pid + 2] == RowAfter(seed, pid + 2, s.ts[pid] - 1)
    ensures Relaxed(s.field[pid], s.field[pid + 1], s.field[pid + 2]) == RowAfter(seed, pid + 1, s.ts[pid])
  {
    if pid == 0 {
      PassesAfter(seed, 0, s.ts[pid]);
    }
    if pid == |s.ts| - 1 {
      PassesAfter(seed, pid + 2, s.ts[pid] - 1);
    }
  }

  /** How a passing `recv` of actor pid turns s into r, apart from the row
      it relaxes: the counter bumped and tokens queued on exactly the
      channels next to pid, addressed away from it. */
  predicate AfterPass(s: State, r: State, pid: nat)
    requires Sized(s) && pid < |s.ts|
  {
    && Sized(r)
    && r.ts == s.ts[pid := s.ts[pid] + 1]
    && r.ready == s.ready + (if pid > 0 then [pid - 1] else []) + (if pid < |s.ts| - 1 then [pid] else [])
    && (forall c :: 0 <= c < |s.cs| ==>
          r.cs[c] == if c == pid - 1 then Chan(pid - 1, true) else if c == pid then Chan(pid + 1, true) else s.cs[c])
  }

  /** A passing `recv` performs the pass and queues its two tokens. */
  lemma RecvPass(T: nat, s: State, pid: nat)
    requires Sized(s) && pid < |s.ts| && Ready(T, s, pid)
    ensures AfterPass(s, Recv(T, s, pid), pid)
    ensures Recv(T, s, pid).field == s.field[pid + 1 := Relaxed(s.field[pid], s.field[pid + 1], s.field[pid + 2])]
  {
    var n := |s.ts|;
    var relaxed := Relax(s, pid);
    var upward := if pid != 0 then Send(relaxed, pid - 1, pid - 1) else relaxed;
    var up := if pid > 0 then [pid - 1] else [];
    var down := if pid < n - 1 then [pid] else [];
    assert upward.ready == s.ready + up;
    assert upward.ts == relaxed.ts && upward.field == relaxed.field;
    assert pid < n - 1 ==> upward.cs[pid] == s.cs[pid];
    var r := if pid != n - 1 then Send(upward, pid, pid + 1) else upward;
    assert r == Recv(T, s, pid);
    assert r.ready == s.ready + up + down;
    forall c | 0 <= c < |s.cs|
      ensures r.cs[c] == if c == pid - 1 then Chan(pid - 1, true) else if c == pid then Chan(pid + 1, true) else s.cs[c]
    {
      assert upward.cs[c] == if c == pid - 1 then Chan(pid - 1, true) else s.cs[c];
    }
  }

  lemma PassQueueOk(T: nat, s: State, r: State, pid: nat)
    requires Sized(s) && pid < |s.ts| && QueueOk(s) && Ready(T, s, pid) && AfterPass(s, r, pid)
    ensures QueueOk(r)
  {
    var n := |s.ts|;
    forall c | 0 <= c < |r.cs|
      ensures r.cs[c].sending <==> c in r.ready
    {
      assert c in r.ready <==> c in s.ready || (pid > 0 && c == pid - 1) || (pid < n - 1 && c == pid);
    }
    forall j, m | 0 <= j < m < |r.ready|
      ensures r.ready[j] != r.ready[m]
    {
      if m >= |s.ready| {
        assert !s.cs[r.ready[m]].sending;
        assert r.ready[m] !in s.ready;
        if j < |s.ready| {
          assert r.ready[j] in s.ready;
        }
      }
    }
  }

  lemma PassTurnOk(T: nat, seed: seq<Row>, s: State, r: State, pid: nat)
    requires Sized(s) && pid < |s.ts| && TurnOk(T, s) && GridOk(seed, s) && Ready(T, s, pid) && AfterPass(s, r, pid)
    ensures TurnOk(T, r)
  {
    PassOrder(T, seed, s, pid);
    forall c | 0 <= c < |r.cs|
      ensures && r.ts[c + 1] <= r.ts[c] <= r.ts[c + 1] + 1
              && r.cs[c].addressee == if r.ts[c] == r.ts[c + 1] then c else c + 1
    {
      assert r.ts[c] == s.ts[c] || c == pid;
      assert r.ts[c + 1] == s.ts[c + 1] || c + 1 == pid;
    }
  }

  lemma PassWakeOk(T: nat, s: State, r: State, pid: nat)
    requires Sized(s) && pid < |s.ts| && WakeOk(T, s, pid) && AfterPass(s, r, pid)
    ensures WakeOk(T, r, -1)
  {
    var n := |s.ts|;
    forall i | 0 <= i < n && r.ts[i] <= T && HoldsTurn(r, i)
      ensures Pending(r, i)
    {
      if i == pid {
        assert false;
      } else if i != pid - 1 && i != pid + 1 {
        assert i > 0 ==> r.cs[i - 1] == s.cs[i - 1];
        assert i < n - 1 ==> r.cs[i] == s.cs[i];
        assert HoldsTurn(s, i) && s.ts[i] <= T;
      } else if i == pid - 1 {
        assert r.cs[pid - 1].sending;
      } else {
        assert r.cs[pid].sending;
      }
    }
  }

  lemma PassGridOk(T: nat, seed: seq<Row>, s: State, r: State, pid: nat)
    requires Sized(s) && pid < |s.ts| && GridOk(seed, s) && AfterPass(s, r, pid)
    requires TurnOk(T, s) && Ready(T, s, pid)
    requires r.field == s.field[pid + 1 := Relaxed(s.field[pid], s.field[pid + 1], s.field[pid + 2])]
    ensures GridOk(seed, r)
  {
    PassOrder(T, seed, s, pid);
    forall i | 0 <= i < |r.ts|
      ensures r.ts[i] >= 1 && r.field[i + 1] == RowAfter(seed, i + 1, r.ts[i] - 1)
    {
      if i != pid {
        assert r.ts[i] == s.ts[i] && r.field[i + 1] == s.field[i + 1];
      }
    }
  }

  /** `recv` restores the invariant, lost wake-up freedom included, when at
      most the actor it runs for was missing its pending token. */
  lemma RecvInv(T: nat, seed: seq<Row>, s: State, pid: nat)
    requires Sized(s) && pid < |s.ts| && QueueOk(s) && TurnOk(T, s) && GridOk(seed, s) && WakeOk(T, s, pid)
    ensures Inv(T, seed, Recv(T, s, pid))
  {
    if Ready(T, s, pid) {
      RecvPass(T, s, pid);
      var r := Recv(T, s, pid);
      PassQueueOk(T, s, r, pid);
      PassTurnOk(T, seed, s, r, pid);
      PassWakeOk(T, s, r, pid);
      PassGridOk(T, seed, s, r, pid);
    } else if s.ts[pid] <= T && HoldsTurn(s, pid) {
      assert Pending(s, pid);
    }
  }

  /** After a pop the queue still matches the flags: the popped channel was
      queued once, so it is neither queued nor in flight any more. */
  lemma PopQueueOk(s: State)
    requires CanDispatch(s) && QueueOk(s)
    ensures QueueOk(Pop(s))
  {
    var c := s.ready[0];
    var popped := Pop(s);
    forall d | 0 <= d < |popped.cs|
      ensures popped.cs[d].sending <==> d in popped.ready
    {
      if d != c {
        assert d in s.ready <==> d in popped.ready || d == s.ready[0];
      } else {
        assert forall k :: 0 < k < |s.ready| ==> s.ready[k] != s.ready[0];
      }
    }
  }

  /** A pop touches no counter, no addressee and no row. */
  lemma PopTurnGridOk(T: nat, seed: seq<Row>, s: State)
    requires CanDispatch(s) && TurnOk(T, s) && GridOk(seed, s)
    ensures TurnOk(T, Pop(s)) && GridOk(seed, Pop(s))
  {
    var popped := Pop(s);
    assert popped.ts == s.ts && popped.field == s.field;
    assert forall d :: 0 <= d < |s.cs| ==> popped.cs[d].addressee == s.cs[d].addressee;
  }

  /** After a pop only the popped channel's addressee can have lost its
      pending token. */
  lemma PopWakeOk(T: nat, s: State)
    requires CanDispatch(s) && WakeOk(T, s, -1)
    ensures WakeOk(T, Pop(s), s.cs[s.ready[0]].addressee)
  {
    var c := s.ready[0];
    var p := s.cs[c].addressee;
    var popped := Pop(s);
    assert forall d :: 0 <= d < |s.cs| ==> popped.cs[d].addressee == s.cs[d].addressee;
    forall i | 0 <= i < |popped.ts| && i != p && popped.ts[i] <= T && HoldsTurn(popped, i)
      ensures Pending(popped, i)
    {
      assert HoldsTurn(s, i) && Pending(s, i);
    }
  }

  /** Under the invariant the front channel and its addressee exist. */
  lemma FrontExists(T: nat, seed: seq<Row>, s: State)
    requires Inv(T, seed, s) && s.ready != []
    ensures CanDispatch(s)
  {
    var c := s.ready[0];
    assert c < |s.cs|;
    assert TurnOk(T, s);
    assert s.cs[c].addressee == if s.ts[c] == s.ts[c + 1] then c else c + 1;
  }

  /** One dispatch step preserves the invariant. */
  lemma DispatchInv(T: nat, seed: seq<Row>, s: State)
    requires Inv(T, seed, s) && s.ready != []
    ensures CanDispatch(s)
    ensures Inv(T, seed, Dispatch(T, s))
  {
    FrontExists(T, seed, s);
    PopQueueOk(s);
    PopTurnGridOk(T, seed, s);
    PopWakeOk(T, s);
    RecvInv(T, seed, Pop(s), s.cs[s.ready[0]].addressee);
  }

  // ---------------------------------------------------------------------
  // Termination and quiescence

  /** Passes still to be made: T + 1 - ts[i] summed over the actors. */
  function Outstanding(T: nat, ts: seq<int>): int
  {
    if ts == [] then 0 else (T + 1 - ts[0]) + Outstanding(T, ts[1..])
  }

  lemma {:induction false} OutstandingBump(T: nat, ts: seq<int>, i: nat)
    requires i < |ts|
    ensures Outstanding(T, ts[i := ts[i] + 1]) == Outstanding(T, ts) - 1
  {
    if i == 0 {
      assert ts[i := ts[i] + 1][1..] == ts[1..];
    } else {
      assert ts[i := ts[i] + 1][1..] == ts[1..][i - 1 := ts[i] + 1];
      OutstandingBump(T, ts[1..], i - 1);
    }
  }

  /** With every counter in 1 .. T+1, nothing is outstanding exactly when
      every actor has made all T passes. */
  lemma {:induction false} OutstandingBounds(T: nat, ts: seq<int>)
    requires forall i :: 0 <= i < |ts| ==> 1 <= ts[i] <= T + 1
    ensures Outstanding(T, ts) >= 0
    ensures Outstanding(T, ts) == 0 <==> forall i :: 0 <= i < |ts| ==> ts[i] == T + 1
  {
    if ts != [] {
      OutstandingBounds(T, ts[1..]);
      if Outstanding(T, ts) == 0 {
        forall i | 0 <= i < |ts|
          ensures ts[i] == T + 1
        {
          if i > 0 {
            assert ts[i] == ts[1..][i - 1];
          }
        }
      }
      if forall i :: 0 <= i < |ts| ==> ts[i] == T + 1 {
        assert forall i :: 0 <= i < |ts[1..]| ==> ts[1..][i] == ts[i + 1];
      }
    }
  }

  /** A pass costs three units, a queued channel one. */
  function Measure(T: nat, s: State): int
  {
    3 * Outstanding(T, s.ts) + |s.ready|
  }

  /** Every dispatch step strictly lowers the measure, which never drops
      below zero: the single worker drains the queue in finitely many steps. */
  lemma DispatchProgress(T: nat, seed: seq<Row>, s: State)
    requires Inv(T, seed, s) && s.ready != []
    ensures CanDispatch(s)
    ensures 0 <= Measure(T, Dispatch(T, s)) < Measure(T, s)
  {
    DispatchInv(T, seed, s);
    var popped := Pop(s);
    var p := s.cs[s.ready[0]].addressee;
    assert |popped.ready| == |s.ready| - 1 && popped.ts == s.ts;
    if Ready(T, popped, p) {
      RecvPass(T, popped, p);
      OutstandingBump(T, popped.ts, p);
    }
    var r := Dispatch(T, s);
    assert TurnOk(T, r);
    OutstandingBounds(T, r.ts);
  }

  /** Along the rows the counters never increase. */
  lemma {:induction false} Descending(T: nat, s: State, i: nat, j: nat)
    requires Sized(s) && TurnOk(T, s) && i <= j < |s.ts|
    ensures s.ts[j] <= s.ts[i]
    decreases j - i
  {
    if i < j {
      assert s.ts[i + 1] <= s.ts[i];
      Descending(T, s, i + 1, j);
    }
  }

  /** If the last actor is unfinished, some unfinished actor at or above j
      holds both its turns: the topmost one level with the last actor. */
  lemma {:induction false} FindStalled(T: nat, s: State, j: nat) returns (k: nat)
    requires Sized(s) && TurnOk(T, s) && j < |s.ts| && s.ts[j] == s.ts[|s.ts| - 1] <= T
    ensures k <= j && s.ts[k] <= T && HoldsTurn(s, k)
    decreases j
  {
    var n := |s.ts|;
    if j > 0 && s.ts[j - 1] == s.ts[j] {
      k := FindStalled(T, s, j - 1);
    } else {
      k := j;
      if j < n - 1 {
        Descending(T, s, j + 1, n - 1);
        assert s.ts[j + 1] <= s.ts[j];
      }
    }
  }

  /** When the queue runs empty every actor has made exactly T passes and
      the grid is the sequential result: no wake-up was lost. */
  lemma Quiescence(T: nat, seed: seq<Row>, s: State)
    requires Inv(T, seed, s) && s.ready == []
    ensures forall i :: 0 <= i < |s.ts| ==> s.ts[i] == T + 1
    ensures s.field == Relaxation(seed, T)
  {
    var n := |s.ts|;
    if s.ts[n - 1] <= T {
      var k := FindStalled(T, s, n - 1);
      assert false;
    }
    forall i | 0 <= i < n
      ensures s.ts[i] == T + 1
    {
      Descending(T, s, i, n - 1);
    }
    forall r | 0 <= r < |seed|
      ensures s.field[r] == Relaxation(seed, T)[r]
    {
      if 0 < r < |seed| - 1 {
        assert s.ts[r - 1] == T + 1;
      } else {
        PassesAfter(seed, r, T);
      }
    }
  }
}
