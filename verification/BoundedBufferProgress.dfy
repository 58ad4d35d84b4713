/** Progress of the bounded-buffer monitor: how long any run can be, where a run can stop,
    and which of the stopping places are the intended ones. */
module BoundedBufferProgress {
  import opened BoundedBuffer
  import opened BoundedBufferSafety

  /** Nothing can happen but a spurious wake-up. */
  ghost predicate Stuck(s: State) {
    forall a :: Enabled(s, a) ==> a.Spurious()
  }

  predicate Finished(s: State) {
    s.ppc == PReturned && forall i | 0 <= i < |s.cs| :: Returned(s.cs[i])
  }

  /** The producer waits for space, but every consumer left before the producer had set `in_progress`. */
  predicate Abandoned(s: State) {
    && s.ppc == PBlocked
    && |s.buffer| == s.MaxBuffer()
    && forall i | 0 <= i < |s.cs| :: s.cs[i] == CLeftEarly
  }

  /** Deadlock freedom in its exact form: a reachable state has no step left if and only if all
      threads have returned, or every consumer left before the producer started and the buffer is full. */
  lemma StuckExactly(n: nat, script: seq<string>, s: State)
    requires Reachable(n, script, s)
    ensures Stuck(s) <==> Finished(s) || Abandoned(s)
  {
    ReachableInv(n, script, s);
    if Stuck(s) {
      StuckIsExpected(s, script);
    }
    if Finished(s) || Abandoned(s) {
      ReturnedAreStuck(s);
    }
  }

  lemma ReturnedAreStuck(s: State)
    requires Finished(s) || Abandoned(s)
    ensures Stuck(s)
  {
    forall a | Enabled(s, a) ensures a.Spurious() {
      assert a.Consumer? ==> Returned(s.cs[a.i]);
    }
  }

  lemma StuckPositions(s: State)
    requires MutexInv(s) && BufferInv(s) && |s.jobs| == |s.cs| && Stuck(s)
    ensures s.holder.Free? && (s.ppc == PBlocked || s.ppc == PReturned)
    ensures forall i: nat | i < |s.cs| :: s.cs[i] == CBlocked || Returned(s.cs[i])
  {
    var woken := if s.ppc == PSignal then Blocked(s.cs) else {};
    assert !Enabled(s, Producer(woken));
    forall i: nat ensures !ConsumerEnabled(s, i) {
      assert !Enabled(s, Consumer(i));
    }
    var k := if s.holder.ByConsumer? then s.holder.consumer else 0;
    assert !ConsumerEnabled(s, k);
    forall i: nat | i < |s.cs| ensures s.cs[i] == CBlocked || Returned(s.cs[i]) {
      assert !ConsumerEnabled(s, i);
    }
  }

  lemma StuckIsExpected(s: State, script: seq<string>)
    requires Inv(s, script) && Stuck(s)
    ensures Finished(s) || Abandoned(s)
  {
    StuckPositions(s);
    CountIsZero(s.cs, CReacquire);
    CountIsZero(s.cs, CBlocked);
  }

  // ---------------------------------------------------------------- who left early

  lemma StepLeavesNobodyEarly(s: State, a: Action)
    requires Enabled(s, a) && s.ppc != PStart && CLeftEarly !in s.cs
    ensures Apply(s, a).ppc != PStart && CLeftEarly !in Apply(s, a).cs
  {
    match a
    case Producer(woken) => ProducerStepMoves(s, woken);
    case Consumer(i) => ConsumerStepMoves(s, i);
    case _ =>
  }

  lemma {:induction false} NobodyLeavesEarlyAfterStart(s: State, acts: seq<Action>, t: State)
    requires Run(s, acts, t) && s.ppc != PStart
    requires CLeftEarly !in s.cs
    ensures CLeftEarly !in t.cs
    decreases |acts|
  {
    if acts != [] {
      StepLeavesNobodyEarly(s, acts[0]);
      NobodyLeavesEarlyAfterStart(Apply(s, acts[0]), acts[1..], t);
    }
  }

  /** With at least one consumer, and the producer past line 62 before any consumer tests
      `in_progress`, a run can only stop with every thread returned. */
  lemma DeadlockFreeWhenStarted(n: nat, script: seq<string>, acts: seq<Action>, t: State)
    requires n > 0 && acts != [] && acts[0] == Producer({})
    requires Run(Init(n, script), acts, t)
    ensures Stuck(t) <==> Finished(t)
  {
    assert Reachable(n, script, t);
    ReachableInv(n, script, t);
    StuckExactly(n, script, t);
    NobodyLeavesEarlyAfterStart(Apply(Init(n, script), acts[0]), acts[1..], t);
    assert t.cs[0] != CLeftEarly;
  }

  // ---------------------------------------------------------------- every run is bounded

  function ConsumerRank(c: ConsumerPc): nat {
    match c
    case CSignal => 11
    case CUnlock => 7
    case CWork => 6
    case CLoop => 5
    case CLock | CReacquire | CSpurious => 4
    case CTest => 3
    case CDone | CPop => 2
    case CWait | CUnlockExit => 1
    case _ => 0
  }

  function ProducerRank(p: ProducerPc, n: nat): nat {
    match p
    case PReacquire | PLock => 22 + 8 * n
    case PTest => 21 + 8 * n
    case PWait => 20 + 8 * n
    case PPush => 20 + 8 * n
    case PBlocked => 19 + 8 * n
    case PSignal => 8 + 8 * n
    case PStart => 7 + 4 * n
    case PUnlock => 7 + 4 * n
    case PRead => 6 + 4 * n
    case PSetDone => 5 + 4 * n
    case PLockLast => 4 + 4 * n
    case PBroadcast => 3 + 4 * n
    case PUnlockLast => 2
    case PClear => 1
    case PReturned => 0
  }

  function SumRank(cs: seq<ConsumerPc>): nat {
    if cs == [] then 0 else SumRank(cs[..|cs| - 1]) + ConsumerRank(cs[|cs| - 1])
  }

  /** What `k` unread lines may still cost with `n` consumers. */
  function LinesCost(n: nat, k: nat): nat { if k == 0 then 0 else 17 + 4 * n + LinesCost(n, k - 1) }

  lemma {:induction false} LinesCostProduct(n: nat, k: nat)
    ensures LinesCost(n, k) == (17 + 4 * n) * k
  {
    if k > 0 { LinesCostProduct(n, k - 1); }
  }

  /** Queued commands, unread lines and the positions of all threads, weighted so that every step
      that is not a spurious wake-up lowers the total. */
  function Measure(s: State): nat {
    LinesCost(|s.cs|, |s.input|) + ProducerRank(s.ppc, |s.cs|) + 10 * |s.buffer| + SumRank(s.cs)
  }

  lemma {:induction false} SumRankUpdate(cs: seq<ConsumerPc>, i: nat, v: ConsumerPc)
    requires i < |cs|
    ensures SumRank(cs[i := v]) == SumRank(cs) - ConsumerRank(cs[i]) + ConsumerRank(v)
  {
    var m := |cs| - 1;
    if i < m {
      assert cs[i := v][..m] == cs[..m][i := v];
      SumRankUpdate(cs[..m], i, v);
    } else {
      assert cs[i := v][..m] == cs[..m];
    }
  }

  lemma {:induction false} SumRankWake(cs: seq<ConsumerPc>, woken: set<nat>)
    ensures SumRank(Wake(cs, woken)) <= SumRank(cs) + 4 * |cs|
  {
    if cs != [] {
      var m := |cs| - 1;
      assert Wake(cs, woken)[..m] == Wake(cs[..m], woken);
      SumRankWake(cs[..m], woken);
    }
  }

  lemma {:induction false} SumRankStart(n: nat)
    ensures SumRank(seq(n, _ => CLoop)) == 5 * n
  {
    if n > 0 {
      assert seq(n, _ => CLoop)[..n - 1] == seq(n - 1, _ => CLoop);
      SumRankStart(n - 1);
    }
  }

  lemma WakingStepDescends(s: State, woken: set<nat>)
    requires ProducerEnabled(s, woken) && (s.ppc == PSignal || s.ppc == PBroadcast)
    ensures Measure(ProducerStep(s, woken)) < Measure(s)
  {
    SumRankWake(s.cs, if s.ppc == PSignal then woken else Blocked(s.cs));
  }

  lemma ProducerStepDescends(s: State, woken: set<nat>)
    requires ProducerEnabled(s, woken)
    ensures Measure(ProducerStep(s, woken)) < Measure(s)
  {
    if s.ppc == PSignal || s.ppc == PBroadcast {
      WakingStepDescends(s, woken);
    } else {
      var t := ProducerStep(s, woken);
      assert t.cs == s.cs;
      assert s.ppc != PRead ==> t.input == s.input;
      assert s.ppc != PPush ==> t.buffer == s.buffer;
      assert s.ppc != PRead && s.ppc != PPush ==> ProducerRank(t.ppc, |t.cs|) < ProducerRank(s.ppc, |s.cs|);
    }
  }

  lemma ConsumerStepDescends(s: State, i: nat)
    requires ConsumerEnabled(s, i)
    ensures Measure(ConsumerStep(s, i)) < Measure(s)
  {
    var t := ConsumerStep(s, i);
    SumRankUpdate(s.cs, i, t.cs[i]);
    assert t.input == s.input && |t.cs| == |s.cs|;
  }

  lemma SpuriousStepCost(s: State, a: Action)
    requires Enabled(s, a) && a.Spurious()
    ensures Measure(Apply(s, a)) <= Measure(s) + 4
  {
    if a.SpuriousConsumer? { SumRankUpdate(s.cs, a.i, CSpurious); }
  }

  lemma {:induction false} RunDescends(s: State, acts: seq<Action>, t: State)
    requires Run(s, acts, t)
    ensures |acts| + Measure(t) <= Measure(s) + 5 * SpuriousCount(acts)
    decreases |acts|
  {
    if acts != [] {
      match acts[0] {
        case Producer(woken) => ProducerStepDescends(s, woken);
        case Consumer(i) => ConsumerStepDescends(s, i);
        case _ => SpuriousStepCost(s, acts[0]);
      }
      RunDescends(Apply(s, acts[0]), acts[1..], t);
    }
  }

  /** Total correctness needs no fairness: whatever the scheduler does, a run on `n` consumers has
      at most this many steps, plus five for every spurious wake-up. */
  lemma EveryRunIsBounded(n: nat, script: seq<string>, acts: seq<Action>, t: State)
    requires Run(Init(n, script), acts, t)
    ensures |acts| <= (17 + 4 * n) * |script| + 9 * n + 7 + 5 * SpuriousCount(acts)
  {
    RunDescends(Init(n, script), acts, t);
    LinesCostProduct(n, |script|);
    SumRankStart(n);
  }

  lemma StepPastBroadcast(s: State, a: Action)
    requires Enabled(s, a) && PastBroadcast(s.ppc)
    ensures PastBroadcast(Apply(s, a).ppc)
    ensures FlagInv(s) ==> !a.Spurious()
  {
  }

  lemma {:induction false} PastBroadcastStays(s: State, acts: seq<Action>, t: State)
    requires Run(s, acts, t) && PastBroadcast(s.ppc)
    ensures PastBroadcast(t.ppc)
    decreases |acts|
  {
    if acts != [] {
      StepPastBroadcast(s, acts[0]);
      PastBroadcastStays(Apply(s, acts[0]), acts[1..], t);
    }
  }

  lemma {:induction false} SumRankBound(cs: seq<ConsumerPc>)
    ensures SumRank(cs) <= 11 * |cs|
  {
    if cs != [] { SumRankBound(cs[..|cs| - 1]); }
  }

  /** Shutdown.  `done` is set outside the mutex, yet once the broadcast has happened no consumer
      is blocked or about to block, now or ever again; the run is over within a number of steps
      given by the queue and the number of consumers, and it can only stop with all threads returned. */
  lemma ShutdownHandOff(n: nat, script: seq<string>, s: State, acts: seq<Action>, t: State)
    requires Reachable(n, script, s) && PastBroadcast(s.ppc)
    requires Run(s, acts, t)
    ensures CBlocked !in t.cs && CWait !in t.cs && t.ppc != PBlocked
    ensures |acts| <= 10 * |s.buffer| + 11 * n + 2
    ensures Stuck(t) <==> Finished(t)
  {
    PastBroadcastStays(s, acts, t);
    ReachableMore(n, script, s, acts, t);
    ReachableInv(n, script, s);
    ReachableInv(n, script, t);
    ShortAfterBroadcast(s, acts, t, script);
    StuckExactly(n, script, t);
  }

  lemma ShortAfterBroadcast(s: State, acts: seq<Action>, t: State, script: seq<string>)
    requires Inv(s, script) && PastBroadcast(s.ppc) && Run(s, acts, t)
    ensures |acts| <= 10 * |s.buffer| + 11 * |s.cs| + 2
  {
    NothingSpuriousPastBroadcast(s, acts, t, script);
    RunDescends(s, acts, t);
    SumRankBound(s.cs);
  }

  lemma {:induction false} NothingSpuriousPastBroadcast(s: State, acts: seq<Action>, t: State, script: seq<string>)
    requires Inv(s, script) && PastBroadcast(s.ppc) && Run(s, acts, t)
    ensures SpuriousCount(acts) == 0
    decreases |acts|
  {
    if acts != [] {
      StepKeepsInv(s, acts[0], script);
      StepPastBroadcast(s, acts[0]);
      NothingSpuriousPastBroadcast(Apply(s, acts[0]), acts[1..], t, script);
    }
  }
}
