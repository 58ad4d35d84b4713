/** What every step of the bounded-buffer monitor keeps, and what follows for whole runs. */
module BoundedBufferSafety {
  import opened BoundedBuffer

  predicate ProducerHolds(p: ProducerPc) {
    (p.PTest? || p.PWait? || p.PPush? || p.PSignal? || p.PUnlock? || p.PBroadcast? || p.PUnlockLast?)
  }

  predicate ConsumerHolds(c: ConsumerPc) {
    (c.CTest? || c.CDone? || c.CWait? || c.CPop? || c.CSignal? || c.CUnlock? || c.CUnlockExit?)
  }

  predicate PastBroadcast(p: ProducerPc) { (p.PUnlockLast? || p.PClear? || p.PReturned?) }

  predicate Finishing(p: ProducerPc) { (p.PSetDone? || p.PLockLast? || p.PBroadcast? || p.PUnlockLast? || p.PClear? || p.PReturned?) }

  /** The mutex is held by exactly the thread that is between a lock and an unlock. */
  ghost predicate MutexInv(s: State) {
    && (s.holder == ByProducer <==> ProducerHolds(s.ppc))
    && (forall i: nat | i < |s.cs| :: ConsumerHolds(s.cs[i]) <==> s.holder == ByConsumer(i))
    && (s.holder.ByConsumer? ==> s.holder.consumer < |s.cs|)
  }

  /** What the holder of the mutex has established about the buffer stays true while it holds it. */
  ghost predicate BufferInv(s: State) {
    && |s.buffer| <= s.MaxBuffer()
    && (s.ppc == PWait ==> |s.buffer| == s.MaxBuffer())
    && (s.ppc == PPush ==> |s.buffer| < s.MaxBuffer())
    && (forall i: nat | i < |s.cs| ::
          && (s.cs[i] == CPop ==> s.buffer != [])
          && ((s.cs[i].CDone? || s.cs[i].CWait? || s.cs[i].CUnlockExit? || s.cs[i].CLeftDrained?) ==> s.buffer == []))
  }

  ghost predicate FlagInv(s: State) {
    && (s.done <==> Finishing(s.ppc) && s.ppc != PSetDone)
    && (s.inProgress <==> s.ppc != PStart && s.ppc != PReturned)
    && (Finishing(s.ppc) ==> s.input == [])
    && (forall i: nat | i < |s.cs| ::
          && ((s.cs[i].CUnlockExit? || s.cs[i].CLeftDrained?) ==> s.done)
          && (s.cs[i] == CLeftStopped ==> s.ppc == PReturned)
          && (PastBroadcast(s.ppc) ==> s.cs[i] != CBlocked && s.cs[i] != CWait))
  }

  /** One for a thread that owes the waiters a wake-up or a pop: the producer between its push
      and its signal, or a consumer that holds the mutex and has not popped yet. */
  function Owed(s: State): nat {
    if s.ppc == PSignal then 1
    else if s.holder.ByConsumer? && s.holder.consumer < |s.cs| && (s.cs[s.holder.consumer].CTest? || s.cs[s.holder.consumer].CPop?) then 1
    else 0
  }

  /** No wake-up is lost.  While somebody is blocked, every queued command is matched by a
      consumer that was signalled for it and has yet to resume; and a blocked producer faces a full buffer. */
  ghost predicate WakeInv(s: State) {
    && (Count(s.cs, CBlocked) > 0 ==> |s.buffer| <= Count(s.cs, CReacquire) + Owed(s))
    && (s.ppc == PBlocked ==>
          |s.buffer| == s.MaxBuffer() ||
          (s.holder.ByConsumer? && s.holder.consumer < |s.cs| && s.cs[s.holder.consumer] == CSignal))
  }

  predicate InHand(p: ProducerPc) { (p.PLock? || p.PTest? || p.PWait? || p.PBlocked? || p.PReacquire? || p.PPush?) }

  function ReceiptsBy(receipts: seq<Receipt>, i: nat): nat {
    if receipts == [] then 0
    else ReceiptsBy(receipts[..|receipts| - 1], i) + (if receipts[|receipts| - 1].consumer == i then 1 else 0)
  }

  /** Every work line read has been pushed, in order, but for the one the producer still carries. */
  ghost predicate InputInv(s: State, script: seq<string>) {
    && s.read + s.input == script
    && s.pushed + (if InHand(s.ppc) then [s.command] else []) == WorkLines(s.read)
  }

  /** First in, first out: what was popped and what is queued make up what was pushed. */
  ghost predicate QueueInv(s: State) {
    Commands(s.popped) + s.buffer == s.pushed
  }

  /** Each consumer's job counter counts the commands it received, but for one it is working on. */
  ghost predicate JobsInv(s: State) {
    && |s.jobs| == |s.cs|
    && (forall r | r in s.popped :: r.consumer < |s.cs|)
    && (forall i: nat | i < |s.cs| :: ReceiptsBy(s.popped, i) == s.jobs[i] + Working(s.cs[i]))
  }

  function Working(c: ConsumerPc): nat { if c.CSignal? || c.CUnlock? || c.CWork? then 1 else 0 }

  ghost predicate Inv(s: State, script: seq<string>) {
    MutexInv(s) && BufferInv(s) && FlagInv(s) && WakeInv(s) &&
    InputInv(s, script) && QueueInv(s) && JobsInv(s)
  }

  // ---------------------------------------------------------------- the invariant is inductive

  lemma InitInv(n: nat, script: seq<string>)
    ensures Inv(Init(n, script), script)
  {
    CountIsZero(Init(n, script).cs, CBlocked);
  }

  lemma ProducerStepKeepsControl(s: State, woken: set<nat>)
    requires MutexInv(s) && BufferInv(s) && FlagInv(s) && ProducerEnabled(s, woken)
    ensures var t := ProducerStep(s, woken); MutexInv(t) && BufferInv(t) && FlagInv(t)
  {
    var t := ProducerStep(s, woken);
    assert MutexInv(t);
    assert BufferInv(t);
    assert FlagInv(t);
  }

  lemma ConsumerStepKeepsMutex(s: State, i: nat)
    requires MutexInv(s) && ConsumerEnabled(s, i)
    ensures MutexInv(ConsumerStep(s, i))
  {
  }

  lemma ConsumerStepKeepsBuffer(s: State, i: nat)
    requires MutexInv(s) && BufferInv(s) && ConsumerEnabled(s, i)
    ensures BufferInv(ConsumerStep(s, i))
  {
  }

  lemma ConsumerStepKeepsFlags(s: State, i: nat)
    requires FlagInv(s) && ConsumerEnabled(s, i)
    ensures FlagInv(ConsumerStep(s, i))
  {
  }

  lemma StepKeepsControl(s: State, a: Action)
    requires MutexInv(s) && BufferInv(s) && FlagInv(s) && Enabled(s, a)
    ensures MutexInv(Apply(s, a)) && BufferInv(Apply(s, a)) && FlagInv(Apply(s, a))
  {
    match a
    case Producer(woken) => ProducerStepKeepsControl(s, woken);
    case Consumer(i) =>
      ConsumerStepKeepsMutex(s, i);
      ConsumerStepKeepsBuffer(s, i);
      ConsumerStepKeepsFlags(s, i);
    case SpuriousProducer =>
    case SpuriousConsumer(i) =>
  }

  /** A consumer's step lets a blocked producer face a full buffer, or owes it a signal. */
  lemma ConsumerStepKeepsProducer(s: State, i: nat)
    requires MutexInv(s) && WakeInv(s) && ConsumerEnabled(s, i)
    ensures var t := ConsumerStep(s, i);
            t.ppc == PBlocked ==>
              |t.buffer| == t.MaxBuffer() ||
              (t.holder.ByConsumer? && t.holder.consumer < |t.cs| && t.cs[t.holder.consumer] == CSignal)
  {
  }

  lemma ConsumerStepKeepsWake(s: State, i: nat)
    requires MutexInv(s) && BufferInv(s) && WakeInv(s) && ConsumerEnabled(s, i)
    ensures WakeInv(ConsumerStep(s, i))
  {
    var t := ConsumerStep(s, i);
    CountUpdate(s.cs, i, t.cs[i], CBlocked);
    CountUpdate(s.cs, i, t.cs[i], CReacquire);
    ConsumerStepKeepsProducer(s, i);
  }

  lemma ProducerStepKeepsWake(s: State, woken: set<nat>)
    requires MutexInv(s) && BufferInv(s) && WakeInv(s) && ProducerEnabled(s, woken)
    ensures WakeInv(ProducerStep(s, woken))
  {
    CountIsZero(s.cs, CBlocked);
    if s.ppc == PSignal {
      SignalKeepsWake(s, woken);
    } else if s.ppc == PBroadcast {
      CountIsZero(Wake(s.cs, Blocked(s.cs)), CBlocked);
    }
  }

  lemma SignalKeepsWake(s: State, woken: set<nat>)
    requires WakeInv(s) && s.ppc == PSignal && ProducerEnabled(s, woken)
    ensures WakeInv(ProducerStep(s, woken))
  {
    CountIsZero(s.cs, CBlocked);
    CountWoken(s.cs, woken);
    CountIsZero(Wake(s.cs, woken), CBlocked);
  }

  lemma StepKeepsWake(s: State, a: Action)
    requires MutexInv(s) && BufferInv(s) && WakeInv(s) && Enabled(s, a)
    ensures WakeInv(Apply(s, a))
  {
    match a
    case Consumer(i) => ConsumerStepKeepsWake(s, i);
    case Producer(woken) => ProducerStepKeepsWake(s, woken);
    case SpuriousProducer =>
    case SpuriousConsumer(i) =>
      CountUpdate(s.cs, i, CSpurious, CBlocked);
      CountUpdate(s.cs, i, CSpurious, CReacquire);
  }

  /** What the steps of other threads leave to the producer. */
  lemma ConsumerStepFrame(s: State, i: nat)
    requires ConsumerEnabled(s, i)
    ensures var t := ConsumerStep(s, i);
            && t.read == s.read && t.input == s.input && t.pushed == s.pushed && t.command == s.command
            && InHand(t.ppc) == InHand(s.ppc) && |t.cs| == |s.cs|
  {
  }

  lemma WorkLinesAppend(lines: seq<string>, line: string)
    ensures WorkLines(lines + [line]) == WorkLines(lines) + (if IsWork(line) then [line] else [])
  {
    assert (lines + [line])[..|lines|] == lines;
  }

  lemma ReadKeepsInput(s: State, script: seq<string>)
    requires InputInv(s, script) && s.ppc == PRead && s.input != []
    ensures InputInv(ProducerStep(s, {}), script)
  {
    var t := ProducerStep(s, {});
    var line := s.input[0];
    WorkLinesAppend(s.read, line);
    assert t.read == s.read + [line] && t.pushed == s.pushed;
    assert (s.read + [line]) + s.input[1..] == s.read + s.input;
    assert s.pushed + [] == s.pushed;
  }

  /** Other producer steps read nothing, and only the push hands the command on. */
  lemma ProducerStepFrame(s: State, woken: set<nat>)
    requires ProducerEnabled(s, woken) && (s.ppc != PRead || s.input == [])
    ensures var t := ProducerStep(s, woken);
            && t.read == s.read && t.input == s.input && t.command == s.command
            && t.pushed == (if s.ppc == PPush then s.pushed + [s.command] else s.pushed)
            && (InHand(t.ppc) <==> InHand(s.ppc) && s.ppc != PPush)
  {
  }

  lemma ProducerStepKeepsInput(s: State, woken: set<nat>, script: seq<string>)
    requires InputInv(s, script) && ProducerEnabled(s, woken)
    ensures InputInv(ProducerStep(s, woken), script)
  {
    if s.ppc == PRead && s.input != [] {
      ReadKeepsInput(s, script);
    } else {
      ProducerStepFrame(s, woken);
    }
  }

  lemma StepKeepsInput(s: State, a: Action, script: seq<string>)
    requires InputInv(s, script) && Enabled(s, a)
    ensures InputInv(Apply(s, a), script)
  {
    match a
    case Producer(woken) => ProducerStepKeepsInput(s, woken, script);
    case Consumer(i) => ConsumerStepFrame(s, i);
    case _ =>
  }

  lemma ProducerStepKeepsQueue(s: State, woken: set<nat>)
    requires QueueInv(s) && ProducerEnabled(s, woken)
    ensures QueueInv(ProducerStep(s, woken))
  {
    var t := ProducerStep(s, woken);
    if s.ppc == PPush {
      assert Commands(s.popped) + t.buffer == s.pushed + [s.command];
    } else {
      assert t.popped == s.popped && t.buffer == s.buffer && t.pushed == s.pushed;
    }
  }

  lemma ConsumerStepKeepsQueue(s: State, i: nat)
    requires QueueInv(s) && ConsumerEnabled(s, i)
    ensures QueueInv(ConsumerStep(s, i))
  {
    var t := ConsumerStep(s, i);
    if s.cs[i] == CPop {
      assert Commands(t.popped) == Commands(s.popped) + [s.buffer[0]];
      assert Commands(t.popped) + t.buffer == Commands(s.popped) + s.buffer;
    } else {
      assert t.popped == s.popped && t.buffer == s.buffer;
    }
  }

  lemma StepKeepsQueue(s: State, a: Action)
    requires QueueInv(s) && Enabled(s, a)
    ensures QueueInv(Apply(s, a))
  {
    match a
    case Producer(woken) => ProducerStepKeepsQueue(s, woken);
    case Consumer(i) =>
      ConsumerStepFrame(s, i);
      ConsumerStepKeepsQueue(s, i);
    case _ =>
  }

  lemma ConsumerStepKeepsJobs(s: State, i: nat)
    requires JobsInv(s) && ConsumerEnabled(s, i)
    ensures JobsInv(ConsumerStep(s, i))
  {
    var t := ConsumerStep(s, i);
    ConsumerStepJobs(s, i);
    assert s.cs[i] == CPop ==> t.popped[..|t.popped| - 1] == s.popped;
    forall j: nat | j < |s.cs|
      ensures ReceiptsBy(t.popped, j) == t.jobs[j] + Working(t.cs[j])
    {
      assert j != i ==> t.cs[j] == s.cs[j] && t.jobs[j] == s.jobs[j];
    }
  }

  /** Only a pop is a new receipt, and only finished work is a new job. */
  lemma ConsumerStepJobs(s: State, i: nat)
    requires ConsumerEnabled(s, i)
    ensures var t := ConsumerStep(s, i);
            && t.cs == s.cs[i := t.cs[i]] && t.jobs == s.jobs[i := t.jobs[i]]
            && t.popped == (if s.cs[i] == CPop then s.popped + [Receipt(i, s.buffer[0])] else s.popped)
            && t.jobs[i] + Working(t.cs[i]) == s.jobs[i] + Working(s.cs[i]) + (if s.cs[i] == CPop then 1 else 0)
  {
  }

  lemma ProducerStepKeepsJobs(s: State, woken: set<nat>)
    requires JobsInv(s) && ProducerEnabled(s, woken)
    ensures JobsInv(ProducerStep(s, woken))
  {
    var t := ProducerStep(s, woken);
    ProducerStepMoves(s, woken);
    assert t.popped == s.popped && t.jobs == s.jobs;
    forall i: nat | i < |s.cs| ensures Working(t.cs[i]) == Working(s.cs[i]) {
      assert s.cs[i] != CBlocked ==> t.cs[i] == s.cs[i];
    }
  }

  lemma StepKeepsJobs(s: State, a: Action)
    requires JobsInv(s) && Enabled(s, a)
    ensures JobsInv(Apply(s, a))
  {
    match a
    case Producer(woken) => ProducerStepKeepsJobs(s, woken);
    case Consumer(i) => ConsumerStepKeepsJobs(s, i);
    case _ =>
  }

  lemma StepKeepsInv(s: State, a: Action, script: seq<string>)
    requires Inv(s, script) && Enabled(s, a)
    ensures Inv(Apply(s, a), script)
  {
    StepKeepsControl(s, a);
    StepKeepsWake(s, a);
    StepKeepsInput(s, a, script);
    StepKeepsQueue(s, a);
    StepKeepsJobs(s, a);
  }

  lemma {:induction false} RunKeepsThreads(s: State, acts: seq<Action>, t: State)
    requires Run(s, acts, t)
    ensures |t.cs| == |s.cs|
    decreases |acts|
  {
    if acts != [] { RunKeepsThreads(Apply(s, acts[0]), acts[1..], t); }
  }

  lemma {:induction false} RunKeepsInv(s: State, acts: seq<Action>, t: State, script: seq<string>)
    requires Inv(s, script) && Run(s, acts, t)
    ensures Inv(t, script)
    decreases |acts|
  {
    if acts != [] {
      StepKeepsInv(s, acts[0], script);
      RunKeepsInv(Apply(s, acts[0]), acts[1..], t, script);
    }
  }

  ghost predicate Reachable(n: nat, script: seq<string>, t: State) {
    exists acts :: Run(Init(n, script), acts, t)
  }

  lemma ReachableInv(n: nat, script: seq<string>, t: State)
    requires Reachable(n, script, t)
    ensures Inv(t, script) && |t.cs| == n
  {
    var acts :| Run(Init(n, script), acts, t);
    InitInv(n, script);
    RunKeepsInv(Init(n, script), acts, t, script);
    RunKeepsThreads(Init(n, script), acts, t);
  }

  // ---------------------------------------------------------------- runs

  lemma {:induction false} RunConcat(s: State, a: seq<Action>, t: State, b: seq<Action>, u: State)
    requires Run(s, a, t) && Run(t, b, u)
    ensures Run(s, a + b, u)
    decreases |a|
  {
    if a == [] {
      assert a + b == b;
    } else {
      RunConcat(Apply(s, a[0]), a[1..], t, b, u);
      assert (a + b)[1..] == a[1..] + b;
    }
  }

  lemma ReachableMore(n: nat, script: seq<string>, s: State, acts: seq<Action>, t: State)
    requires Reachable(n, script, s) && Run(s, acts, t)
    ensures Reachable(n, script, t)
  {
    var before :| Run(Init(n, script), before, s);
    RunConcat(Init(n, script), before, s, acts, t);
  }

  /** A producer step moves only consumers that it wakes. */
  lemma ProducerStepMoves(s: State, woken: set<nat>)
    requires ProducerEnabled(s, woken)
    ensures var t := ProducerStep(s, woken);
            && t.ppc != PStart && |t.cs| == |s.cs|
            && forall i: nat | i < |s.cs| && s.cs[i] != CBlocked :: t.cs[i] == s.cs[i]
    ensures forall i: nat | i < |s.cs| && s.cs[i] == CBlocked ::
              ProducerStep(s, woken).cs[i].CBlocked? || ProducerStep(s, woken).cs[i].CReacquire?
  {
  }

  /** A consumer's step moves that consumer alone, which has not returned, and starts no producer. */
  lemma ConsumerStepMoves(s: State, i: nat)
    requires ConsumerEnabled(s, i)
    ensures var t := ConsumerStep(s, i);
            && t.cs == s.cs[i := t.cs[i]] && !Returned(s.cs[i])
            && (t.cs[i] == CLeftEarly ==> s.ppc == PStart)
            && (t.ppc == PStart <==> s.ppc == PStart)
  {
  }

  lemma StepLeavesReturned(s: State, a: Action, i: nat)
    requires Enabled(s, a) && i < |s.cs| && Returned(s.cs[i])
    ensures i < |Apply(s, a).cs| && Apply(s, a).cs[i] == s.cs[i]
  {
    match a
    case Producer(woken) => ProducerStepMoves(s, woken);
    case Consumer(j) => ConsumerStepMoves(s, j);
    case _ =>
  }

  /** A consumer that has returned stays where it is. */
  lemma {:induction false} ReturnedStays(s: State, acts: seq<Action>, t: State, i: nat)
    requires Run(s, acts, t) && i < |s.cs| && Returned(s.cs[i])
    ensures i < |t.cs| && t.cs[i] == s.cs[i]
    decreases |acts|
  {
    if acts != [] {
      StepLeavesReturned(s, acts[0], i);
      ReturnedStays(Apply(s, acts[0]), acts[1..], t, i);
    }
  }

  lemma {:induction false} WorkLinesConcat(a: seq<string>, b: seq<string>)
    ensures WorkLines(a + b) == WorkLines(a) + WorkLines(b)
  {
    if b == [] {
      assert a + b == a;
    } else {
      var m := |b| - 1;
      assert (a + b)[..|a + b| - 1] == a + b[..m];
      WorkLinesConcat(a, b[..m]);
    }
  }

  // ---------------------------------------------------------------- main results

  /** No lost wake-up, for any number of consumers and under spurious wake-ups and barging.  The
      consumers counted were signalled; one that woke spuriously stands for no signal. */
  lemma NoLostWakeup(n: nat, script: seq<string>, t: State)
    requires Reachable(n, script, t)
    ensures Blocked(t.cs) != {} ==> |t.buffer| <= Count(t.cs, CReacquire) + Owed(t)
    ensures Blocked(t.cs) != {} && t.holder.Free? ==> |t.buffer| <= Count(t.cs, CReacquire)
    ensures t.ppc == PBlocked ==>
              |t.buffer| == 2 * n ||
              (t.holder.ByConsumer? && t.holder.consumer < |t.cs| && t.cs[t.holder.consumer] == CSignal)
  {
    ReachableInv(n, script, t);
    CountIsZero(t.cs, CBlocked);
    assert Blocked(t.cs) != {} ==> CBlocked in t.cs;
  }

  /** First in, first out and exactly once: the commands taken, in the order they were taken,
      followed by the queue are the commands pushed, which are the work lines read so far; each
      consumer's counter says how many of them it finished. */
  lemma ExactlyOnce(n: nat, script: seq<string>, t: State)
    requires Reachable(n, script, t)
    ensures Commands(t.popped) + t.buffer == t.pushed
    ensures |t.buffer| <= 2 * n
    ensures t.pushed <= WorkLines(script)
    ensures Finishing(t.ppc) ==> t.pushed == WorkLines(script)
    ensures |t.cs| == |t.jobs| == n
    ensures forall r | r in t.popped :: r.consumer < n
    ensures forall i: nat | i < n :: ReceiptsBy(t.popped, i) == t.jobs[i] + Working(t.cs[i])
  {
    ReachableInv(n, script, t);
    WorkLinesConcat(t.read, t.input);
    assert t.input == [] ==> t.read == script;
  }

  /** A consumer that leaves from inside the wait loop proves that all the work there ever was
      has been taken, and nothing is queued from then on. */
  lemma DrainedExit(n: nat, script: seq<string>, s: State, acts: seq<Action>, t: State, i: nat)
    requires Reachable(n, script, s)
    requires i < |s.cs| && s.cs[i] == CLeftDrained
    requires Run(s, acts, t)
    ensures t.buffer == [] && Commands(t.popped) == WorkLines(script)
  {
    ReachableInv(n, script, s);
    ReachableMore(n, script, s, acts, t);
    ReachableInv(n, script, t);
    ReturnedStays(s, acts, t, i);
    ExactlyOnce(n, script, t);
    assert Commands(t.popped) + [] == Commands(t.popped);
  }
}
