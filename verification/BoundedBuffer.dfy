/** The bounded-buffer monitor of Assignment_2/f22/main.cpp as an interleaving transition
    system: one producer, any number of consumers, one mutex and two condition variables.

    Every shared access is one sequentially consistent step of its own, so the test of `done`
    and the wait that follows it are different steps.  Condition variables follow POSIX.1-2017
    (System Interfaces, pthread_cond_wait, pthread_cond_signal and pthread_cond_broadcast):
    a wait releases the mutex and blocks in one step, a signal unblocks at least one blocked
    thread if there is one, an unblocked thread contends for the mutex like any other, and a
    blocked thread may wake spuriously. */
module BoundedBuffer {

  datatype ProducerPc =
    | PStart       // about to set in_progress
    | PRead        // about to read a line
    | PLock | PTest | PWait | PBlocked | PReacquire | PPush | PSignal | PUnlock
    | PSetDone     // about to set done, outside the mutex
    | PLockLast | PBroadcast | PUnlockLast
    | PClear       // about to reset in_progress
    | PReturned

  datatype ConsumerPc =
    | CLoop        // about to test in_progress
    | CLock | CTest | CDone | CWait | CBlocked
    | CReacquire   // signalled, and contending for the mutex again
    | CSpurious    // woken without a signal, and contending as well
    | CPop | CSignal | CUnlock
    | CWork        // processing the command it received
    | CUnlockExit  // found the buffer empty and done set
    | CLeftEarly   // saw in_progress unset before the producer had started
    | CLeftDrained // returned from inside the wait loop
    | CLeftStopped // saw in_progress unset after the producer had cleared it

  datatype Holder = Free | ByProducer | ByConsumer(consumer: nat)

  /** A command taken from the buffer, and by whom. */
  datatype Receipt = Receipt(consumer: nat, command: string)

  datatype State = State(
    // shared variables
    buffer: seq<string>, holder: Holder, done: bool, inProgress: bool,
    // the producer: unread input lines and its local variables
    ppc: ProducerPc, input: seq<string>, command: string,
    // the consumers: where each one is, and its local job counter
    cs: seq<ConsumerPc>, jobs: seq<nat>,
    // history: lines read, commands pushed, commands popped and by whom
    read: seq<string>, pushed: seq<string>, popped: seq<Receipt>)
  {
    /** Twice the number of threads. */
    function MaxBuffer(): nat { 2 * |cs| }
  }

  predicate IsWork(line: string) { |line| > 0 && line[0] == 'T' }

  /** The lines that make work for consumers, in order: those that begin with T. */
  function WorkLines(lines: seq<string>): seq<string> {
    if lines == [] then []
    else WorkLines(lines[..|lines| - 1]) + (if "T" <= lines[|lines| - 1] then [lines[|lines| - 1]] else [])
  }

  function Commands(receipts: seq<Receipt>): (cs: seq<string>)
    ensures |cs| == |receipts|
  {
    seq(|receipts|, i requires 0 <= i < |receipts| => receipts[i].command)
  }

  /** `n` consumers are created, and none of the threads has taken a step. */
  function Init(n: nat, script: seq<string>): State {
    State([], Free, false, false, PStart, script, "",
          seq(n, _ => CLoop), seq(n, _ => 0), [], [], [])
  }

  // ---------------------------------------------------------------- steps

  datatype Action =
    | Producer(woken: set<nat>) // `woken`: whom a signal unblocks
    | Consumer(i: nat)
    | SpuriousProducer
    | SpuriousConsumer(i: nat)
  {
    predicate Spurious() { SpuriousProducer? || SpuriousConsumer? }
  }

  function Blocked(cs: seq<ConsumerPc>): set<nat> {
    set i: nat | i < |cs| && cs[i] == CBlocked
  }

  predicate Returned(c: ConsumerPc) { c.CLeftEarly? || c.CLeftDrained? || c.CLeftStopped? }

  predicate ProducerEnabled(s: State, woken: set<nat>) {
    match s.ppc
    case PLock | PReacquire | PLockLast => s.holder.Free? && woken == {}
    case PBlocked | PReturned => false
    case PSignal => woken <= Blocked(s.cs) && (woken == {} ==> Blocked(s.cs) == {})
    case _ => woken == {}
  }

  predicate ConsumerEnabled(s: State, i: nat) {
    && i < |s.cs| == |s.jobs|
    && match s.cs[i]
       case CLock | CReacquire | CSpurious => s.holder.Free?
       case CBlocked | CLeftEarly | CLeftDrained | CLeftStopped => false
       case CPop => s.buffer != []
       case _ => true
  }

  predicate Enabled(s: State, a: Action) {
    match a
    case Producer(woken) => ProducerEnabled(s, woken)
    case Consumer(i) => ConsumerEnabled(s, i)
    case SpuriousProducer => s.ppc == PBlocked
    case SpuriousConsumer(i) => i < |s.cs| && s.cs[i] == CBlocked
  }

  /** The blocked consumers in `woken` now contend for the mutex. */
  function Wake(cs: seq<ConsumerPc>, woken: set<nat>): (r: seq<ConsumerPc>)
    ensures |r| == |cs|
  {
    seq(|cs|, i requires 0 <= i < |cs| => if i in woken then CReacquire else cs[i])
  }

  function ProducerStep(s: State, woken: set<nat>): State
    requires ProducerEnabled(s, woken)
  {
    match s.ppc
    case PStart => s.(inProgress := true, ppc := PRead)
    case PRead =>
      if s.input == [] then s.(ppc := PSetDone)
      else
        var line := s.input[0];
        s.(input := s.input[1..], read := s.read + [line], command := line,
           ppc := if IsWork(line) then PLock else PRead)
    case PLock => s.(holder := ByProducer, ppc := PTest)
    case PTest => s.(ppc := if |s.buffer| >= s.MaxBuffer() then PWait else PPush)
    case PWait => s.(holder := Free, ppc := PBlocked)
    case PReacquire => s.(holder := ByProducer, ppc := PTest)
    case PPush => s.(buffer := s.buffer + [s.command], pushed := s.pushed + [s.command], ppc := PSignal)
    case PSignal => s.(cs := Wake(s.cs, woken), ppc := PUnlock)
    case PUnlock => s.(holder := Free, ppc := PRead)
    case PSetDone => s.(done := true, ppc := PLockLast)
    case PLockLast => s.(holder := ByProducer, ppc := PBroadcast)
    case PBroadcast => s.(cs := Wake(s.cs, Blocked(s.cs)), ppc := PUnlockLast)
    case PUnlockLast => s.(holder := Free, ppc := PClear)
    case PClear => s.(inProgress := false, ppc := PReturned)
  }

  function ConsumerStep(s: State, i: nat): State
    requires ConsumerEnabled(s, i)
  {
    match s.cs[i]
    case CLoop =>
      s.(cs := s.cs[i := if s.inProgress then CLock else if s.ppc == PStart then CLeftEarly else CLeftStopped])
    case CLock | CReacquire | CSpurious => s.(holder := ByConsumer(i), cs := s.cs[i := CTest])
    case CTest => s.(cs := s.cs[i := if s.buffer == [] then CDone else CPop])
    case CDone => s.(cs := s.cs[i := if s.done then CUnlockExit else CWait])
    case CWait => s.(holder := Free, cs := s.cs[i := CBlocked])
    case CPop => s.(buffer := s.buffer[1..], popped := s.popped + [Receipt(i, s.buffer[0])],
                    cs := s.cs[i := CSignal])
    case CSignal => s.(ppc := if s.ppc == PBlocked then PReacquire else s.ppc, cs := s.cs[i := CUnlock])
    case CUnlock => s.(holder := Free, cs := s.cs[i := CWork])
    case CWork => s.(jobs := s.jobs[i := s.jobs[i] + 1], cs := s.cs[i := CLoop])
    case CUnlockExit => s.(holder := Free, cs := s.cs[i := CLeftDrained])
  }

  function Apply(s: State, a: Action): State
    requires Enabled(s, a)
  {
    match a
    case Producer(woken) => ProducerStep(s, woken)
    case Consumer(i) => ConsumerStep(s, i)
    case SpuriousProducer => s.(ppc := PReacquire)
    case SpuriousConsumer(i) => s.(cs := s.cs[i := CSpurious])
  }

  /** `acts` is a run from `s` to `t`. */
  predicate Run(s: State, acts: seq<Action>, t: State)
    decreases |acts|
  {
    if acts == [] then s == t
    else Enabled(s, acts[0]) && Run(Apply(s, acts[0]), acts[1..], t)
  }

  function SpuriousCount(acts: seq<Action>): nat {
    if acts == [] then 0 else (if acts[0].Spurious() then 1 else 0) + SpuriousCount(acts[1..])
  }

  // ---------------------------------------------------------------- counting consumers

  function Count(cs: seq<ConsumerPc>, p: ConsumerPc): nat {
    if cs == [] then 0
    else Count(cs[..|cs| - 1], p) + (if cs[|cs| - 1] == p then 1 else 0)
  }

  lemma {:induction false} CountUpdate(cs: seq<ConsumerPc>, i: nat, v: ConsumerPc, p: ConsumerPc)
    requires i < |cs|
    ensures Count(cs[i := v], p) == Count(cs, p) - (if cs[i] == p then 1 else 0) + (if v == p then 1 else 0)
  {
    var m := |cs| - 1;
    if i < m {
      assert cs[i := v][..m] == cs[..m][i := v];
      CountUpdate(cs[..m], i, v, p);
    } else {
      assert cs[i := v][..m] == cs[..m];
    }
  }

  lemma {:induction false} CountIsZero(cs: seq<ConsumerPc>, p: ConsumerPc)
    ensures Count(cs, p) == 0 <==> p !in cs
  {
    if cs != [] {
      var m := |cs| - 1;
      CountIsZero(cs[..m], p);
      assert cs == cs[..m] + [cs[m]];
    }
  }

  /** Waking a set of blocked consumers raises the number of signalled ones. */
  lemma {:induction false} CountWoken(cs: seq<ConsumerPc>, woken: set<nat>)
    requires woken <= Blocked(cs)
    ensures Count(Wake(cs, woken), CReacquire) >= Count(cs, CReacquire) + (if woken == {} then 0 else 1)
  {
    if cs != [] {
      var m := |cs| - 1;
      var rest := woken - {m};
      assert Wake(cs, woken)[..m] == Wake(cs[..m], rest);
      CountWoken(cs[..m], rest);
      assert m !in woken ==> rest == woken;
    }
  }
}
