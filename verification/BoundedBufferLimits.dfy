/** What the monitor does not guarantee, with exact conditions: a run in which every consumer
    leaves before the producer starts can leave the producer waiting for ever, and work can be left in
    the queue at the end. */
module BoundedBufferLimits {
  import opened BoundedBuffer
  import opened BoundedBufferSafety
  import opened BoundedBufferProgress

  lemma Go(n: nat, script: seq<string>, s: State, a: Action) returns (t: State)
    requires Reachable(n, script, s) && Enabled(s, a)
    ensures t == Apply(s, a) && Reachable(n, script, t)
  {
    t := Apply(s, a);
    assert Run(t, [], t);
    assert Run(s, [a], t);
    ReachableMore(n, script, s, [a], t);
  }

  lemma WorkLinesHead(lines: seq<string>)
    requires lines != []
    ensures WorkLines(lines) == (if IsWork(lines[0]) then [lines[0]] else []) + WorkLines(lines[1..])
  {
    assert lines == [lines[0]] + lines[1..];
    assert [lines[0]][..0] == [];
    WorkLinesConcat([lines[0]], lines[1..]);
  }

  ghost predicate All(cs: seq<ConsumerPc>, p: ConsumerPc) { forall i: nat | i < |cs| :: cs[i] == p }

  /** The producer reads a work line and queues it while no consumer is blocked. */
  lemma PushLine(n: nat, script: seq<string>, s: State) returns (t: State)
    requires Reachable(n, script, s) && s.ppc == PRead && s.holder.Free?
    requires s.input != [] && IsWork(s.input[0])
    requires |s.buffer| < s.MaxBuffer() && Blocked(s.cs) == {}
    ensures Reachable(n, script, t) && t.ppc == PRead && t.holder.Free? && t.cs == s.cs
    ensures t.input == s.input[1..] && t.buffer == s.buffer + [s.input[0]] && t.inProgress == s.inProgress
  {
    t := Go(n, script, s, Producer({}));
    t := Go(n, script, t, Producer({}));
    t := Go(n, script, t, Producer({}));
    t := Go(n, script, t, Producer({}));
    t := Go(n, script, t, Producer({}));
    assert t.cs == s.cs;
    t := Go(n, script, t, Producer({}));
  }

  // ---------------------------------------------------------------- consumers that leave early

  lemma {:induction false} ConsumersLeaveEarly(n: nat, script: seq<string>, k: nat)
    requires k <= n
    ensures Reachable(n, script, Init(n, script).(cs := seq(n, i => if i < k then CLeftEarly else CLoop)))
    decreases k
  {
    var s0 := Init(n, script);
    if k == 0 {
      assert seq(n, i => if i < 0 then CLeftEarly else CLoop) == s0.cs;
      assert Run(s0, [], s0);
    } else {
      ConsumersLeaveEarly(n, script, k - 1);
      var s := s0.(cs := seq(n, i => if i < k - 1 then CLeftEarly else CLoop));
      var t := Go(n, script, s, Consumer(k - 1));
      assert t.cs == seq(n, i => if i < k then CLeftEarly else CLoop);
    }
  }

  lemma {:induction false} FillAndBlock(n: nat, script: seq<string>, s: State) returns (t: State)
    requires Reachable(n, script, s) && s.ppc == PRead && s.holder.Free? && All(s.cs, CLeftEarly)
    requires |s.buffer| + |WorkLines(s.input)| > 2 * n
    ensures Reachable(n, script, t) && Abandoned(t)
    decreases |s.input|
  {
    ReachableInv(n, script, s);
    WorkLinesHead(s.input);
    if !IsWork(s.input[0]) {
      t := Go(n, script, s, Producer({}));
      t := FillAndBlock(n, script, t);
    } else if |s.buffer| < 2 * n {
      t := PushLine(n, script, s);
      t := FillAndBlock(n, script, t);
    } else {
      t := Go(n, script, s, Producer({}));
      t := Go(n, script, t, Producer({}));
      t := Go(n, script, t, Producer({}));
      t := Go(n, script, t, Producer({}));
    }
  }

  /** Consumers that test `in_progress` before the producer has set it leave for good.  This can
      leave the producer waiting for ever, exactly when there are more work lines than the buffer
      holds.  `main` joins only the consumers, so the process then ends with the work lost. */
  lemma AbandonedExactly(n: nat, script: seq<string>)
    ensures (exists t :: Reachable(n, script, t) && Abandoned(t)) <==> |WorkLines(script)| > 2 * n
  {
    if t :| Reachable(n, script, t) && Abandoned(t) {
      ReachableInv(n, script, t);
      WorkLinesConcat(t.read, t.input);
    }
    if |WorkLines(script)| > 2 * n {
      ConsumersLeaveEarly(n, script, n);
      var s := Init(n, script).(cs := seq(n, i => if i < n then CLeftEarly else CLoop));
      s := Go(n, script, s, Producer({}));
      var t := FillAndBlock(n, script, s);
    }
  }

  // ---------------------------------------------------------------- work left behind

  /** Consumer 0 takes the only queued command ... */
  lemma PopLine(n: nat, script: seq<string>, s: State) returns (t: State)
    requires Reachable(n, script, s) && s.ppc == PRead && s.holder.Free? && s.inProgress
    requires |s.jobs| == |s.cs| > 0 && All(s.cs, CLoop) && |s.buffer| == 1
    ensures Reachable(n, script, t) && t.ppc == PRead && t.holder == ByConsumer(0) && t.inProgress
    ensures t.cs == s.cs[0 := CSignal] && t.jobs == s.jobs && t.buffer == [] && t.input == s.input
  {
    t := Go(n, script, s, Consumer(0));
    t := Go(n, script, t, Consumer(0));
    t := Go(n, script, t, Consumer(0));
    t := Go(n, script, t, Consumer(0));
  }

  /** ... and processes it. */
  lemma TakeLine(n: nat, script: seq<string>, s: State) returns (t: State)
    requires Reachable(n, script, s) && s.ppc == PRead && s.holder.Free? && s.inProgress
    requires |s.cs| > 0 && All(s.cs, CLoop) && |s.buffer| == 1
    ensures Reachable(n, script, t) && t.ppc == PRead && t.holder.Free? && t.inProgress
    ensures t.cs == s.cs && t.buffer == [] && t.input == s.input
  {
    ReachableInv(n, script, s);
    t := PopLine(n, script, s);
    t := Go(n, script, t, Consumer(0));
    t := Go(n, script, t, Consumer(0));
    t := Go(n, script, t, Consumer(0));
    assert t.cs == s.cs;
  }

  lemma {:induction false} AllStop(n: nat, script: seq<string>, s: State, k: nat) returns (t: State)
    requires Reachable(n, script, s) && s.ppc == PReturned && k <= |s.cs|
    requires forall i: nat | i < |s.cs| :: s.cs[i] == if i < k then CLeftStopped else CLoop
    ensures Reachable(n, script, t) && Finished(t) && t.buffer == s.buffer
    decreases |s.cs| - k
  {
    ReachableInv(n, script, s);
    if k == |s.cs| {
      t := s;
    } else {
      t := Go(n, script, s, Consumer(k));
      t := AllStop(n, script, t, k + 1);
    }
  }

  lemma FinishWithoutConsumers(n: nat, script: seq<string>, s: State) returns (t: State)
    requires Reachable(n, script, s) && s.ppc == PRead && s.holder.Free? && All(s.cs, CLoop)
    requires WorkLines(s.input) == []
    ensures Reachable(n, script, t) && Finished(t) && t.buffer == s.buffer
    decreases |s.input|
  {
    t := Go(n, script, s, Producer({}));
    if s.input != [] {
      WorkLinesHead(s.input);
      t := FinishWithoutConsumers(n, script, t);
    } else {
      t := ShutDown(n, script, t);
      t := AllStop(n, script, t, 0);
    }
  }

  /** The producer sets `done`, broadcasts to nobody, and returns. */
  lemma ShutDown(n: nat, script: seq<string>, s: State) returns (t: State)
    requires Reachable(n, script, s) && s.ppc == PSetDone && s.holder.Free? && All(s.cs, CLoop)
    ensures Reachable(n, script, t) && t.ppc == PReturned && t.cs == s.cs && t.buffer == s.buffer
  {
    t := Go(n, script, s, Producer({}));
    t := Go(n, script, t, Producer({}));
    t := Go(n, script, t, Producer({}));
    assert t.cs == s.cs;
    t := Go(n, script, t, Producer({}));
    t := Go(n, script, t, Producer({}));
  }

  lemma {:induction false} LeaveLastCommand(n: nat, script: seq<string>, s: State) returns (t: State)
    requires Reachable(n, script, s) && s.ppc == PRead && s.holder.Free? && s.inProgress
    requires |s.cs| > 0 && All(s.cs, CLoop) && s.buffer == [] && WorkLines(s.input) != []
    ensures Reachable(n, script, t) && Finished(t) && t.buffer != []
    decreases |s.input|
  {
    WorkLinesHead(s.input);
    if !IsWork(s.input[0]) {
      t := Go(n, script, s, Producer({}));
      t := LeaveLastCommand(n, script, t);
    } else {
      t := PushLine(n, script, s);
      if WorkLines(t.input) == [] {
        t := FinishWithoutConsumers(n, script, t);
      } else {
        t := TakeLine(n, script, t);
        t := LeaveLastCommand(n, script, t);
      }
    }
  }

  /** All threads can return with work still queued exactly when there is a consumer and there is
      work: a consumer tests only `in_progress`, not the queue, before it leaves the outer loop. */
  lemma UndrainedExactly(n: nat, script: seq<string>)
    ensures (exists t :: Reachable(n, script, t) && Finished(t) && t.buffer != []) <==>
            n > 0 && WorkLines(script) != []
  {
    if t :| Reachable(n, script, t) && Finished(t) && t.buffer != [] {
      ReachableInv(n, script, t);
      ExactlyOnce(n, script, t);
    }
    if n > 0 && WorkLines(script) != [] {
      var s := Init(n, script);
      assert Run(s, [], s);
      s := Go(n, script, s, Producer({}));
      var t := LeaveLastCommand(n, script, s);
    }
  }
}
