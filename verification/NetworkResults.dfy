/** What holds in the reachable states of the network, whatever the number of switches, the traffic
    and the interleaving: some of it always, and some of it as long as the controller misreads nothing. */
module NetworkResults {
  import opened Decimal
  import opened Packets
  import opened Switch
  import opened Controller
  import opened PacketReader
  import opened Network
  import opened NetworkInvariant
  import opened Sets

  // ---------------------------------------------------------------- control channel

  /** Whatever was misread before, at most one message is in flight on a control connection, over
      both directions, and it is of the type the reader expects: so a read finds one whole packet. */
  lemma ControlChannel(cfgs: seq<Config>, t: Net, k: nat)
    requires Reachable(cfgs, t) && !t.overrun && k < |cfgs|
    ensures k < |t.sws| && k < |t.up| && k < |t.down| && t.sws[k].cfg == cfgs[k]
    ensures |t.up[k]| + |t.down[k]| <= 1
    ensures t.up[k] != [] ==> t.up[k][0].Open? == !t.sws[k].ackReceived && t.up[k][0].Query? == t.sws[k].ackReceived
    ensures t.down[k] != [] ==> t.down[k][0].Ack? == !t.sws[k].ackReceived && t.down[k][0].Add? == t.sws[k].ackReceived
  {
    ReachableSound(cfgs, t);
    assert SoundAt(t, cfgs, k);
  }

  /** Strict alternation in its exact form, whatever was misread: a message is in flight exactly when the
      switch has started and waits for something, unless the controller has dropped a query of the switch. */
  lemma AlternationExactly(cfgs: seq<Config>, t: Net, k: nat)
    requires Reachable(cfgs, t) && !t.overrun && k < |cfgs|
    ensures k < |t.sws| && k < |t.up| && k < |t.down|
    ensures t.sws[k].Running() ==>
              ((|t.up[k]| + |t.down[k]| == 1 <==>
                t.sws[k].counts.open > 0 && !(t.sws[k].ackReceived && t.sws[k].addReceived)) <==>
               k + 1 !in t.ctl.unanswered)
  {
    ReachableSound(cfgs, t);
    assert SoundAt(t, cfgs, k);
  }

  /** As long as the controller misreads nothing, it drops no query, and the alternation is strict. */
  lemma Alternation(cfgs: seq<Config>, t: Net, k: nat)
    requires CleanlyReachable(cfgs, t) && k < |cfgs|
    ensures k + 1 !in t.ctl.unanswered && k < |t.sws| && k < |t.up| && k < |t.down|
    ensures |t.up[k]| + |t.down[k]| <= 1
    ensures t.sws[k].Running() ==>
              (|t.up[k]| + |t.down[k]| == 1 <==>
               t.sws[k].counts.open > 0 && !(t.sws[k].ackReceived && t.sws[k].addReceived))
  {
    ReachableInv(cfgs, t);
    ControlChannel(cfgs, t, k);
    assert SoundAt(t, cfgs, k) && NodeAt(t, k);
  }

  /** The counters of a running switch always add up. */
  lemma PacketAccounting(cfgs: seq<Config>, t: Net, k: nat)
    requires Reachable(cfgs, t) && !t.overrun && k < |t.sws| && t.sws[k].Running()
    ensures Accounted(t.sws[k])
  {
    ReachableSound(cfgs, t);
    assert SoundAt(t, cfgs, k);
  }

  // ---------------------------------------------------------------- queries

  function IpsBelow(n: nat): (s: set<int>)
    ensures |s| == n && forall ip: int :: ip in s <==> 0 <= ip < n
  {
    if n == 0 then {} else IpsBelow(n - 1) + {n - 1}
  }

  function IpsBetween(low: nat, n: nat): (s: set<int>)
    ensures |s| == n && forall ip: int :: ip in s <==> low <= ip < low + n
  {
    if n == 0 then {} else IpsBetween(low, n - 1) + {low + n - 1}
  }

  function Members(xs: seq<int32>): (s: set<int>)
    ensures forall x: int :: x in s <==> x in xs
  {
    set x: int | x in xs
  }

  lemma {:induction false} DistinctCount(xs: seq<int32>)
    requires forall i, j | 0 <= i < j < |xs| :: xs[i] != xs[j]
    ensures |Members(xs)| == |xs|
  {
    if xs != [] {
      var m := |xs| - 1;
      DistinctCount(xs[..m]);
      assert Members(xs) == Members(xs[..m]) + {xs[m]};
    }
  }

  /** No switch asks about the same destination twice, and none about its own range; so it sends at
      most one QUERY for each foreign address, and its flow table has at most one rule more than that. */
  lemma QueriesBounded(cfgs: seq<Config>, t: Net, k: nat)
    requires CleanlyReachable(cfgs, t) && k < |cfgs| && k < |t.sws| && t.sws[k].Running() && ValidConfig(cfgs[k])
    ensures var sw := t.sws[k];
            && |sw.queried| == sw.counts.query
            && (forall i, j | 0 <= i < j < |sw.queried| :: sw.queried[i] != sw.queried[j])
            && (forall ip | ip in sw.queried :: ValidIp(ip) && !cfgs[k].Owns(ip))
            && sw.counts.query <= MAX_IP + 1 - (cfgs[k].ipHigh - cfgs[k].ipLow + 1)
            && |sw.flowTable| <= 1 + MAX_IP + 1 - (cfgs[k].ipHigh - cfgs[k].ipLow + 1)
  {
    ReachableInv(cfgs, t);
    assert SoundAt(t, cfgs, k) && NodeAt(t, k);
    var sw := t.sws[k];
    DistinctCount(sw.queried);
    var asked := Members(sw.queried);
    var every := IpsBelow(MAX_IP + 1);
    var own := IpsBetween(cfgs[k].ipLow, cfgs[k].ipHigh - cfgs[k].ipLow + 1);
    assert own <= every;
    assert asked <= every - own;
    assert |every - own| == |every| - |own|;
    SubsetSize(asked, every - own);
  }

  // ---------------------------------------------------------------- the flow table as a cache

  ghost predicate DisjointRanges(cfgs: seq<Config>) {
    && (forall k | 0 <= k < |cfgs| :: ValidConfig(cfgs[k]))
    && (forall i, j | 0 <= i < j < |cfgs| :: RangesApart(cfgs[i], cfgs[j]))
  }

  predicate RangesApart(a: Config, b: Config) { a.ipHigh < b.ipLow || b.ipHigh < a.ipLow }

  /** What a rule tells the switch to do, in the controller's terms. */
  function ActionOf(r: FlowRule): Decision {
    if r.actionType.Drop? then DropIt else ForwardTo(r.actionVal, r.destIpLow, r.destIpHigh)
  }

  lemma OwnersApart(ctl: ControllerState, cfgs: seq<Config>, i: nat, j: nat)
    requires RegisterInv(ctl, cfgs) && DisjointRanges(cfgs)
    requires i < |ctl.infoTable| && j < |ctl.infoTable| && i != j
    ensures RangesApart(ctl.infoTable[i], ctl.infoTable[j])
  {
    var a, b := ctl.slots[i] - 1, ctl.slots[j] - 1;
    assert a != b;
    assert a < b ==> RangesApart(cfgs[a], cfgs[b]);
    assert b < a ==> RangesApart(cfgs[b], cfgs[a]);
  }

  /** Coherence in its exact form.  A hit on a foreign destination does what the controller would
      decide now, except when the rule is a DROP for an address that has been registered since. */
  lemma HitAgrees(cfgs: seq<Config>, t: Net, k: nat, destIp: int32)
    requires CleanlyReachable(cfgs, t) && DisjointRanges(cfgs) && k < |cfgs| && k < |t.sws| && t.sws[k].Running()
    requires !cfgs[k].Owns(destIp) && Covered(t.sws[k].flowTable, destIp)
    ensures var rule := t.sws[k].flowTable[FirstMatch(t.sws[k].flowTable, destIp)];
            ActionOf(rule) == Decide(t.ctl.infoTable, k + 1, destIp) <==>
            !(rule.actionType.Drop? && !Unowned(t.ctl.infoTable, destIp))
  {
    ReachableInv(cfgs, t);
    assert SoundAt(t, cfgs, k) && NodeAt(t, k);
    var f := FirstMatch(t.sws[k].flowTable, destIp);
    var rule := t.sws[k].flowTable[f];
    assert f != 0;
    assert RuleOk(t.ctl, k + 1, rule);
    if rule.actionType.Forward? {
      var j: nat :| Backs(t.ctl, k + 1, j, rule.destIpLow, rule.destIpHigh, rule.actionVal);
      OwnerIsFirst(t.ctl, cfgs, j, destIp);
    }
  }

  lemma OwnerIsFirst(ctl: ControllerState, cfgs: seq<Config>, j: nat, ip: int32)
    requires RegisterInv(ctl, cfgs) && DisjointRanges(cfgs) && j < |ctl.infoTable| && ctl.infoTable[j].Owns(ip)
    ensures FirstOwner(ctl.infoTable, ip) == j
  {
    var f := FirstOwner(ctl.infoTable, ip);
    if f != j { OwnersApart(ctl, cfgs, f, j); }
  }

  /** When every OPEN is handled before the first QUERY, the flow table is a coherent cache: each
      hit agrees with the controller, and the rules are disjoint, so the first match is the only one. */
  lemma CoherentCache(cfgs: seq<Config>, t: Net, k: nat, destIp: int32, r: nat)
    requires CleanlyReachable(cfgs, t) && DisjointRanges(cfgs) && !t.ctl.lateOpen
    requires k < |cfgs| && k < |t.sws| && t.sws[k].Running()
    requires r < |t.sws[k].flowTable| && t.sws[k].flowTable[r].Matches(destIp)
    ensures FirstMatch(t.sws[k].flowTable, destIp) == r
    ensures r == 0 <==> cfgs[k].Owns(destIp)
    ensures r > 0 ==> ActionOf(t.sws[k].flowTable[r]) == Decide(t.ctl.infoTable, k + 1, destIp)
  {
    ReachableInv(cfgs, t);
    ReachableApart(cfgs, t);
    assert SoundAt(t, cfgs, k) && NodeAt(t, k);
    OnlyMatch(t.sws[k].flowTable, destIp, r);
    FirstMatchIs(t.sws[k].flowTable, destIp, r);
    if r > 0 {
      assert RuleOk(t.ctl, k + 1, t.sws[k].flowTable[r]);
      assert !t.sws[k].flowTable[0].Matches(destIp);
      HitAgrees(cfgs, t, k, destIp);
    }
  }

  ghost predicate ApartInv(net: Net) {
    !net.ctl.lateOpen ==> forall k: nat | k < |net.sws| && net.sws[k].Running() :: PairwiseApart(net.sws[k].flowTable)
  }

  /** A new rule overlaps none of the old ones. */
  lemma AnswerApart(sw: SwitchState, cfgs: seq<Config>, slot: nat, ctl: ControllerState, p: Packet, r: nat)
    requires RegisterInv(ctl, cfgs) && DisjointRanges(cfgs) && 1 <= slot <= |cfgs| && sw.cfg == cfgs[slot - 1]
    requires TableInv(sw, slot, ctl) && QueryInv(sw) && !sw.addReceived && !ctl.lateOpen
    requires AnswerOk(ctl, slot, sw.queried[|sw.queried| - 1], p) && r < |sw.flowTable|
    ensures Apart(sw.flowTable[r], NewRule(p.action, p.addLow, p.addHigh, p.relayPort))
  {
    var ip := sw.queried[|sw.queried| - 1];
    var rule := sw.flowTable[r];
    assert !rule.Matches(ip);
    if p.action != 0 {
      var j: nat :| Backs(ctl, slot, j, p.addLow, p.addHigh, p.relayPort);
      var m := ctl.slots[j] - 1;
      if r == 0 {
        assert if m < slot - 1 then RangesApart(cfgs[m], cfgs[slot - 1]) else RangesApart(cfgs[slot - 1], cfgs[m]);
      } else {
        assert RuleOk(ctl, slot, rule);
        if rule.actionType.Forward? {
          var i: nat :| Backs(ctl, slot, i, rule.destIpLow, rule.destIpHigh, rule.actionVal);
          assert i != j;
          OwnersApart(ctl, cfgs, i, j);
        } else {
          assert Unowned(ctl.infoTable, rule.destIpLow);
          assert !ctl.infoTable[j].Owns(rule.destIpLow);
        }
      }
    }
  }

  lemma TableAfterControl(sw: SwitchState, i: int32, p: Packet, pipes: set<Pipe>)
    ensures var t := Receive(sw, i, p, pipes).sw;
            t.Running() && t.flowTable != sw.flowTable ==>
              p.Add? && t.flowTable == sw.flowTable + [NewRule(p.action, p.addLow, p.addHigh, p.relayPort)]
  {
  }

  lemma ControlKeepsApart(sw: SwitchState, cfgs: seq<Config>, slot: nat, ctl: ControllerState, p: Packet, pipes: set<Pipe>)
    requires RegisterInv(ctl, cfgs) && DisjointRanges(cfgs) && 1 <= slot <= |cfgs| && sw.cfg == cfgs[slot - 1]
    requires TableInv(sw, slot, ctl) && QueryInv(sw) && !ctl.lateOpen && PairwiseApart(sw.flowTable)
    requires p.Ack? || (!sw.addReceived && AnswerOk(ctl, slot, sw.queried[|sw.queried| - 1], p))
    ensures var t := Receive(sw, CONTROL, p, pipes).sw; t.Running() ==> PairwiseApart(t.flowTable)
  {
    var t := Receive(sw, CONTROL, p, pipes).sw;
    TableAfterControl(sw, CONTROL, p, pipes);
    if t.Running() && t.flowTable != sw.flowTable {
      forall r | 0 <= r < |sw.flowTable| ensures Apart(t.flowTable[r], t.flowTable[|sw.flowTable|]) {
        AnswerApart(sw, cfgs, slot, ctl, p, r);
      }
    }
  }

  lemma AdmitKeepsApart(sw: SwitchState, srcIp: int32, destIp: int32, pipes: set<Pipe>)
    requires PairwiseApart(sw.flowTable)
    ensures PairwiseApart(Admit(sw, srcIp, destIp, pipes).sw.flowTable)
  {
    if Covered(sw.flowTable, destIp) { HitFrame(sw, srcIp, destIp, pipes); }
    var table := Admit(sw, srcIp, destIp, pipes).sw.flowTable;
    forall i, j | 0 <= i < j < |table| ensures Apart(table[i], table[j]) {
      assert Apart(sw.flowTable[i], sw.flowTable[j]);
    }
  }

  /** The switch that a step concerns, if it concerns one. */
  function SwitchOf(a: Action): int { if a.ControllerPolls? then -1 else a.k }

  /** The packet that a step reads, if it reads one, is taken for `q`. */
  predicate Hears(net: Net, a: Action, q: Packet)
    requires Enabled(net, a)
  {
    HearingOf(net, a).Some? ==> HearingOf(net, a).value.packet == Some(q)
  }

  /** ... and at a switch `q` is of the kind of what was sent. */
  predicate Fits(net: Net, a: Action, q: Packet)
    requires Enabled(net, a)
  {
    (a.SwitchReads? ==> SameButLast(net.down[a.k][0], q)) && (a.RelayArrives? ==> q.Relay?)
  }

  lemma HeardFits(net: Net, a: Action) returns (q: Packet)
    requires Enabled(net, a) && AllRelays(net.air) && !Apply(net, a).overrun
    ensures Hears(net, a, q) && Fits(net, a, q)
  {
    HistoryIs(net, a);
    q := if HearingOf(net, a).Some? then HearingOf(net, a).value.packet.value else Ack;
    match a
    case SwitchReads(k) => ReadIs(net.readers[k].left, net.down[k]);
    case RelayArrives(k, port, n) => ReadsRelay(net, k, port, n);
    case _ =>
  }

  /** What a step makes of the switch it concerns, when it hears `q`. */
  function Outcome(net: Net, a: Action, q: Packet): SwitchState
    requires Enabled(net, a) && !a.ControllerPolls?
  {
    match a
    case Start(k) => SendOpen(net.sws[k]).sw
    case SetUpPort(k) => MakePipe(net.sws[k])
    case AdmitLine(k, srcIp, destIp) => Admit(net.sws[k], srcIp, destIp, net.pipes).sw
    case SwitchReads(k) => Receive(net.sws[k], CONTROL, q, net.pipes).sw
    case RelayArrives(k, port, n) => Receive(net.sws[k], port, q, net.pipes).sw
    case ControllerReads(k) => net.sws[k]
    case SwitchPolls(k, _) => net.sws[k]
  }

  /** A step changes at most the switch it concerns, and as a reaction to what it hears. */
  ghost predicate Changes(net: Net, a: Action, q: Packet, t: Net)
    requires Enabled(net, a)
  {
    && |t.sws| == |net.sws|
    && (forall j: nat | j < |net.sws| && j != SwitchOf(a) :: t.sws[j] == net.sws[j])
    && (!a.ControllerReads? ==> t.ctl == net.ctl)
    && (!a.SetUpPort? ==> t.pipes == net.pipes)
    && (net.ctl.lateOpen ==> t.ctl.lateOpen)
    && (!a.ControllerPolls? ==> t.sws[a.k] == Outcome(net, a, q))
  }

  lemma StepChanges(net: Net, a: Action, q: Packet)
    requires Enabled(net, a) && Hears(net, a, q)
    ensures Changes(net, a, q, Apply(net, a))
  {
    if a.ControllerReads? {
      ControllerHearsChanges(TakeUp(net, a.k), a.k, HearingOf(net, a).value);
    } else if HearingOf(net, a).Some? {
      SwitchStepChanges(net, a, q);
    } else {
      QuietStepChanges(net, a, q);
    }
  }

  lemma QuietStepChanges(net: Net, a: Action, q: Packet)
    requires Enabled(net, a) && HearingOf(net, a).None?
    ensures Changes(net, a, q, Apply(net, a))
  {
    match a
    case Start(k) =>
    case AdmitLine(k, srcIp, destIp) =>
    case _ =>
  }

  lemma ControllerHearsChanges(net: Net, k: nat, h: Hearing)
    requires Shape(net) && k < |net.sws|
    ensures var t := ControllerHears(net, k, h);
            t.sws == net.sws && t.pipes == net.pipes && (net.ctl.lateOpen ==> t.ctl.lateOpen)
  {
  }

  lemma SwitchStepChanges(net: Net, a: Action, q: Packet)
    requires Enabled(net, a) && (a.SwitchReads? || a.RelayArrives?) && Hears(net, a, q)
    ensures var t := Apply(net, a);
            t.ctl == net.ctl && t.pipes == net.pipes && t.sws == net.sws[a.k := Outcome(net, a, q)]
  {
    match a
    case SwitchReads(k) => HearsChanges(TakeDown(net, k), k, CONTROL, HearingOf(net, a).value);
    case RelayArrives(k, port, n) =>
      var src, dst := net.sws[k].cfg.Neighbour(port), net.sws[k].cfg.id;
      HearsChanges(TakeRelays(net, src, dst, n), k, port, HearingOf(net, a).value);
  }

  lemma HearsChanges(net: Net, k: nat, i: int32, h: Hearing)
    requires Shape(net) && k < |net.sws| && h.packet.Some?
    ensures var t := SwitchHears(net, k, i, h);
            && t.ctl == net.ctl && t.pipes == net.pipes
            && t.sws == net.sws[k := Receive(net.sws[k], i, h.packet.value, net.pipes).sw]
  {
  }

  lemma StepKeepsApart(net: Net, cfgs: seq<Config>, a: Action)
    requires Inv(net, cfgs) && DisjointRanges(cfgs) && ApartInv(net) && Enabled(net, a) && !Apply(net, a).overrun
    ensures ApartInv(Apply(net, a))
  {
    var q := HeardFits(net, a);
    StepChanges(net, a, q);
    if !net.ctl.lateOpen && !a.ControllerPolls? && net.sws[a.k].Running() { OutcomeApart(net, cfgs, a, q); }
    assert forall k: nat | k < |net.sws| && k != SwitchOf(a) :: Apply(net, a).sws[k] == net.sws[k];
    if !a.ControllerPolls? { StepOnlyStops(net, cfgs, a, q); }
  }

  /** A process that has exited does not come back. */
  lemma StepOnlyStops(net: Net, cfgs: seq<Config>, a: Action, q: Packet)
    requires Sound(net, cfgs) && Enabled(net, a) && !a.ControllerPolls?
    ensures Outcome(net, a, q).Running() ==> net.sws[a.k].Running()
  {
    if a.Start? { assert SoundAt(net, cfgs, a.k); }
  }

  lemma OutcomeApart(net: Net, cfgs: seq<Config>, a: Action, q: Packet)
    requires Inv(net, cfgs) && DisjointRanges(cfgs) && Enabled(net, a) && !a.ControllerPolls? && Fits(net, a, q)
    requires !net.ctl.lateOpen && PairwiseApart(net.sws[a.k].flowTable)
    ensures Outcome(net, a, q).Running() ==> PairwiseApart(Outcome(net, a, q).flowTable)
  {
    match a
    case AdmitLine(k, srcIp, destIp) => AdmitKeepsApart(net.sws[k], srcIp, destIp, net.pipes);
    case SwitchReads(k) => ControlOutcomeApart(net, cfgs, k, q);
    case RelayArrives(k, port, n) => RelayKeepsTable(net, cfgs, k, port, q);
    case _ =>
  }

  lemma ControlOutcomeApart(net: Net, cfgs: seq<Config>, k: nat, q: Packet)
    requires Inv(net, cfgs) && DisjointRanges(cfgs) && k < |cfgs| && net.sws[k].Running() && net.down[k] != []
    requires !net.ctl.lateOpen && PairwiseApart(net.sws[k].flowTable) && SameButLast(net.down[k][0], q)
    ensures var t := Receive(net.sws[k], CONTROL, q, net.pipes).sw; t.Running() ==> PairwiseApart(t.flowTable)
  {
    assert SoundAt(net, cfgs, k) && NodeAt(net, k);
    var sw := net.sws[k];
    if sw.ackReceived { AnswerButLast(net.ctl, k + 1, sw.queried[|sw.queried| - 1], net.down[k][0], q); }
    ControlKeepsApart(sw, cfgs, k + 1, net.ctl, q, net.pipes);
  }

  lemma RelayKeepsTable(net: Net, cfgs: seq<Config>, k: nat, port: int32, q: Packet)
    requires Sound(net, cfgs) && k < |cfgs| && net.sws[k].Running() && q.Relay?
    ensures SameButRelays(net.sws[k], Receive(net.sws[k], port, q, net.pipes).sw)
  {
    assert SoundAt(net, cfgs, k);
    RelayFrame(net.sws[k], port, q.relaySrc, q.relayDest);
  }

  lemma {:induction false} RunKeepsApart(s: Net, acts: seq<Action>, t: Net, cfgs: seq<Config>)
    requires Inv(s, cfgs) && DisjointRanges(cfgs) && ApartInv(s) && Run(s, acts, t) && !t.misread && !t.overrun
    ensures ApartInv(t)
    decreases |acts|
  {
    if acts != [] {
      var n := |acts| - 1;
      var m :| Run(s, acts[..n], m) && Step(m, acts[n], t);
      HistoryStays(m, acts[n]);
      RunKeepsInv(s, acts[..n], m, cfgs);
      RunKeepsApart(s, acts[..n], m, cfgs);
      StepKeepsApart(m, cfgs, acts[n]);
    }
  }

  lemma ReachableApart(cfgs: seq<Config>, t: Net)
    requires CleanlyReachable(cfgs, t) && DisjointRanges(cfgs)
    ensures ApartInv(t)
  {
    var acts :| Run(Init(cfgs), acts, t);
    InitInv(cfgs);
    RunKeepsApart(Init(cfgs), acts, t, cfgs);
  }

  // ---------------------------------------------------------------- conservation of RELAYs

  function SumIn(sws: seq<SwitchState>): nat {
    if sws == [] then 0 else SumIn(sws[..|sws| - 1]) + sws[|sws| - 1].counts.relayIn
  }

  function SumOut(sws: seq<SwitchState>): nat {
    if sws == [] then 0 else SumOut(sws[..|sws| - 1]) + sws[|sws| - 1].counts.relayOut
  }

  lemma {:induction false} SumsAfterUpdate(sws: seq<SwitchState>, k: nat, sw: SwitchState)
    requires k < |sws|
    ensures SumIn(sws[k := sw]) == SumIn(sws) - sws[k].counts.relayIn + sw.counts.relayIn
    ensures SumOut(sws[k := sw]) == SumOut(sws) - sws[k].counts.relayOut + sw.counts.relayOut
  {
    var m := |sws| - 1;
    if k < m {
      assert sws[k := sw][..m] == sws[..m][k := sw];
      SumsAfterUpdate(sws[..m], k, sw);
    } else {
      assert sws[k := sw][..m] == sws[..m];
    }
  }

  /** The RELAYs a reaction writes are the ones it counts. */
  predicate CountsItsRelays(sw: SwitchState, r: Reaction) {
    r.sw.counts.relayOut == sw.counts.relayOut + (if r.out.Some? && !r.out.value.ToController? then 1 else 0)
  }

  /** RELAYs that were written and are neither received nor in flight. */
  function Gone(net: Net): nat { net.lost + net.merged }

  ghost predicate ConservedInv(net: Net) {
    SumOut(net.sws) == SumIn(net.sws) + |net.air| + Gone(net)
  }

  lemma ReactConserves(net: Net, k: nat, r: Reaction)
    requires Shape(net) && k < |net.sws| && CountsItsRelays(net.sws[k], r)
    ensures var t := React(net, k, r);
            SumOut(t.sws) - |t.air| - Gone(t) - SumIn(t.sws) + r.sw.counts.relayIn ==
            SumOut(net.sws) - |net.air| - Gone(net) - SumIn(net.sws) + net.sws[k].counts.relayIn
  {
    SumsAfterUpdate(net.sws, k, r.sw);
    ReactWrites(net, k, r);
  }

  lemma ReactWrites(net: Net, k: nat, r: Reaction)
    requires Shape(net) && k < |net.sws|
    ensures var t := React(net, k, r);
            |t.air| + Gone(t) == |net.air| + Gone(net) + (if r.out.Some? && !r.out.value.ToController? then 1 else 0)
  {
  }

  lemma AdmitCountsRelays(net: Net, cfgs: seq<Config>, k: nat, srcIp: int32, destIp: int32)
    requires Sound(net, cfgs) && Enabled(net, AdmitLine(k, srcIp, destIp))
    ensures var r := Admit(net.sws[k], srcIp, destIp, net.pipes);
            CountsItsRelays(net.sws[k], r) && r.sw.counts.relayIn == net.sws[k].counts.relayIn
  {
    assert SoundAt(net, cfgs, k);
    if Covered(net.sws[k].flowTable, destIp) {
      HitOutput(net.sws[k], srcIp, destIp, net.pipes);
    }
  }

  lemma ControllerHearsConserves(net: Net, k: nat, h: Hearing)
    requires Shape(net) && k < |net.sws| && ConservedInv(net)
    ensures ConservedInv(ControllerHears(TakeUp(net, k), k, h))
  {
    var t := ControllerHears(TakeUp(net, k), k, h);
    assert t.sws == net.sws && t.air == net.air && Gone(t) == Gone(net);
  }

  lemma SwitchHearsConserves(net: Net, cfgs: seq<Config>, k: nat, h: Hearing)
    requires Sound(net, cfgs) && ConservedInv(net) && k < |cfgs| && net.sws[k].Running() && net.down[k] != []
    requires h.packet.Some? && SameButLast(net.down[k][0], h.packet.value)
    ensures ConservedInv(SwitchHears(TakeDown(net, k), k, CONTROL, h))
  {
    ControlCountsRelays(net.sws[k], cfgs[k], StandingOf(net.ctl, k + 1), net.up[k], net.down[k], h.packet.value, net.pipes) by {
      assert SoundAt(net, cfgs, k);
    }
    ReactConserves(Heard(TakeDown(net, k), k, h), k, Receive(net.sws[k], CONTROL, h.packet.value, net.pipes));
  }

  lemma ControlCountsRelays(sw: SwitchState, cfg: Config, at: Standing, up: seq<Packet>, down: seq<Packet>, q: Packet, pipes: set<Pipe>)
    requires SoundNode(sw, cfg, at, up, down) && sw.Running() && down != [] && SameButLast(down[0], q)
    ensures var r := Receive(sw, CONTROL, q, pipes); CountsItsRelays(sw, r) && r.sw.counts.relayIn == sw.counts.relayIn
  {
    if sw.ackReceived { AddOutput(sw, CONTROL, q, pipes); }
  }

  lemma RelayHeardConserves(net: Net, cfgs: seq<Config>, k: nat, port: int32, n: nat, src: int32, dst: int32, h: Hearing)
    requires Sound(net, cfgs) && ConservedInv(net) && k < |cfgs| && net.sws[k].Running()
    requires 0 < n <= |Waiting(net.air, src, dst)| && h.packet.Some? && h.packet.value.Relay?
    ensures ConservedInv(SwitchHears(TakeRelays(net, src, dst, n), k, port, h))
  {
    var sw, p := net.sws[k], h.packet.value;
    assert SoundAt(net, cfgs, k);
    RelayFrame(sw, port, p.relaySrc, p.relayDest);
    ReactConserves(Heard(TakeRelays(net, src, dst, n), k, h), k, Receive(sw, port, p, net.pipes));
  }

  lemma StepConserves(net: Net, cfgs: seq<Config>, a: Action)
    requires Sound(net, cfgs) && ConservedInv(net) && Enabled(net, a) && !Apply(net, a).overrun
    ensures ConservedInv(Apply(net, a))
  {
    HistoryIs(net, a);
    match a
    case Start(k) => ReactConserves(net, k, SendOpen(net.sws[k]));
    case AdmitLine(k, srcIp, destIp) =>
      AdmitCountsRelays(net, cfgs, k, srcIp, destIp);
      ReactConserves(net, k, Admit(net.sws[k], srcIp, destIp, net.pipes));
    case SetUpPort(k) => SumsAfterUpdate(net.sws, k, MakePipe(net.sws[k]));
    case ControllerPolls(_) =>
    case SwitchPolls(_, _) =>
    case _ => ReadConserves(net, cfgs, a);
  }

  lemma ReadConserves(net: Net, cfgs: seq<Config>, a: Action)
    requires Sound(net, cfgs) && ConservedInv(net) && Enabled(net, a)
    requires HearingOf(net, a).Some? && HearingOf(net, a).value.packet.Some?
    ensures ConservedInv(Apply(net, a))
  {
    var h := HearingOf(net, a).value;
    match a
    case ControllerReads(k) => ControllerHearsConserves(net, k, h);
    case SwitchReads(k) =>
      ReadIs(net.readers[k].left, net.down[k]);
      SwitchHearsConserves(net, cfgs, k, h);
    case RelayArrives(k, port, n) => RelayArrivesConserves(net, cfgs, k, port, n, h);
  }

  lemma RelayArrivesConserves(net: Net, cfgs: seq<Config>, k: nat, port: int32, n: nat, h: Hearing)
    requires Sound(net, cfgs) && ConservedInv(net) && Enabled(net, RelayArrives(k, port, n))
    requires HearingOf(net, RelayArrives(k, port, n)) == Some(h) && h.packet.Some?
    ensures ConservedInv(Apply(net, RelayArrives(k, port, n)))
  {
    var src, dst := net.sws[k].cfg.Neighbour(port), net.sws[k].cfg.id;
    ReadsRelay(net, k, port, n);
    RelayHeardConserves(net, cfgs, k, port, n, src, dst, h);
  }

  lemma {:induction false} RunConserves(s: Net, acts: seq<Action>, t: Net, cfgs: seq<Config>)
    requires Sound(s, cfgs) && ConservedInv(s) && Run(s, acts, t) && !t.overrun
    ensures ConservedInv(t)
    decreases |acts|
  {
    if acts != [] {
      var n := |acts| - 1;
      var m :| Run(s, acts[..n], m) && Step(m, acts[n], t);
      HistoryStays(m, acts[n]);
      RunSound(s, acts[..n], m, cfgs);
      RunConserves(s, acts[..n], m, cfgs);
      StepConserves(m, cfgs, acts[n]);
    }
  }

  lemma {:induction false} SumsAtBoot(cfgs: seq<Config>)
    ensures SumIn(Init(cfgs).sws) == SumOut(Init(cfgs).sws) == 0
  {
    if cfgs != [] {
      var m := |cfgs| - 1;
      assert Init(cfgs).sws[..m] == Init(cfgs[..m]).sws;
      SumsAtBoot(cfgs[..m]);
    }
  }

  /** In any network, whatever was misread, all RELAYs sent are received, in flight, written to
      descriptor 0, or were read together with an earlier one and not seen. */
  lemma RelaysConserved(cfgs: seq<Config>, t: Net)
    requires Reachable(cfgs, t) && !t.overrun
    ensures SumOut(t.sws) == SumIn(t.sws) + |t.air| + t.lost + t.merged
  {
    var acts :| Run(Init(cfgs), acts, t);
    InitSound(cfgs);
    SumsAtBoot(cfgs);
    RunConserves(Init(cfgs), acts, t, cfgs);
  }
}
