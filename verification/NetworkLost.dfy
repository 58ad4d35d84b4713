/** RELAYs written to descriptor 0, in any topology: a switch passes a RELAY on without opening the FIFO
    of the port it passes it to. */
module NetworkLost {
  import opened Decimal
  import opened Packets
  import opened PacketReader
  import opened Switch
  import opened Controller
  import opened Network
  import opened NetworkInvariant
  import opened NetworkResults
  import opened NetworkChain
  import opened NetworkRuns
  import opened NetworkLimits

  /** Switch a is named a port for the range of switch m that leads to port i of another switch k, which
      does not take the RELAY for its own: its id is not the number of the port. */
  predicate PassesOn(cfgs: seq<Config>, a: nat, m: nat, k: nat, i: int32) {
    && a < |cfgs| && m < |cfgs| && k < |cfgs| && m != a && k != m && ForwardsOut(i)
    && cfgs[a].Neighbour(RelayPort(cfgs[m].id, a + 1)) == cfgs[k].id != NULL_PORT
    && cfgs[k].Neighbour(i) == cfgs[a].id != NULL_PORT
    && cfgs[k].id != i
  }

  ghost predicate SomePassesOn(cfgs: seq<Config>) {
    exists a: nat, m: nat, k: nat, i: int32 :: PassesOn(cfgs, a, m, k, i)
  }

  /** No port leads back to the switch itself. */
  predicate LoopFree(cfgs: seq<Config>) {
    forall k | 0 <= k < |cfgs| :: cfgs[k].port1Id != cfgs[k].id && cfgs[k].port2Id != cfgs[k].id && cfgs[k].id != NULL_PORT
  }

  // ---------------------------------------------------------------- without such a switch

  /** The RELAY was sent by switch a for an address of switch m, out of the port it was named. */
  predicate SentFor(cfgs: seq<Config>, a: nat, m: nat, f: Flight) {
    && a < |cfgs| && m < |cfgs| && m != a && f.packet.Relay? && cfgs[m].Owns(f.packet.relayDest)
    && f.src == cfgs[a].id && f.dst == cfgs[a].Neighbour(RelayPort(cfgs[m].id, a + 1)) != NULL_PORT
  }

  ghost predicate FirstHop(cfgs: seq<Config>, f: Flight) { exists a: nat, m: nat :: SentFor(cfgs, a, m, f) }

  /** What is mapped for a port was opened towards a neighbour. */
  predicate OpenedOnly(sw: SwitchState) {
    forall p | p in sw.portToFd :: !sw.portToFd[p].Zero? && (sw.portToFd[p].Fifo? ==> sw.cfg.Neighbour(p) != NULL_PORT)
  }

  ghost predicate LostInv(net: Net, cfgs: seq<Config>) {
    && net.lost == 0
    && (forall k | 0 <= k < |net.sws| :: OpenedOnly(net.sws[k]))
    && (forall f | f in net.air :: FirstHop(cfgs, f))
  }

  ghost predicate WritesFirstHop(cfgs: seq<Config>, r: Reaction) {
    && OpenedOnly(r.sw)
    && (r.out.Some? ==> !r.out.value.ToDescriptorZero?)
    && (r.out.Some? && r.out.value.ToPort? ==>
          FirstHop(cfgs, Flight(r.sw.cfg.id, r.sw.cfg.Neighbour(r.out.value.port), r.out.value.packet)))
  }

  lemma ForwardFirstHop(sw: SwitchState, cfgs: seq<Config>, k: nat, m: nat, low: int32, high: int32, port: int32,
                        srcIp: int32, destIp: int32, pipes: set<Pipe>)
    requires NamedFor(cfgs, k, m, low, high, port) && sw.cfg == cfgs[k] && OpenedOnly(sw) && PortsInv(sw) && low <= destIp <= high
    ensures WritesFirstHop(cfgs, ForwardOut(sw, port, Relay(srcIp, destIp), pipes))
  {
    var f := Flight(cfgs[k].id, cfgs[k].Neighbour(port), Relay(srcIp, destIp));
    assert f.dst != NULL_PORT ==> SentFor(cfgs, k, m, f);
  }

  lemma AdmitFirstHop(net: Net, cfgs: seq<Config>, k: nat, srcIp: int32, destIp: int32)
    requires Inv(net, cfgs) && LostInv(net, cfgs) && Enabled(net, AdmitLine(k, srcIp, destIp))
    ensures WritesFirstHop(cfgs, Admit(net.sws[k], srcIp, destIp, net.pipes))
  {
    var m, rule, counted := AdmitForwards(net, cfgs, k, srcIp, destIp);
    assert PortsInv(net.sws[k]) && Admit(net.sws[k], srcIp, destIp, net.pipes).sw.cfg == cfgs[k] by { AdmitKeepsConfig(net, cfgs, k, srcIp, destIp); }
    assert OpenedOnly(net.sws[k]);
    if NamedFor(cfgs, k, m, rule.destIpLow, rule.destIpHigh, rule.actionVal) && rule.Matches(destIp) {
      ForwardFirstHop(counted, cfgs, k, m, rule.destIpLow, rule.destIpHigh, rule.actionVal, srcIp, destIp, net.pipes);
    }
  }

  lemma AdmitKeepsConfig(net: Net, cfgs: seq<Config>, k: nat, srcIp: int32, destIp: int32)
    requires Sound(net, cfgs) && Enabled(net, AdmitLine(k, srcIp, destIp))
    ensures PortsInv(net.sws[k]) && net.sws[k].cfg == cfgs[k] && Admit(net.sws[k], srcIp, destIp, net.pipes).sw.cfg == cfgs[k]
  {
    assert SoundAt(net, cfgs, k);
  }

  lemma ControlFirstHop(net: Net, cfgs: seq<Config>, k: nat, q: Packet)
    requires Inv(net, cfgs) && LostInv(net, cfgs)
    requires k < |cfgs| && net.sws[k].Running() && net.down[k] != [] && SameButLast(net.down[k][0], q)
    ensures WritesFirstHop(cfgs, Receive(net.sws[k], CONTROL, q, net.pipes))
  {
    var m := AddForwards(net, cfgs, k, q);
    assert PortsInv(net.sws[k]) by { assert SoundAt(net, cfgs, k); }
    assert OpenedOnly(net.sws[k]);
    if q.Add? && q.action == 1 {
      ForwardFirstHop(net.sws[k].(addReceived := true), cfgs, k, m, q.addLow, q.addHigh, q.relayPort, q.addSrc, q.addLow, net.pipes);
    }
  }

  /** A RELAY on its first hop is for the switch it reaches, or taken by it for its own. */
  lemma RelayFirstHop(sw: SwitchState, cfgs: seq<Config>, k: nat, port: int32, src: int32, p: Packet, pipes: set<Pipe>)
    requires !SomePassesOn(cfgs) && k < |cfgs| && sw.cfg == cfgs[k] && OpenedOnly(sw) && p.Relay?
    requires ForwardsOut(port) && src == cfgs[k].Neighbour(port) != NULL_PORT && FirstHop(cfgs, Flight(src, cfgs[k].id, p))
    ensures WritesFirstHop(cfgs, Receive(sw, port, p, pipes))
  {
    var a: nat, m: nat :| SentFor(cfgs, a, m, Flight(src, cfgs[k].id, p));
    assert !PassesOn(cfgs, a, m, k, port);
  }

  lemma ReactKeepsLost(net: Net, cfgs: seq<Config>, k: nat, r: Reaction)
    requires Shape(net) && k < |net.sws| && LostInv(net, cfgs) && WritesFirstHop(cfgs, r)
    ensures LostInv(React(net, k, r), cfgs)
  {
  }

  lemma SwitchReadsKeepsLost(net: Net, cfgs: seq<Config>, k: nat)
    requires Inv(net, cfgs) && LostInv(net, cfgs) && Enabled(net, SwitchReads(k)) && !Apply(net, SwitchReads(k)).overrun
    ensures LostInv(Apply(net, SwitchReads(k)), cfgs)
  {
    HistoryIs(net, SwitchReads(k));
    var h := Read(net.readers[k].left, net.down[k]);
    ReadIs(net.readers[k].left, net.down[k]);
    ControlFirstHop(net, cfgs, k, h.packet.value);
    ReactKeepsLost(Heard(TakeDown(net, k), k, h), cfgs, k, Receive(net.sws[k], CONTROL, h.packet.value, net.pipes));
  }

  lemma RelayHeardKeepsLost(net: Net, cfgs: seq<Config>, k: nat, port: int32, n: nat, src: int32, h: Hearing)
    requires Sound(net, cfgs) && LostInv(net, cfgs) && !SomePassesOn(cfgs)
    requires k < |cfgs| && ForwardsOut(port) && src == cfgs[k].Neighbour(port) != NULL_PORT
    requires 0 < n <= |Waiting(net.air, src, cfgs[k].id)| && h.packet == Some(Waiting(net.air, src, cfgs[k].id)[0])
    ensures LostInv(SwitchHears(TakeRelays(net, src, cfgs[k].id, n), k, port, h), cfgs)
  {
    var p := Waiting(net.air, src, cfgs[k].id)[0];
    FirstIsRelay(net.air, src, cfgs[k].id, n);
    assert FirstHop(cfgs, Flight(src, cfgs[k].id, p));
    assert net.sws[k].cfg == cfgs[k] by { assert SoundAt(net, cfgs, k); }
    RelayFirstHop(net.sws[k], cfgs, k, port, src, p, net.pipes);
    ReactKeepsLost(Heard(TakeRelays(net, src, cfgs[k].id, n), k, h), cfgs, k, Receive(net.sws[k], port, p, net.pipes));
  }

  lemma RelayArrivesKeepsLost(net: Net, cfgs: seq<Config>, k: nat, port: int32, n: nat)
    requires Sound(net, cfgs) && LostInv(net, cfgs) && !SomePassesOn(cfgs)
    requires Enabled(net, RelayArrives(k, port, n)) && HearingOf(net, RelayArrives(k, port, n)).value.clean
    ensures LostInv(Apply(net, RelayArrives(k, port, n)), cfgs)
  {
    assert net.sws[k].cfg == cfgs[k] by { assert SoundAt(net, cfgs, k); }
    var src := cfgs[k].Neighbour(port);
    ReadIs(net.readers[k].left, Waiting(net.air, src, cfgs[k].id)[..n]);
    RelayHeardKeepsLost(net, cfgs, k, port, n, src, HearingOf(net, RelayArrives(k, port, n)).value);
  }

  lemma OtherStepKeepsLost(net: Net, cfgs: seq<Config>, a: Action)
    requires LostInv(net, cfgs) && Enabled(net, a) && !a.AdmitLine? && !a.SwitchReads? && !a.RelayArrives?
    ensures LostInv(Apply(net, a), cfgs)
  {
    match a
    case Start(k) => ReactKeepsLost(net, cfgs, k, SendOpen(net.sws[k]));
    case ControllerReads(k) => ControllerTouchesNot(TakeUp(net, k), k, HearingOf(net, a).value);
    case _ =>
  }

  lemma StepKeepsLost(net: Net, cfgs: seq<Config>, a: Action)
    requires Inv(net, cfgs) && LostInv(net, cfgs) && !SomePassesOn(cfgs)
    requires Enabled(net, a) && !Apply(net, a).overrun && !Apply(net, a).garbled
    ensures LostInv(Apply(net, a), cfgs)
  {
    HistoryIs(net, a);
    match a
    case AdmitLine(k, srcIp, destIp) =>
      AdmitFirstHop(net, cfgs, k, srcIp, destIp);
      ReactKeepsLost(net, cfgs, k, Admit(net.sws[k], srcIp, destIp, net.pipes));
    case SwitchReads(k) => SwitchReadsKeepsLost(net, cfgs, k);
    case RelayArrives(k, port, n) => RelayArrivesKeepsLost(net, cfgs, k, port, n);
    case _ => OtherStepKeepsLost(net, cfgs, a);
  }

  lemma {:induction false} RunKeepsLost(s: Net, acts: seq<Action>, t: Net, cfgs: seq<Config>)
    requires Inv(s, cfgs) && LostInv(s, cfgs) && !SomePassesOn(cfgs)
    requires Run(s, acts, t) && !t.misread && !t.overrun && !t.garbled
    ensures LostInv(t, cfgs)
    decreases |acts|
  {
    if acts != [] {
      var n := |acts| - 1;
      var m :| Run(s, acts[..n], m) && Step(m, acts[n], t);
      HistoryStays(m, acts[n]);
      RunKeepsInv(s, acts[..n], m, cfgs);
      RunKeepsLost(s, acts[..n], m, cfgs);
      StepKeepsLost(m, cfgs, acts[n]);
    }
  }

  lemma NothingLost(cfgs: seq<Config>, t: Net)
    requires CleanlyReachable(cfgs, t) && !t.garbled && !SomePassesOn(cfgs)
    ensures t.lost == 0
  {
    var acts :| Run(Init(cfgs), acts, t);
    InitInv(cfgs);
    RunKeepsLost(Init(cfgs), acts, t, cfgs);
  }

  // ---------------------------------------------------------------- with one

  /** Switch a sends a packet for switch m to switch k, all having joined ... */
  lemma RelayOnItsWay(cfgs: seq<Config>, a: nat, m: nat, k: nat, i: int32, srcIp: int32) returns (t: Net)
    requires ValidIp(srcIp) && DisjointRanges(cfgs) && LoopFree(cfgs) && PassesOn(cfgs, a, m, k, i)
    ensures Settled(cfgs, t) && |t.sws| == |cfgs| && t.sws[k] == Joined(cfgs[k])
    ensures t.air == [Flight(cfgs[a].id, cfgs[k].id, Relay(srcIp, cfgs[m].ipLow))]
  {
    var port := RelayPort(cfgs[m].id, a + 1);
    var s;
    s, t := AnswerArrived(cfgs, a, m, srcIp);
    assert Member(cfgs, s, |cfgs|, k);
    PipesAre(cfgs[k], i);
    ToldIs(cfgs[a], To(cfgs[m], srcIp), cfgs[m].ipLow, cfgs[m].ipHigh, port, s.pipes);
    assert a != k;
    assert t.sws[k] == s.sws[k];
  }

  /** ... and that one passes it on to a port for which it has no descriptor. */
  lemma LoseRelay(cfgs: seq<Config>, a: nat, m: nat, k: nat, i: int32) returns (t: Net)
    requires DisjointRanges(cfgs) && LoopFree(cfgs) && PassesOn(cfgs, a, m, k, i)
    ensures CleanlyReachable(cfgs, t) && !t.garbled && t.lost > 0
  {
    var ip := cfgs[m].ipLow;
    var s := RelayOnItsWay(cfgs, a, m, k, i, 0);
    t := RelayTakes(cfgs, s, k, i, cfgs[a].id, cfgs[k].id, Relay(0, ip));
    assert if m < k then RangesApart(cfgs[m], cfgs[k]) else RangesApart(cfgs[k], cfgs[m]);
    PassedOnIs(cfgs[k], i, ip, s.pipes);
  }

  lemma PassedOnIs(cfg: Config, i: int32, ip: int32, pipes: set<Pipe>)
    requires cfg.id != i && !cfg.Owns(ip)
    ensures Receive(Joined(cfg), i, Relay(0, ip), pipes).out == Some(ToDescriptorZero(Relay(0, ip)))
  {
  }

  /** In any network of disjoint ranges whose ports lead to other switches, and while no packet is
      misread, a RELAY can be written to descriptor 0 exactly when some switch passes on what another
      one forwards. */
  lemma LostExactly(cfgs: seq<Config>)
    requires DisjointRanges(cfgs) && LoopFree(cfgs)
    ensures (exists t :: CleanlyReachable(cfgs, t) && !t.garbled && t.lost > 0) <==> SomePassesOn(cfgs)
  {
    if SomePassesOn(cfgs) {
      var a: nat, m: nat, k: nat, i: int32 :| PassesOn(cfgs, a, m, k, i);
      var t := LoseRelay(cfgs, a, m, k, i);
    } else {
      forall t | CleanlyReachable(cfgs, t) && !t.garbled ensures t.lost == 0 { NothingLost(cfgs, t); }
    }
  }

  /** In a chain: exactly when there are three switches or more, whatever the switches misread. */
  lemma ChainLostExactly(cfgs: seq<Config>)
    requires LinearChain(cfgs) && DisjointRanges(cfgs)
    ensures (exists t :: CleanlyReachable(cfgs, t) && t.lost > 0) <==> |cfgs| >= 3
  {
    if |cfgs| >= 3 {
      assert PassesOn(cfgs, 0, 2, 1, 1);
      var t := LoseRelay(cfgs, 0, 2, 1, 1);
    } else {
      forall t | CleanlyReachable(cfgs, t) ensures t.lost == 0 { ReachableTwo(cfgs, t); }
    }
  }
}
