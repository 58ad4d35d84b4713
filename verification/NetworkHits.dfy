/** The packet counters of the flow rules, against the packets that were admitted. */
module NetworkHits {
  import opened Decimal
  import opened Packets
  import opened PacketReader
  import opened Switch
  import opened Controller
  import opened Network
  import opened NetworkInvariant
  import opened NetworkResults

  /** The number of these packets that rule `r` is the first to match. */
  function Hits(table: seq<FlowRule>, hs: seq<Header>, r: nat): nat {
    if hs == [] then 0
    else
      var n := |hs| - 1;
      Hits(table, hs[..n], r) + (if FirstMatch(table, hs[n].dest) == r then 1 else 0)
  }

  /** The admitted packets but the one that waits for its ADD. */
  function Matched(sw: SwitchState): seq<Header> {
    if sw.addReceived || sw.admitted == [] then sw.admitted else sw.admitted[..|sw.admitted| - 1]
  }

  predicate Counted(table: seq<FlowRule>, hs: seq<Header>, r: nat) {
    r < |table| ==> table[r].pktCount == Hits(table, hs, r)
  }

  ghost predicate AllCovered(table: seq<FlowRule>, hs: seq<Header>) { forall h | h in hs :: Covered(table, h.dest) }

  /** Each of these packets matches a rule, and the rules count them. */
  ghost predicate Tallies(table: seq<FlowRule>, hs: seq<Header>) {
    AllCovered(table, hs) && forall r: nat :: Counted(table, hs, r)
  }

  /** Every rule counts the admitted packets that it matches first, and the packet that waits is the one
      that was queried last. */
  ghost predicate CountsHits(sw: SwitchState) {
    && |sw.admitted| == sw.counts.admit
    && Tallies(sw.flowTable, Matched(sw))
    && (!sw.addReceived ==>
          sw.admitted != [] && sw.queried != [] && sw.admitted[|sw.admitted| - 1].dest == sw.queried[|sw.queried| - 1])
  }

  /** The hits depend only on which rule matches first. */
  lemma {:induction false} SameHits(table: seq<FlowRule>, other: seq<FlowRule>, hs: seq<Header>, r: nat)
    requires forall h | h in hs :: FirstMatch(other, h.dest) == FirstMatch(table, h.dest)
    ensures Hits(other, hs, r) == Hits(table, hs, r)
  {
    if hs != [] {
      var n := |hs| - 1;
      assert hs[n] in hs;
      SameHits(table, other, hs[..n], r);
    }
  }

  lemma HitsAfter(table: seq<FlowRule>, hs: seq<Header>, h: Header, r: nat)
    ensures Hits(table, hs + [h], r) == Hits(table, hs, r) + (if FirstMatch(table, h.dest) == r then 1 else 0)
  {
    assert (hs + [h])[..|hs|] == hs;
  }

  /** A rule behind the ones that match is never the first. */
  lemma {:induction false} NoHits(table: seq<FlowRule>, hs: seq<Header>, r: nat)
    requires forall h | h in hs :: FirstMatch(table, h.dest) < r
    ensures Hits(table, hs, r) == 0
  {
    if hs != [] {
      var n := |hs| - 1;
      assert hs[n] in hs;
      NoHits(table, hs[..n], r);
    }
  }

  lemma HitsAfterHit(table: seq<FlowRule>, after: seq<FlowRule>, hs: seq<Header>, h: Header, r: nat)
    requires forall ip :: FirstMatch(after, ip) == FirstMatch(table, ip)
    ensures Hits(after, hs + [h], r) == Hits(table, hs, r) + (if FirstMatch(table, h.dest) == r then 1 else 0)
  {
    SameHits(table, after, hs, r);
    HitsAfter(after, hs, h, r);
  }

  lemma HitTallies(table: seq<FlowRule>, after: seq<FlowRule>, hs: seq<Header>, h: Header)
    requires Tallies(table, hs) && Covered(table, h.dest)
    requires var k := FirstMatch(table, h.dest); after == table[k := table[k].(pktCount := table[k].pktCount + 1)]
    ensures Tallies(after, hs + [h])
  {
    var k := FirstMatch(table, h.dest);
    forall ip ensures FirstMatch(after, ip) == FirstMatch(table, ip) {
      CoveredAfterHit(table, k, table[k].pktCount + 1, ip);
    }
    forall r: nat ensures Counted(after, hs + [h], r) {
      HitsAfterHit(table, after, hs, h, r);
      assert Counted(table, hs, r);
    }
  }

  lemma HitCounts(sw: SwitchState, srcIp: int32, destIp: int32, pipes: set<Pipe>)
    requires CountsHits(sw) && sw.addReceived && Covered(sw.flowTable, destIp)
    ensures CountsHits(Admit(sw, srcIp, destIp, pipes).sw)
  {
    HitFrame(sw, srcIp, destIp, pipes);
    HitTallies(sw.flowTable, Admit(sw, srcIp, destIp, pipes).sw.flowTable, sw.admitted, Header(srcIp, destIp));
  }

  lemma MissCounts(sw: SwitchState, srcIp: int32, destIp: int32, pipes: set<Pipe>)
    requires CountsHits(sw) && sw.addReceived && !Covered(sw.flowTable, destIp)
    ensures CountsHits(Admit(sw, srcIp, destIp, pipes).sw)
  {
    var t := Admit(sw, srcIp, destIp, pipes).sw;
    assert t.admitted == sw.admitted + [Header(srcIp, destIp)] && t.flowTable == sw.flowTable;
    assert Matched(t) == sw.admitted;
  }

  /** The new rule starts with the packet that has waited for it. */
  lemma InstalledTallies(table: seq<FlowRule>, hs: seq<Header>, rule: FlowRule, h: Header)
    requires Tallies(table, hs) && rule.pktCount == 1 && !Covered(table, h.dest) && rule.Matches(h.dest)
    ensures Tallies(table + [rule], hs + [h])
  {
    var after := table + [rule];
    FirstMatchIs(after, h.dest, |table|);
    forall g | g in hs ensures FirstMatch(after, g.dest) == FirstMatch(table, g.dest) {
      CoveredAfterInstall(table, rule, g.dest);
    }
    forall r: nat ensures Counted(after, hs + [h], r) {
      SameHits(table, after, hs, r);
      HitsAfter(after, hs, h, r);
      assert Counted(table, hs, r);
      if r == |table| { NoHits(after, hs, r); }
    }
  }

  lemma InstalledCounts(sw: SwitchState, t: SwitchState, rule: FlowRule)
    requires CountsHits(sw) && !sw.addReceived && rule.pktCount == 1
    requires !Covered(sw.flowTable, sw.queried[|sw.queried| - 1]) && rule.Matches(sw.queried[|sw.queried| - 1])
    requires t.flowTable == sw.flowTable + [rule] && t.addReceived
    requires t.admitted == sw.admitted && t.counts.admit == sw.counts.admit
    ensures CountsHits(t)
  {
    var h := sw.admitted[|sw.admitted| - 1];
    assert Matched(t) == Matched(sw) + [h];
    InstalledTallies(sw.flowTable, Matched(sw), rule, h);
  }

  lemma ControlCounts(sw: SwitchState, slot: nat, ctl: ControllerState, q: Packet, pipes: set<Pipe>)
    requires CountsHits(sw) && QueryInv(sw)
    requires (q.Ack? && sw.addReceived) || (!sw.addReceived && AnswerOk(ctl, slot, sw.queried[|sw.queried| - 1], q))
    ensures var t := Receive(sw, CONTROL, q, pipes).sw; sw.Running() && t.Running() ==> CountsHits(t)
  {
    var t := Receive(sw, CONTROL, q, pipes).sw;
    if q.Ack? {
      assert Matched(t) == Matched(sw);
    } else if sw.Running() && t.Running() {
      AddFrame(sw, q.action, q.addLow, q.addHigh, q.relayPort, q.addSrc, pipes);
      assert t.counts.admit == sw.counts.admit;
      InstalledCounts(sw, t, NewRule(q.action, q.addLow, q.addHigh, q.relayPort));
    }
  }

  lemma AdmitCounts(sw: SwitchState, srcIp: int32, destIp: int32, pipes: set<Pipe>)
    requires CountsHits(sw) && sw.addReceived
    ensures CountsHits(Admit(sw, srcIp, destIp, pipes).sw)
  {
    if Covered(sw.flowTable, destIp) { HitCounts(sw, srcIp, destIp, pipes); } else { MissCounts(sw, srcIp, destIp, pipes); }
  }

  lemma RelayCounts(sw: SwitchState, port: int32, srcIp: int32, destIp: int32)
    requires CountsHits(sw)
    ensures SameButRelays(sw, HandleRelay(sw, port, srcIp, destIp).sw) ==> CountsHits(HandleRelay(sw, port, srcIp, destIp).sw)
  {
    RelayBooks(sw, port, srcIp, destIp);
  }

  ghost predicate HitsInv(net: Net) {
    forall k: nat | k < |net.sws| && net.sws[k].Running() :: CountsHits(net.sws[k])
  }

  lemma OutcomeCounts(net: Net, cfgs: seq<Config>, a: Action, q: Packet)
    requires Inv(net, cfgs) && Enabled(net, a) && !a.ControllerPolls? && Fits(net, a, q)
    requires net.sws[a.k].Running() && CountsHits(net.sws[a.k])
    ensures Outcome(net, a, q).Running() ==> CountsHits(Outcome(net, a, q))
  {
    var sw := net.sws[a.k];
    match a
    case AdmitLine(k, srcIp, destIp) => AdmitCounts(sw, srcIp, destIp, net.pipes);
    case SwitchReads(k) => ControlOutcomeCounts(net, cfgs, k, q);
    case RelayArrives(k, port, n) =>
      RelayKeepsTable(net, cfgs, k, port, q);
      RelayCounts(sw, port, q.relaySrc, q.relayDest);
    case _ =>
  }

  lemma ControlOutcomeCounts(net: Net, cfgs: seq<Config>, k: nat, q: Packet)
    requires Inv(net, cfgs) && k < |cfgs| && net.sws[k].Running() && net.down[k] != [] && SameButLast(net.down[k][0], q)
    requires CountsHits(net.sws[k])
    ensures var t := Receive(net.sws[k], CONTROL, q, net.pipes).sw; t.Running() ==> CountsHits(t)
  {
    assert SoundAt(net, cfgs, k) && NodeAt(net, k);
    var sw := net.sws[k];
    if sw.ackReceived { AnswerButLast(net.ctl, k + 1, sw.queried[|sw.queried| - 1], net.down[k][0], q); }
    ControlCounts(sw, k + 1, net.ctl, q, net.pipes);
  }

  lemma StepKeepsHits(net: Net, cfgs: seq<Config>, a: Action)
    requires Inv(net, cfgs) && HitsInv(net) && Enabled(net, a) && !Apply(net, a).overrun
    ensures HitsInv(Apply(net, a))
  {
    var q := HeardFits(net, a);
    StepChanges(net, a, q);
    if !a.ControllerPolls? {
      StepOnlyStops(net, cfgs, a, q);
      if net.sws[a.k].Running() { OutcomeCounts(net, cfgs, a, q); }
    }
    ChangesHits(net, a, q, Apply(net, a));
  }

  lemma ChangesHits(net: Net, a: Action, q: Packet, t: Net)
    requires Enabled(net, a) && Changes(net, a, q, t) && HitsInv(net)
    requires !a.ControllerPolls? && Outcome(net, a, q).Running() ==> CountsHits(Outcome(net, a, q))
    ensures HitsInv(t)
  {
    assert forall k: nat | k < |net.sws| && k != SwitchOf(a) :: t.sws[k] == net.sws[k];
  }

  lemma {:induction false} RunKeepsHits(s: Net, acts: seq<Action>, t: Net, cfgs: seq<Config>)
    requires Inv(s, cfgs) && HitsInv(s) && Run(s, acts, t) && !t.misread && !t.overrun
    ensures HitsInv(t)
    decreases |acts|
  {
    if acts != [] {
      var n := |acts| - 1;
      var m :| Run(s, acts[..n], m) && Step(m, acts[n], t);
      HistoryStays(m, acts[n]);
      RunKeepsInv(s, acts[..n], m, cfgs);
      RunKeepsHits(s, acts[..n], m, cfgs);
      StepKeepsHits(m, cfgs, acts[n]);
    }
  }

  /** As long as the controller misreads nothing, the counter of each rule is the number of admitted
      packets that the rule is the first to match, the one included that waited for the rule. */
  lemma RuleCountsExact(cfgs: seq<Config>, t: Net, k: nat, r: nat)
    requires CleanlyReachable(cfgs, t) && k < |t.sws| && t.sws[k].Running() && r < |t.sws[k].flowTable|
    ensures t.sws[k].flowTable[r].pktCount == Hits(t.sws[k].flowTable, Matched(t.sws[k]), r)
    ensures |t.sws[k].admitted| == t.sws[k].counts.admit
  {
    var acts :| Run(Init(cfgs), acts, t);
    InitInv(cfgs);
    RunKeepsHits(Init(cfgs), acts, t, cfgs);
    assert CountsHits(t.sws[k]) && Counted(t.sws[k].flowTable, Matched(t.sws[k]), r);
  }
}
