/** What every step of the network keeps as long as the controller misreads no packet: registrations,
    flow tables, queries and the messages on the control connections. */
module NetworkInvariant {
  import opened Decimal
  import opened Packets
  import opened PacketReader
  import opened Switch
  import opened Controller
  import opened Network

  /** Every table entry is the configuration of the switch that registered it, each switch once. */
  ghost predicate RegisterInv(ctl: ControllerState, cfgs: seq<Config>) {
    && |ctl.slots| == |ctl.infoTable|
    && (forall j | 0 <= j < |ctl.slots| :: 1 <= ctl.slots[j] <= |cfgs| && ctl.infoTable[j] == cfgs[ctl.slots[j] - 1])
    && (forall i, j | 0 <= i < j < |ctl.slots| :: ctl.slots[i] != ctl.slots[j])
    && (forall s :: s in ctl.idToFd <==> s in ctl.slots)
  }

  /** Entry `j` was registered by another switch and makes `slot` forward this range to this port. */
  predicate Backs(ctl: ControllerState, slot: nat, j: nat, low: int32, high: int32, port: int32) {
    && j < |ctl.infoTable| && j < |ctl.slots| && ctl.slots[j] != slot
    && ctl.infoTable[j].ipLow == low && ctl.infoTable[j].ipHigh == high
    && port == RelayPort(ctl.infoTable[j].id, slot)
  }

  ghost predicate ForwardOk(ctl: ControllerState, slot: nat, low: int32, high: int32, port: int32) {
    ctl.counts.query > 0 && exists j: nat :: Backs(ctl, slot, j, low, high, port)
  }

  predicate Unowned(table: seq<Config>, ip: int32) { forall j | 0 <= j < |table| :: !table[j].Owns(ip) }

  /** A destination that was answered with DROP is unowned as long as registration came first. */
  predicate DropOk(ctl: ControllerState, ip: int32) {
    ctl.counts.query > 0 && (!ctl.lateOpen ==> Unowned(ctl.infoTable, ip))
  }

  ghost predicate RuleOk(ctl: ControllerState, slot: nat, r: FlowRule) {
    if r.actionType.Drop? then r.destIpLow == r.destIpHigh && r.actionVal == 0 && DropOk(ctl, r.destIpLow)
    else ForwardOk(ctl, slot, r.destIpLow, r.destIpHigh, r.actionVal)
  }

  ghost predicate AnswerOk(ctl: ControllerState, slot: nat, ip: int32, p: Packet) {
    && p.Add? && p.addLow <= ip <= p.addHigh
    && (if p.action == 0 then p.addLow == p.addHigh && p.relayPort == 0 && DropOk(ctl, ip)
        else p.action == 1 && ForwardOk(ctl, slot, p.addLow, p.addHigh, p.relayPort))
  }

  /** The first rule is the own range, and the others are what the controller has decided. */
  ghost predicate TableInv(sw: SwitchState, slot: nat, ctl: ControllerState) {
    && sw.flowTable != []
    && sw.flowTable[0].destIpLow == sw.cfg.ipLow && sw.flowTable[0].destIpHigh == sw.cfg.ipHigh
    && (forall r | 0 < r < |sw.flowTable| :: RuleOk(ctl, slot, sw.flowTable[r]))
  }

  /** A switch never asks about an address its table covers, and it asks about each address once. */
  ghost predicate QueryInv(sw: SwitchState) {
    && |sw.queried| == sw.counts.query
    && (forall i | 0 <= i < |sw.queried| :: ValidIp(sw.queried[i]) && !sw.cfg.Owns(sw.queried[i]))
    && (forall i, j | 0 <= i < j < |sw.queried| :: sw.queried[i] != sw.queried[j])
    && (forall i | 0 <= i < |sw.queried| - sw.Pending() :: Covered(sw.flowTable, sw.queried[i]))
    && (!sw.addReceived ==> sw.queried != [] && !Covered(sw.flowTable, sw.queried[|sw.queried| - 1]))
  }

  function OpenOf(cfg: Config): Packet { Open(cfg.id, cfg.port1Id, cfg.port2Id, cfg.ipLow, cfg.ipHigh) }

  /** The messages in flight: an OPEN is the switch's own, a QUERY asks about the address the switch
      waits for, and an ADD answers it. */
  ghost predicate MessagesInv(sw: SwitchState, slot: nat, up: seq<Packet>, down: seq<Packet>, ctl: ControllerState) {
    && (up != [] && up[0].Open? ==> up[0] == OpenOf(sw.cfg))
    && (!sw.addReceived ==>
          && sw.queried != []
          && if up == [] then down != [] && AnswerOk(ctl, slot, sw.queried[|sw.queried| - 1], down[0])
             else up[0].Query? && ValidIp(up[0].srcIp) && up[0].destIp == sw.queried[|sw.queried| - 1])
  }

  ghost predicate NodeInv(sw: SwitchState, slot: nat, up: seq<Packet>, down: seq<Packet>, ctl: ControllerState) {
    sw.Running() ==> MessagesInv(sw, slot, up, down, ctl) && TableInv(sw, slot, ctl) && QueryInv(sw)
  }

  ghost predicate NodeAt(net: Net, k: nat)
    requires Shape(net) && k < |net.sws|
  {
    NodeInv(net.sws[k], k + 1, net.up[k], net.down[k], net.ctl)
  }

  ghost predicate Coherent(net: Net, cfgs: seq<Config>) {
    && Shape(net) && |net.sws| == |cfgs|
    && RegisterInv(net.ctl, cfgs)
    && forall k: nat | k < |cfgs| :: NodeAt(net, k)
  }

  ghost predicate Inv(net: Net, cfgs: seq<Config>) {
    !net.misread && !net.overrun && Sound(net, cfgs) && Coherent(net, cfgs)
  }

  /** Ranges are within 0..MAX_IP, as the command line demands. */
  predicate ValidConfig(cfg: Config) { 0 <= cfg.ipLow <= cfg.ipHigh <= MAX_IP }

  // ---------------------------------------------------------------- single handlers

  lemma CoveredAfterHit(table: seq<FlowRule>, k: nat, n: nat, ip: int32)
    requires k < |table|
    ensures FirstMatch(table[k := table[k].(pktCount := n)], ip) == FirstMatch(table, ip)
  {
    FirstMatchIs(table[k := table[k].(pktCount := n)], ip, FirstMatch(table, ip));
  }

  lemma CoveredAfterInstall(table: seq<FlowRule>, r: FlowRule, ip: int32)
    ensures Covered(table + [r], ip) <==> Covered(table, ip) || r.Matches(ip)
    ensures Covered(table, ip) ==> FirstMatch(table + [r], ip) == FirstMatch(table, ip)
  {
    var k := FirstMatch(table, ip);
    if k < |table| { FirstMatchIs(table + [r], ip, k); }
    else if r.Matches(ip) { FirstMatchIs(table + [r], ip, k); }
    else { FirstMatchIs(table + [r], ip, k + 1); }
  }

  /** A table hit changes one packet counter, and nothing that the invariants on the table speak of. */
  lemma HitKeepsNode(sw: SwitchState, slot: nat, ctl: ControllerState, srcIp: int32, destIp: int32, pipes: set<Pipe>)
    requires sw.Running() && sw.addReceived && TableInv(sw, slot, ctl) && QueryInv(sw) && Covered(sw.flowTable, destIp)
    ensures var t := Admit(sw, srcIp, destIp, pipes).sw;
            && TableInv(t, slot, ctl) && QueryInv(t)
            && t.cfg == sw.cfg && t.counts.open == sw.counts.open && t.queried == sw.queried
            && t.ackReceived == sw.ackReceived && t.addReceived
  {
    var k := FirstMatch(sw.flowTable, destIp);
    var n := sw.flowTable[k].pktCount + 1;
    var t := Admit(sw, srcIp, destIp, pipes).sw;
    HitFrame(sw, srcIp, destIp, pipes);
    forall i | 0 <= i < |sw.queried| ensures Covered(t.flowTable, t.queried[i]) {
      CoveredAfterHit(sw.flowTable, k, n, sw.queried[i]);
    }
    forall r | 0 < r < |t.flowTable| ensures RuleOk(ctl, slot, t.flowTable[r]) {
      assert RuleOk(ctl, slot, sw.flowTable[r]);
    }
  }

  lemma MissKeepsNode(sw: SwitchState, slot: nat, ctl: ControllerState, srcIp: int32, destIp: int32, pipes: set<Pipe>)
    requires sw.Running() && sw.addReceived && TableInv(sw, slot, ctl) && QueryInv(sw)
    requires ValidIp(destIp) && !Covered(sw.flowTable, destIp)
    ensures var t := Admit(sw, srcIp, destIp, pipes).sw; TableInv(t, slot, ctl) && QueryInv(t)
  {
    var t := Admit(sw, srcIp, destIp, pipes).sw;
    assert t.queried == sw.queried + [destIp] && t.flowTable == sw.flowTable;
    assert !sw.flowTable[0].Matches(destIp);
    forall i | 0 <= i < |sw.queried| ensures sw.queried[i] != destIp {
      assert Covered(sw.flowTable, sw.queried[i]);
    }
  }

  lemma InstalledKeepsQueries(sw: SwitchState, t: SwitchState, r: FlowRule)
    requires QueryInv(sw) && !sw.addReceived && r.Matches(sw.queried[|sw.queried| - 1])
    requires t.flowTable == sw.flowTable + [r] && t.addReceived
    requires t.queried == sw.queried && t.cfg == sw.cfg && t.counts.query == sw.counts.query
    ensures QueryInv(t)
  {
    forall i | 0 <= i < |sw.queried| ensures Covered(t.flowTable, sw.queried[i]) {
      CoveredAfterInstall(sw.flowTable, r, sw.queried[i]);
    }
  }

  lemma InstalledKeepsTable(sw: SwitchState, t: SwitchState, slot: nat, ctl: ControllerState, r: FlowRule)
    requires TableInv(sw, slot, ctl) && RuleOk(ctl, slot, r)
    requires t.flowTable == sw.flowTable + [r] && t.cfg == sw.cfg
    ensures TableInv(t, slot, ctl)
  {
    forall i | 0 < i < |t.flowTable| ensures RuleOk(ctl, slot, t.flowTable[i]) {
      assert i < |sw.flowTable| ==> t.flowTable[i] == sw.flowTable[i];
    }
  }

  /** The answer to the pending query closes the gap it was sent for. */
  lemma AddKeepsNode(sw: SwitchState, slot: nat, ctl: ControllerState, p: Packet, pipes: set<Pipe>)
    requires sw.Running() && !sw.addReceived && TableInv(sw, slot, ctl) && QueryInv(sw)
    requires AnswerOk(ctl, slot, sw.queried[|sw.queried| - 1], p)
    ensures var t := Receive(sw, CONTROL, p, pipes).sw;
            && t.cfg == sw.cfg && t.counts.open == sw.counts.open && t.ackReceived == sw.ackReceived
            && (t.Running() ==> TableInv(t, slot, ctl) && QueryInv(t) && t.addReceived)
  {
    var t := Receive(sw, CONTROL, p, pipes).sw;
    AddFrame(sw, p.action, p.addLow, p.addHigh, p.relayPort, p.addSrc, pipes);
    if t.Running() {
      var r := NewRule(p.action, p.addLow, p.addHigh, p.relayPort);
      InstalledKeepsQueries(sw, t, r);
      InstalledKeepsTable(sw, t, slot, ctl, r);
    }
  }

  /** What the controller has learnt stays true of it as it handles more packets. */
  ghost predicate Grows(c: ControllerState, d: ControllerState) {
    && c.infoTable <= d.infoTable && c.slots <= d.slots && |c.infoTable| == |c.slots|
    && c.counts.query <= d.counts.query
    && (c.lateOpen ==> d.lateOpen)
    && (c.counts.query > 0 && d.infoTable != c.infoTable ==> d.lateOpen)
  }

  lemma GrowsKeepsForward(c: ControllerState, d: ControllerState, slot: nat, low: int32, high: int32, port: int32)
    requires Grows(c, d) && ForwardOk(c, slot, low, high, port)
    ensures ForwardOk(d, slot, low, high, port)
  {
    var j: nat :| Backs(c, slot, j, low, high, port);
    assert Backs(d, slot, j, low, high, port);
  }

  lemma GrowsKeepsTable(c: ControllerState, d: ControllerState, slot: nat, sw: SwitchState)
    requires Grows(c, d) && TableInv(sw, slot, c)
    ensures TableInv(sw, slot, d)
  {
    forall r | 0 < r < |sw.flowTable| ensures RuleOk(d, slot, sw.flowTable[r]) {
      var rule := sw.flowTable[r];
      assert RuleOk(c, slot, rule);
      if rule.actionType.Forward? {
        GrowsKeepsForward(c, d, slot, rule.destIpLow, rule.destIpHigh, rule.actionVal);
      }
    }
  }

  lemma GrowsKeepsAnswer(c: ControllerState, d: ControllerState, slot: nat, ip: int32, p: Packet)
    requires Grows(c, d) && AnswerOk(c, slot, ip, p)
    ensures AnswerOk(d, slot, ip, p)
  {
    if p.action != 0 { GrowsKeepsForward(c, d, slot, p.addLow, p.addHigh, p.relayPort); }
  }

  lemma GrowsKeepsNode(sw: SwitchState, slot: nat, up: seq<Packet>, down: seq<Packet>, c: ControllerState, d: ControllerState)
    requires NodeInv(sw, slot, up, down, c) && Grows(c, d)
    ensures NodeInv(sw, slot, up, down, d)
  {
    if sw.Running() {
      GrowsKeepsTable(c, d, slot, sw);
      if !sw.addReceived && up == [] {
        GrowsKeepsAnswer(c, d, slot, sw.queried[|sw.queried| - 1], down[0]);
      }
    }
  }

  // ---------------------------------------------------------------- one switch

  lemma AdmitKeepsNode(sw: SwitchState, cfg: Config, at: Standing, slot: nat, up: seq<Packet>, down: seq<Packet>,
                       ctl: ControllerState, srcIp: int32, destIp: int32, pipes: set<Pipe>)
    requires NodeInv(sw, slot, up, down, ctl) && SoundNode(sw, cfg, at, up, down)
    requires sw.Running() && sw.ackReceived && sw.addReceived && ValidIp(srcIp) && ValidIp(destIp)
    ensures var r := Admit(sw, srcIp, destIp, pipes); NodeInv(r.sw, slot, Upward(up, r.out), down, ctl)
  {
    if Covered(sw.flowTable, destIp) {
      HitKeepsNode(sw, slot, ctl, srcIp, destIp, pipes);
      HitOutput(sw, srcIp, destIp, pipes);
    } else {
      MissKeepsNode(sw, slot, ctl, srcIp, destIp, pipes);
    }
  }

  lemma AckKeepsNode(sw: SwitchState, slot: nat, ctl: ControllerState)
    requires NodeInv(sw, slot, [], [Ack], ctl) && sw.Running() && sw.addReceived
    ensures NodeInv(HandleAck(sw), slot, [], [], ctl)
  {
    var t := HandleAck(sw);
    assert t.flowTable == sw.flowTable && t.queried == sw.queried;
  }

  lemma AddArrivalKeepsNode(sw: SwitchState, cfg: Config, at: Standing, slot: nat, p: Packet, ctl: ControllerState,
                            pipes: set<Pipe>)
    requires NodeInv(sw, slot, [], [p], ctl) && SoundNode(sw, cfg, at, [], [p]) && sw.Running() && sw.ackReceived
    ensures var r := Receive(sw, CONTROL, p, pipes); NodeInv(r.sw, slot, Upward([], r.out), [], ctl)
  {
    AddSound(sw, cfg, at, CONTROL, p, pipes);
    AddKeepsNode(sw, slot, ctl, p, pipes);
  }

  /** An answer answers whatever its last field, the source address, is taken for. */
  lemma AnswerButLast(ctl: ControllerState, slot: nat, ip: int32, p: Packet, q: Packet)
    requires AnswerOk(ctl, slot, ip, p) && SameButLast(p, q)
    ensures AnswerOk(ctl, slot, ip, q)
  {
  }

  lemma ControlKeepsNode(sw: SwitchState, cfg: Config, at: Standing, slot: nat, up: seq<Packet>, down: seq<Packet>,
                         q: Packet, ctl: ControllerState, pipes: set<Pipe>)
    requires NodeInv(sw, slot, up, down, ctl) && SoundNode(sw, cfg, at, up, down) && sw.Running() && down != []
    requires SameButLast(down[0], q)
    ensures var r := Receive(sw, CONTROL, q, pipes); NodeInv(r.sw, slot, Upward(up, r.out), [], ctl)
  {
    assert down == [down[0]] && up == [];
    if sw.ackReceived {
      AnswerButLast(ctl, slot, sw.queried[|sw.queried| - 1], down[0], q);
      AddArrivalKeepsNode(sw, cfg, at, slot, q, ctl, pipes);
    } else {
      AckKeepsNode(sw, slot, ctl);
    }
  }

  lemma RelayKeepsNode(sw: SwitchState, slot: nat, up: seq<Packet>, down: seq<Packet>,
                       ctl: ControllerState, port: int32, srcIp: int32, destIp: int32)
    requires NodeInv(sw, slot, up, down, ctl) && sw.Running() && PortsInv(sw)
    ensures var r := HandleRelay(sw, port, srcIp, destIp); NodeInv(r.sw, slot, Upward(up, r.out), down, ctl)
  {
    RelayFrame(sw, port, srcIp, destIp);
    var t := HandleRelay(sw, port, srcIp, destIp).sw;
    assert TableInv(t, slot, ctl);
    assert QueryInv(t);
  }

  // ---------------------------------------------------------------- the controller

  /** What the registration in `OPEN` handling does to the controller and to the switch concerned. */
  lemma OpenKeepsNode(c: ControllerState, cfgs: seq<Config>, sw: SwitchState, slot: nat, p: Packet)
    requires RegisterInv(c, cfgs) && 1 <= slot <= |cfgs| && slot !in c.idToFd && sw.cfg == cfgs[slot - 1]
    requires NodeInv(sw, slot, [p], [], c) && p == OpenOf(sw.cfg) && sw.addReceived
    ensures var a := HandlePacket(c, slot, p);
            && a.out == Some(Ack) && Grows(c, a.ctl) && RegisterInv(a.ctl, cfgs)
            && NodeInv(sw, slot, [], [Ack], a.ctl)
  {
    var a := HandlePacket(c, slot, p);
    if sw.Running() { GrowsKeepsTable(c, a.ctl, slot, sw); }
  }

  lemma QueryKeepsNode(c: ControllerState, cfgs: seq<Config>, sw: SwitchState, slot: nat, p: Packet)
    requires RegisterInv(c, cfgs) && 1 <= slot <= |cfgs| && slot in c.idToFd && sw.cfg == cfgs[slot - 1]
    requires NodeInv(sw, slot, [p], [], c) && p.Query? && !sw.addReceived && sw.Running()
    ensures var a := HandlePacket(c, slot, p);
            && a.out.Some? && Grows(c, a.ctl) && RegisterInv(a.ctl, cfgs)
            && NodeInv(sw, slot, [], [a.out.value], a.ctl)
  {
    var a := HandlePacket(c, slot, p);
    QueryAnswered(c, cfgs, sw, slot, p);
    GrowsKeepsTable(c, a.ctl, slot, sw);
  }

  /** The owner the controller finds is never the switch that asked: its own range is its first rule. */
  lemma QueryAnswered(c: ControllerState, cfgs: seq<Config>, sw: SwitchState, slot: nat, p: Packet)
    requires RegisterInv(c, cfgs) && 1 <= slot <= |cfgs| && slot in c.idToFd && sw.cfg == cfgs[slot - 1]
    requires QueryInv(sw) && !sw.addReceived
    requires p.Query? && ValidIp(p.srcIp) && p.destIp == sw.queried[|sw.queried| - 1]
    ensures var a := HandlePacket(c, slot, p); a.out.Some? && AnswerOk(a.ctl, slot, p.destIp, a.out.value)
  {
    var a := HandlePacket(c, slot, p);
    var j := FirstOwner(c.infoTable, p.destIp);
    if j < |c.infoTable| {
      assert Backs(a.ctl, slot, j, c.infoTable[j].ipLow, c.infoTable[j].ipHigh, RelayPort(c.infoTable[j].id, slot));
    }
  }

  lemma ControllerKeepsNode(c: ControllerState, cfgs: seq<Config>, sw: SwitchState, slot: nat,
                            up: seq<Packet>, down: seq<Packet>)
    requires RegisterInv(c, cfgs) && 1 <= slot <= |cfgs| && up != []
    requires SoundNode(sw, cfgs[slot - 1], StandingOf(c, slot), up, down) && NodeInv(sw, slot, up, down, c)
    ensures var a := HandlePacket(c, slot, up[0]);
            && down == [] && a.out.Some?
            && Grows(c, a.ctl) && RegisterInv(a.ctl, cfgs)
            && NodeInv(sw, slot, [], [a.out.value], a.ctl)
  {
    var p := up[0];
    assert up == [p] && down == [];
    if sw.ackReceived {
      QueryKeepsNode(c, cfgs, sw, slot, p);
    } else {
      OpenKeepsNode(c, cfgs, sw, slot, p);
    }
  }

  // ---------------------------------------------------------------- every step

  lemma InitInv(cfgs: seq<Config>)
    ensures Inv(Init(cfgs), cfgs)
  {
    InitSound(cfgs);
  }

  /** A handler of switch `k` matters to the others not at all. */
  lemma ReactKeeps(net: Net, cfgs: seq<Config>, k: nat, r: Reaction)
    requires Shape(net) && |net.sws| == |cfgs| && k < |cfgs| && RegisterInv(net.ctl, cfgs)
    requires forall j: nat | j < |cfgs| && j != k :: NodeAt(net, j)
    requires NodeInv(r.sw, k + 1, Upward(net.up[k], r.out), net.down[k], net.ctl)
    ensures Coherent(React(net, k, r), cfgs)
  {
    var t := React(net, k, r);
    forall j: nat | j < |cfgs| ensures NodeAt(t, j) {
      assert j != k ==> NodeAt(net, j);
    }
  }

  lemma OthersGrow(net: Net, cfgs: seq<Config>, k: nat, t: Net)
    requires Coherent(net, cfgs) && k < |cfgs| && Shape(t) && t.sws == net.sws && (t.ctl == net.ctl || Grows(net.ctl, t.ctl))
    requires forall j: nat | j < |cfgs| && j != k :: t.up[j] == net.up[j] && t.down[j] == net.down[j]
    ensures forall j: nat | j < |cfgs| && j != k :: NodeAt(t, j)
  {
    forall j: nat | j < |cfgs| && j != k ensures NodeAt(t, j) {
      assert NodeAt(net, j);
      if t.ctl != net.ctl { GrowsKeepsNode(net.sws[j], j + 1, net.up[j], net.down[j], net.ctl, t.ctl); }
    }
  }

  lemma ControllerHearsKeeps(net: Net, cfgs: seq<Config>, k: nat, h: Hearing)
    requires Sound(net, cfgs) && Coherent(net, cfgs) && k < |cfgs| && net.up[k] != [] && h.packet == Some(net.up[k][0])
    ensures Coherent(ControllerHears(TakeUp(net, k), k, h), cfgs)
  {
    var t := ControllerHears(TakeUp(net, k), k, h);
    assert SoundAt(net, cfgs, k) && NodeAt(net, k);
    ControllerKeepsNode(net.ctl, cfgs, net.sws[k], k + 1, net.up[k], net.down[k]);
    ControllerHearsShape(net, k, h);
    assert NodeAt(t, k);
    OthersGrow(net, cfgs, k, t);
  }

  lemma ControllerHearsShape(net: Net, k: nat, h: Hearing)
    requires Shape(net) && k < |net.sws| && net.down[k] == [] && h.packet.Some?
    requires HandlePacket(net.ctl, k + 1, h.packet.value).out.Some?
    ensures var a := HandlePacket(net.ctl, k + 1, h.packet.value); var t := ControllerHears(TakeUp(net, k), k, h);
            && t.sws == net.sws && t.ctl == a.ctl && t.up == net.up[k := []] && t.down == net.down[k := [a.out.value]]
            && t.air == net.air && t.readers == net.readers && t.lost == net.lost && t.merged == net.merged
  {
    var a := HandlePacket(net.ctl, k + 1, h.packet.value);
    assert net.down[k] + [a.out.value] == [a.out.value];
  }

  lemma SwitchHearsKeeps(net: Net, cfgs: seq<Config>, k: nat, h: Hearing)
    requires Sound(net, cfgs) && Coherent(net, cfgs) && k < |cfgs|
    requires net.sws[k].Running() && net.down[k] != [] && h.packet.Some? && SameButLast(net.down[k][0], h.packet.value)
    ensures Coherent(SwitchHears(TakeDown(net, k), k, CONTROL, h), cfgs)
  {
    var mid := Heard(TakeDown(net, k), k, h);
    assert SoundAt(net, cfgs, k) && NodeAt(net, k);
    ControlKeepsNode(net.sws[k], cfgs[k], StandingOf(net.ctl, k + 1), k + 1, net.up[k], net.down[k], h.packet.value, net.ctl, net.pipes);
    OthersGrow(net, cfgs, k, mid);
    ReactKeeps(mid, cfgs, k, Receive(net.sws[k], CONTROL, h.packet.value, net.pipes));
  }

  lemma RelayNode(net: Net, cfgs: seq<Config>, k: nat, port: int32, p: Packet)
    requires Sound(net, cfgs) && Coherent(net, cfgs) && k < |cfgs| && net.sws[k].Running() && p.Relay?
    ensures var r := Receive(net.sws[k], port, p, net.pipes);
            NodeInv(r.sw, k + 1, Upward(net.up[k], r.out), net.down[k], net.ctl)
  {
    assert NodeAt(net, k);
    assert PortsInv(net.sws[k]) by { assert SoundAt(net, cfgs, k); }
    RelayKeepsNode(net.sws[k], k + 1, net.up[k], net.down[k], net.ctl, port, p.relaySrc, p.relayDest);
  }

  lemma RelayHeardKeeps(net: Net, cfgs: seq<Config>, k: nat, port: int32, n: nat, src: int32, dst: int32, h: Hearing)
    requires Sound(net, cfgs) && Coherent(net, cfgs) && k < |cfgs| && net.sws[k].Running()
    requires 0 < n <= |Waiting(net.air, src, dst)| && h.packet.Some? && h.packet.value.Relay?
    ensures Coherent(SwitchHears(TakeRelays(net, src, dst, n), k, port, h), cfgs)
  {
    var mid := Heard(TakeRelays(net, src, dst, n), k, h);
    var p := h.packet.value;
    RelayNode(net, cfgs, k, port, p);
    OthersGrow(net, cfgs, k, mid);
    ReactKeeps(mid, cfgs, k, Receive(net.sws[k], port, p, net.pipes));
  }

  lemma ReadKeeps(net: Net, cfgs: seq<Config>, a: Action)
    requires Sound(net, cfgs) && Coherent(net, cfgs) && Enabled(net, a)
    requires HearingOf(net, a).Some? && HearingOf(net, a).value.packet.Some?
    requires a.ControllerReads? ==> HearingOf(net, a).value.clean
    ensures Coherent(Apply(net, a), cfgs)
  {
    var h := HearingOf(net, a).value;
    match a
    case ControllerReads(k) =>
      ReadIs(net.ctlReader.left, net.up[k]);
      ControllerHearsKeeps(net, cfgs, k, h);
    case SwitchReads(k) =>
      ReadIs(net.readers[k].left, net.down[k]);
      SwitchHearsKeeps(net, cfgs, k, h);
    case RelayArrives(k, port, n) =>
      ReadsRelay(net, k, port, n);
      RelayHeardKeeps(net, cfgs, k, port, n, net.sws[k].cfg.Neighbour(port), net.sws[k].cfg.id, h);
  }

  lemma SameKeeps(net: Net, cfgs: seq<Config>, t: Net)
    requires Coherent(net, cfgs) && Alike(net, t)
    ensures Coherent(t, cfgs)
  {
    forall k: nat | k < |cfgs| ensures NodeAt(t, k) { assert NodeAt(net, k); }
  }

  lemma StartKeeps(net: Net, cfgs: seq<Config>, k: nat)
    requires Sound(net, cfgs) && Coherent(net, cfgs) && Enabled(net, Start(k))
    ensures Coherent(React(net, k, SendOpen(net.sws[k])), cfgs)
  {
    assert SoundAt(net, cfgs, k) && NodeAt(net, k);
    ReactKeeps(net, cfgs, k, SendOpen(net.sws[k]));
  }

  lemma SetUpKeeps(net: Net, cfgs: seq<Config>, k: nat)
    requires Coherent(net, cfgs) && Enabled(net, SetUpPort(k))
    ensures Coherent(Apply(net, SetUpPort(k)), cfgs)
  {
    var t := Apply(net, SetUpPort(k));
    forall j: nat | j < |cfgs| ensures NodeAt(t, j) {
      assert NodeAt(net, j);
      if j == k { SetUpKeepsNode(net.sws[k], k + 1, net.up[k], net.down[k], net.ctl); }
    }
  }

  lemma SetUpKeepsNode(sw: SwitchState, slot: nat, up: seq<Packet>, down: seq<Packet>, ctl: ControllerState)
    requires NodeInv(sw, slot, up, down, ctl)
    ensures NodeInv(MakePipe(sw), slot, up, down, ctl)
  {
    var t := MakePipe(sw);
    assert t.flowTable == sw.flowTable && t.queried == sw.queried;
  }

  lemma AdmitLineKeeps(net: Net, cfgs: seq<Config>, k: nat, srcIp: int32, destIp: int32)
    requires Sound(net, cfgs) && Coherent(net, cfgs) && Enabled(net, AdmitLine(k, srcIp, destIp))
    ensures Coherent(React(net, k, Admit(net.sws[k], srcIp, destIp, net.pipes)), cfgs)
  {
    assert SoundAt(net, cfgs, k) && NodeAt(net, k);
    AdmitKeepsNode(net.sws[k], cfgs[k], StandingOf(net.ctl, k + 1), k + 1, net.up[k], net.down[k], net.ctl, srcIp, destIp, net.pipes);
    ReactKeeps(net, cfgs, k, Admit(net.sws[k], srcIp, destIp, net.pipes));
  }

  lemma StepKeepsInv(net: Net, cfgs: seq<Config>, a: Action)
    requires Inv(net, cfgs) && Enabled(net, a) && !Apply(net, a).misread && !Apply(net, a).overrun
    ensures Inv(Apply(net, a), cfgs)
  {
    HistoryIs(net, a);
    StepSound(net, cfgs, a);
    match a
    case Start(k) => StartKeeps(net, cfgs, k);
    case SetUpPort(k) => SetUpKeeps(net, cfgs, k);
    case AdmitLine(k, srcIp, destIp) => AdmitLineKeeps(net, cfgs, k, srcIp, destIp);
    case ControllerPolls(_) => SameKeeps(net, cfgs, Apply(net, a));
    case SwitchPolls(_, _) => SameKeeps(net, cfgs, Apply(net, a));
    case _ => ReadKeeps(net, cfgs, a);
  }

  lemma {:induction false} RunKeepsInv(s: Net, acts: seq<Action>, t: Net, cfgs: seq<Config>)
    requires Inv(s, cfgs) && Run(s, acts, t) && !t.misread && !t.overrun
    ensures Inv(t, cfgs)
    decreases |acts|
  {
    if acts != [] {
      var n := |acts| - 1;
      var m :| Run(s, acts[..n], m) && Step(m, acts[n], t);
      HistoryStays(m, acts[n]);
      RunKeepsInv(s, acts[..n], m, cfgs);
      StepKeepsInv(m, cfgs, acts[n]);
    }
  }

  /** A reachable state up to which the controller has taken every packet for what it was.  Switches may
      have misread some: of an ADD that changes the source address, of a RELAY the destination. */
  ghost predicate CleanlyReachable(cfgs: seq<Config>, t: Net) { Reachable(cfgs, t) && !t.misread && !t.overrun }

  lemma ReachableInv(cfgs: seq<Config>, t: Net)
    requires CleanlyReachable(cfgs, t)
    ensures Inv(t, cfgs)
  {
    var acts :| Run(Init(cfgs), acts, t);
    InitInv(cfgs);
    RunKeepsInv(Init(cfgs), acts, t, cfgs);
  }
}
