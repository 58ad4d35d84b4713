/** Where the addresses in QUERYs, ADDs and RELAYs come from: each carries those of an admitted packet. */
module NetworkOrigins {
  import opened Decimal
  import opened Packets
  import opened PacketReader
  import opened Switch
  import opened Controller
  import opened Network
  import opened NetworkInvariant
  import opened NetworkResults
  import opened NetworkChain

  // ---------------------------------------------------------------- the packet that waits

  /** A switch that waits for an ADD waits with the packet it admitted last; its QUERY carries both
      addresses of that packet, and the ADD carries the source. */
  ghost predicate Asks(sw: SwitchState, up: seq<Packet>, down: seq<Packet>) {
    sw.Running() && !sw.addReceived ==>
      && sw.admitted != [] && sw.queried != []
      && var h := sw.admitted[|sw.admitted| - 1];
         && h.dest == sw.queried[|sw.queried| - 1]
         && (up != [] ==> up == [Query(h.src, h.dest)])
         && (down != [] ==> |down| == 1 && down[0].Add? && down[0].addSrc == h.src)
  }

  ghost predicate AsksAt(net: Net, k: nat)
    requires Shape(net) && k < |net.sws|
  {
    Asks(net.sws[k], net.up[k], net.down[k])
  }

  ghost predicate AsksInv(net: Net) { Shape(net) && forall k: nat | k < |net.sws| :: AsksAt(net, k) }

  lemma AdmitAsks(sw: SwitchState, cfg: Config, at: Standing, up: seq<Packet>, down: seq<Packet>,
                  srcIp: int32, destIp: int32, pipes: set<Pipe>)
    requires SoundNode(sw, cfg, at, up, down) && sw.Running() && sw.ackReceived && sw.addReceived
    ensures var r := Admit(sw, srcIp, destIp, pipes); Asks(r.sw, Upward(up, r.out), down)
  {
    if Covered(sw.flowTable, destIp) { HitFrame(sw, srcIp, destIp, pipes); }
  }

  /** The controller puts the source of a QUERY into the ADD that answers it. */
  lemma ReplyAsks(c: ControllerState, sw: SwitchState, cfg: Config, slot: nat, up: seq<Packet>, down: seq<Packet>)
    requires SoundNode(sw, cfg, StandingOf(c, slot), up, down) && NodeInv(sw, slot, up, down, c) && QueryInv(sw)
    requires Asks(sw, up, down) && up != []
    ensures var a := HandlePacket(c, slot, up[0]); Asks(sw, [], if a.out.Some? then [a.out.value] else [])
  {
    if sw.Running() && !sw.addReceived { AnswerCovers(c, slot, up[0].srcIp, up[0].destIp); }
  }

  lemma ReactAsks(net: Net, k: nat, r: Reaction)
    requires Shape(net) && k < |net.sws| && forall j: nat | j < |net.sws| && j != k :: AsksAt(net, j)
    requires Asks(r.sw, Upward(net.up[k], r.out), net.down[k])
    ensures AsksInv(React(net, k, r))
  {
    var t := React(net, k, r);
    forall j: nat | j < |t.sws| ensures AsksAt(t, j) { assert j != k ==> AsksAt(net, j); }
  }

  lemma ReplyIsAsked(net: Net, cfgs: seq<Config>, k: nat)
    requires Inv(net, cfgs) && AsksInv(net) && k < |cfgs| && net.up[k] != []
    ensures net.down[k] == []
    ensures var a := HandlePacket(net.ctl, k + 1, net.up[k][0]); a.out.Some? && Asks(net.sws[k], [], [a.out.value])
  {
    assert SoundAt(net, cfgs, k) && NodeAt(net, k) && AsksAt(net, k);
    ControllerKeepsNode(net.ctl, cfgs, net.sws[k], k + 1, net.up[k], net.down[k]);
    if net.sws[k].Running() { ReplyAsks(net.ctl, net.sws[k], cfgs[k], k + 1, net.up[k], net.down[k]); }
  }

  lemma ControllerHearsAsks(net: Net, cfgs: seq<Config>, k: nat, h: Hearing)
    requires Inv(net, cfgs) && AsksInv(net) && k < |cfgs| && net.up[k] != [] && h.packet == Some(net.up[k][0])
    ensures AsksInv(ControllerHears(TakeUp(net, k), k, h))
  {
    var t := ControllerHears(TakeUp(net, k), k, h);
    ReplyIsAsked(net, cfgs, k);
    ControllerHearsShape(net, k, h);
    forall j: nat | j < |t.sws| ensures AsksAt(t, j) { assert AsksAt(net, j); }
  }

  /** A message from the controller ends the wait, or comes when there was none. */
  lemma ControlAsks(net: Net, cfgs: seq<Config>, k: nat, q: Packet)
    requires Sound(net, cfgs) && k < |cfgs| && net.sws[k].Running() && net.down[k] != [] && SameButLast(net.down[k][0], q)
    ensures Receive(net.sws[k], CONTROL, q, net.pipes).sw.addReceived
  {
    assert SoundAt(net, cfgs, k);
  }

  lemma RelayAsks(net: Net, cfgs: seq<Config>, k: nat, port: int32, q: Packet)
    requires Sound(net, cfgs) && AsksInv(net) && k < |cfgs| && net.sws[k].Running() && q.Relay?
    ensures var r := Receive(net.sws[k], port, q, net.pipes); Asks(r.sw, Upward(net.up[k], r.out), net.down[k])
  {
    assert SoundAt(net, cfgs, k) && AsksAt(net, k);
    RelayFrame(net.sws[k], port, q.relaySrc, q.relayDest);
  }

  lemma ReadAsks(net: Net, cfgs: seq<Config>, a: Action)
    requires Inv(net, cfgs) && AsksInv(net) && Enabled(net, a) && HearingOf(net, a).Some?
    requires !Apply(net, a).misread && !Apply(net, a).overrun
    ensures AsksInv(Apply(net, a))
  {
    var q := HeardFits(net, a);
    var h := HearingOf(net, a).value;
    HistoryIs(net, a);
    match a
    case ControllerReads(k) =>
      ReadIs(net.ctlReader.left, net.up[k]);
      ControllerHearsAsks(net, cfgs, k, h);
    case SwitchReads(k) =>
      var mid := Heard(TakeDown(net, k), k, h);
      ControlAsks(net, cfgs, k, q);
      forall j: nat | j < |net.sws| && j != k ensures AsksAt(mid, j) { assert AsksAt(net, j); }
      ReactAsks(mid, k, Receive(net.sws[k], CONTROL, q, net.pipes));
    case RelayArrives(k, port, n) =>
      var mid := Heard(TakeRelays(net, net.sws[k].cfg.Neighbour(port), net.sws[k].cfg.id, n), k, h);
      RelayAsks(net, cfgs, k, port, q);
      forall j: nat | j < |net.sws| && j != k ensures AsksAt(mid, j) { assert AsksAt(net, j); }
      ReactAsks(mid, k, Receive(net.sws[k], port, q, net.pipes));
  }

  lemma QuietAsks(net: Net, cfgs: seq<Config>, a: Action)
    requires Inv(net, cfgs) && AsksInv(net) && Enabled(net, a) && HearingOf(net, a).None?
    ensures AsksInv(Apply(net, a))
  {
    match a
    case Start(k) =>
      assert SoundAt(net, cfgs, k) && AsksAt(net, k);
      ReactAsks(net, k, SendOpen(net.sws[k]));
    case AdmitLine(k, srcIp, destIp) =>
      assert SoundAt(net, cfgs, k);
      AdmitAsks(net.sws[k], cfgs[k], StandingOf(net.ctl, k + 1), net.up[k], net.down[k], srcIp, destIp, net.pipes);
      ReactAsks(net, k, Admit(net.sws[k], srcIp, destIp, net.pipes));
    case SetUpPort(k) => SameAsks(net, Apply(net, a));
    case ControllerPolls(_) => SameAsks(net, Apply(net, a));
    case SwitchPolls(_, _) => SameAsks(net, Apply(net, a));
  }

  lemma SameAsks(net: Net, t: Net)
    requires AsksInv(net) && Shape(t) && |t.sws| == |net.sws| && t.up == net.up && t.down == net.down
    requires forall j: nat | j < |net.sws| ::
               && t.sws[j].admitted == net.sws[j].admitted && t.sws[j].queried == net.sws[j].queried
               && t.sws[j].addReceived == net.sws[j].addReceived && t.sws[j].exit == net.sws[j].exit
    ensures AsksInv(t)
  {
    forall j: nat | j < |t.sws| ensures AsksAt(t, j) { assert AsksAt(net, j); }
  }

  lemma StepKeepsAsks(net: Net, cfgs: seq<Config>, a: Action)
    requires Inv(net, cfgs) && AsksInv(net) && Enabled(net, a) && !Apply(net, a).misread && !Apply(net, a).overrun
    ensures AsksInv(Apply(net, a))
  {
    if HearingOf(net, a).Some? { ReadAsks(net, cfgs, a); } else { QuietAsks(net, cfgs, a); }
  }

  // ---------------------------------------------------------------- RELAYs

  /** The RELAY `p` carries the source of packet `i` that switch `a` has admitted, for an address of switch
      `m`; its destination is that packet's own, or was replaced by the low end of the range. */
  predicate ComesFrom(cfgs: seq<Config>, sws: seq<SwitchState>, a: nat, i: nat, m: nat, p: Packet) {
    && a < |sws| && i < |sws[a].admitted| && m < |cfgs| && m != a
    && p.Relay? && p.relaySrc == sws[a].admitted[i].src
    && cfgs[m].Owns(sws[a].admitted[i].dest)
    && (p.relayDest == sws[a].admitted[i].dest || p.relayDest == cfgs[m].ipLow)
  }

  ghost predicate HasOrigin(cfgs: seq<Config>, sws: seq<SwitchState>, p: Packet) {
    exists a: nat, i: nat, m: nat :: ComesFrom(cfgs, sws, a, i, m, p)
  }

  /** Switch `a` itself admitted the packet, for an address of switch `m`. */
  ghost predicate AdmittedFor(cfgs: seq<Config>, sws: seq<SwitchState>, a: nat, m: nat, p: Packet) {
    exists i: nat :: ComesFrom(cfgs, sws, a, i, m, p)
  }

  ghost predicate AdmittedBy(cfgs: seq<Config>, sws: seq<SwitchState>, a: nat, p: Packet) {
    exists m: nat :: AdmittedFor(cfgs, sws, a, m, p)
  }

  /** In a chain, a RELAY goes to a neighbour, not from the owner of its destination; and to the right
      only from the switch that admitted the packet, or from switch 1 to switch 2. */
  ghost predicate InChain(cfgs: seq<Config>, sws: seq<SwitchState>, f: Flight) {
    && 1 <= f.src <= |cfgs| && 1 <= f.dst <= |cfgs| && (f.dst == f.src + 1 || f.dst == f.src - 1)
    && f.packet.Relay? && !cfgs[f.src - 1].Owns(f.packet.relayDest)
    && (f.src < f.dst ==>
          || AdmittedBy(cfgs, sws, f.src - 1, f.packet)
          || (f.src == 1 && !cfgs[1].Owns(f.packet.relayDest)))
  }

  ghost predicate Traced(cfgs: seq<Config>, sws: seq<SwitchState>, f: Flight) {
    && HasOrigin(cfgs, sws, f.packet)
    && (LinearChain(cfgs) && DisjointRanges(cfgs) && f.dst != NULL_PORT ==> InChain(cfgs, sws, f))
  }

  ghost predicate OriginInv(net: Net, cfgs: seq<Config>) { forall f | f in net.air :: Traced(cfgs, net.sws, f) }

  predicate MoreAdmitted(sws: seq<SwitchState>, later: seq<SwitchState>) {
    |later| == |sws| && forall k | 0 <= k < |sws| :: sws[k].admitted <= later[k].admitted
  }

  lemma TracedLater(cfgs: seq<Config>, sws: seq<SwitchState>, later: seq<SwitchState>, f: Flight)
    requires Traced(cfgs, sws, f) && MoreAdmitted(sws, later)
    ensures Traced(cfgs, later, f)
  {
    var a: nat, i: nat, m: nat :| ComesFrom(cfgs, sws, a, i, m, f.packet);
    assert ComesFrom(cfgs, later, a, i, m, f.packet);
    if f.src >= 1 && AdmittedBy(cfgs, sws, f.src - 1, f.packet) {
      var o: nat :| AdmittedFor(cfgs, sws, f.src - 1, o, f.packet);
      var j: nat :| ComesFrom(cfgs, sws, f.src - 1, j, o, f.packet);
      assert ComesFrom(cfgs, later, f.src - 1, j, o, f.packet);
      assert AdmittedFor(cfgs, later, f.src - 1, o, f.packet);
    }
  }

  /** A switch that forwards a packet it admitted, for the range it was told about. */
  lemma ForwardTraced(cfgs: seq<Config>, sws: seq<SwitchState>, k: nat, m: nat, low: int32, high: int32, port: int32,
                      i: nat, p: Packet)
    requires NamedFor(cfgs, k, m, low, high, port) && k < |sws| && i < |sws[k].admitted|
    requires p.Relay? && p.relaySrc == sws[k].admitted[i].src && low <= sws[k].admitted[i].dest <= high
    requires p.relayDest == sws[k].admitted[i].dest || p.relayDest == low
    ensures Traced(cfgs, sws, Flight(cfgs[k].id, cfgs[k].Neighbour(port), p))
  {
    assert ComesFrom(cfgs, sws, k, i, m, p);
    assert AdmittedFor(cfgs, sws, k, m, p);
    if LinearChain(cfgs) && DisjointRanges(cfgs) {
      assert if m < k then RangesApart(cfgs[m], cfgs[k]) else RangesApart(cfgs[k], cfgs[m]);
    }
  }

  /** What a reaction writes to a FIFO is traced. */
  ghost predicate WritesTraced(cfgs: seq<Config>, sws: seq<SwitchState>, r: Reaction) {
    r.out.Some? && r.out.value.ToPort? ==>
      Traced(cfgs, sws, Flight(r.sw.cfg.id, r.sw.cfg.Neighbour(r.out.value.port), r.out.value.packet))
  }

  lemma ReactTraced(net: Net, cfgs: seq<Config>, k: nat, r: Reaction)
    requires Shape(net) && k < |net.sws| && OriginInv(net, cfgs) && net.sws[k].admitted <= r.sw.admitted
    requires WritesTraced(cfgs, net.sws[k := r.sw], r)
    ensures OriginInv(React(net, k, r), cfgs)
  {
    var t := React(net, k, r);
    forall f | f in t.air ensures Traced(cfgs, t.sws, f) {
      if f in net.air { TracedLater(cfgs, net.sws, t.sws, f); }
    }
  }

  lemma AdmitHeader(net: Net, cfgs: seq<Config>, k: nat, srcIp: int32, destIp: int32)
    requires Sound(net, cfgs) && Enabled(net, AdmitLine(k, srcIp, destIp))
    ensures var t := Admit(net.sws[k], srcIp, destIp, net.pipes).sw;
            t.cfg == cfgs[k] && t.admitted == net.sws[k].admitted + [Header(srcIp, destIp)]
  {
    assert SoundAt(net, cfgs, k);
  }

  lemma AdmitTraced(net: Net, cfgs: seq<Config>, k: nat, srcIp: int32, destIp: int32)
    requires Inv(net, cfgs) && Enabled(net, AdmitLine(k, srcIp, destIp))
    ensures var r := Admit(net.sws[k], srcIp, destIp, net.pipes); WritesTraced(cfgs, net.sws[k := r.sw], r)
  {
    var r := Admit(net.sws[k], srcIp, destIp, net.pipes);
    var m, rule, counted := AdmitForwards(net, cfgs, k, srcIp, destIp);
    AdmitHeader(net, cfgs, k, srcIp, destIp);
    if r.out.Some? && r.out.value.ToPort? {
      var low, high, port := rule.destIpLow, rule.destIpHigh, rule.actionVal;
      ForwardTraced(cfgs, net.sws[k := r.sw], k, m, low, high, port, |net.sws[k].admitted|, Relay(srcIp, destIp));
      ForwardWritesTo(counted, port, Relay(srcIp, destIp), net.pipes);
    }
  }

  lemma ForwardWritesTo(sw: SwitchState, port: int32, p: Packet, pipes: set<Pipe>)
    ensures var r := ForwardOut(sw, port, p, pipes);
            r.out.Some? && r.out.value.ToPort? ==> r.out.value == ToPort(port, p)
  {
  }

  /** An ADD that answers the packet the switch waits with releases that packet. */
  lemma ControlTraced(net: Net, cfgs: seq<Config>, k: nat, q: Packet)
    requires Inv(net, cfgs) && AsksInv(net) && k < |cfgs| && net.sws[k].Running() && net.down[k] != [] && q == net.down[k][0]
    ensures var r := Receive(net.sws[k], CONTROL, q, net.pipes);
            r.sw.admitted == net.sws[k].admitted && WritesTraced(cfgs, net.sws[k := r.sw], r)
  {
    var sw := net.sws[k];
    var r := Receive(sw, CONTROL, q, net.pipes);
    var m := AddForwards(net, cfgs, k, q);
    ReleaseIs(sw, q, net.pipes);
    if q.Add? && q.action == 1 {
      AnswersLast(net, cfgs, k);
      ForwardTraced(cfgs, net.sws[k := r.sw], k, m, q.addLow, q.addHigh, q.relayPort, |sw.admitted| - 1, Relay(q.addSrc, q.addLow));
    }
  }

  /** The packet that an ADD releases has the source and the low end of the range from the ADD. */
  lemma ReleaseIs(sw: SwitchState, q: Packet, pipes: set<Pipe>)
    requires q.Ack? || q.Add?
    ensures var r := Receive(sw, CONTROL, q, pipes);
            && r.sw.admitted == sw.admitted && r.sw.cfg == sw.cfg
            && (r.out.Some? ==> q.Add? && q.action == 1)
            && (r.out.Some? && r.out.value.ToPort? ==> r.out.value == ToPort(q.relayPort, Relay(q.addSrc, q.addLow)))
  {
    if q.Add? { ForwardWritesTo(sw.(addReceived := true), q.relayPort, Relay(q.addSrc, q.addLow), pipes); }
  }

  lemma AnswersLast(net: Net, cfgs: seq<Config>, k: nat)
    requires Inv(net, cfgs) && AsksInv(net) && k < |cfgs| && net.sws[k].Running() && net.down[k] != [] && net.down[k][0].Add?
    ensures net.sws[k].admitted != [] && net.sws[k].cfg == cfgs[k]
    ensures var h, q := net.sws[k].admitted[|net.sws[k].admitted| - 1], net.down[k][0];
            q.addSrc == h.src && q.addLow <= h.dest <= q.addHigh
  {
    assert SoundAt(net, cfgs, k) && NodeAt(net, k) && AsksAt(net, k);
  }

  /** In a chain, only switch 1 passes a RELAY on to the right, and only to where it came from. */
  lemma PassedTraced(cfgs: seq<Config>, sws: seq<SwitchState>, k: nat, port: int32, q: Packet, next: int32)
    requires k < |cfgs| && cfgs[k].Neighbour(port) != NULL_PORT && ForwardsOut(port) && q.Relay?
    requires Traced(cfgs, sws, Flight(cfgs[k].Neighbour(port), cfgs[k].id, q))
    requires !cfgs[k].Owns(q.relayDest) && cfgs[k].id != port && next == (if cfgs[k].id > port then 1 else 2)
    ensures Traced(cfgs, sws, Flight(cfgs[k].id, cfgs[k].Neighbour(next), q))
  {
  }

  lemma RelayTraced(net: Net, cfgs: seq<Config>, k: nat, port: int32, q: Packet)
    requires Sound(net, cfgs) && OriginInv(net, cfgs) && k < |cfgs| && net.sws[k].Running() && ForwardsOut(port)
    requires cfgs[k].Neighbour(port) != NULL_PORT && Flight(cfgs[k].Neighbour(port), cfgs[k].id, q) in net.air && q.Relay?
    ensures var r := Receive(net.sws[k], port, q, net.pipes);
            r.sw.admitted == net.sws[k].admitted && WritesTraced(cfgs, net.sws[k := r.sw], r)
  {
    RelayKeepsTable(net, cfgs, k, port, q);
    assert net.sws[k].cfg == cfgs[k] by { assert SoundAt(net, cfgs, k); }
    var sws, f := net.sws, Flight(cfgs[k].Neighbour(port), cfgs[k].id, q);
    var r := Receive(sws[k], port, q, net.pipes);
    RelayLeavesBy(sws[k], port, q.relaySrc, q.relayDest);
    TracedLater(cfgs, sws, sws[k := r.sw], f);
    if r.out.Some? { PassedTraced(cfgs, sws[k := r.sw], k, port, q, if cfgs[k].id > port then 1 else 2); }
  }

  lemma HearsTraced(net: Net, cfgs: seq<Config>, k: nat, i: int32, h: Hearing, q: Packet)
    requires Shape(net) && k < |net.sws| && OriginInv(net, cfgs) && h.packet == Some(q)
    requires var r := Receive(net.sws[k], i, q, net.pipes);
             net.sws[k].admitted <= r.sw.admitted && WritesTraced(cfgs, net.sws[k := r.sw], r)
    ensures OriginInv(SwitchHears(net, k, i, h), cfgs)
  {
    ReactTraced(Heard(net, k, h), cfgs, k, Receive(net.sws[k], i, q, net.pipes));
  }

  lemma SwitchReadsTraced(net: Net, cfgs: seq<Config>, k: nat)
    requires Inv(net, cfgs) && AsksInv(net) && OriginInv(net, cfgs) && Enabled(net, SwitchReads(k))
    requires HearingOf(net, SwitchReads(k)).value.clean
    ensures OriginInv(Apply(net, SwitchReads(k)), cfgs)
  {
    var h := HearingOf(net, SwitchReads(k)).value;
    ReadIs(net.readers[k].left, net.down[k]);
    ControlTraced(net, cfgs, k, net.down[k][0]);
    HearsTraced(TakeDown(net, k), cfgs, k, CONTROL, h, net.down[k][0]);
  }

  lemma RelayArrivesTraced(net: Net, cfgs: seq<Config>, k: nat, port: int32, n: nat)
    requires Sound(net, cfgs) && OriginInv(net, cfgs) && Enabled(net, RelayArrives(k, port, n))
    requires HearingOf(net, RelayArrives(k, port, n)).value.clean
    ensures OriginInv(Apply(net, RelayArrives(k, port, n)), cfgs)
  {
    assert net.sws[k].cfg == cfgs[k] by { assert SoundAt(net, cfgs, k); }
    var src, dst := cfgs[k].Neighbour(port), cfgs[k].id;
    var h := HearingOf(net, RelayArrives(k, port, n)).value;
    var q := Waiting(net.air, src, dst)[0];
    ReadIs(net.readers[k].left, Waiting(net.air, src, dst)[..n]);
    FirstIsRelay(net.air, src, dst, n);
    RelayTraced(net, cfgs, k, port, q);
    HearsTraced(TakeRelays(net, src, dst, n), cfgs, k, port, h, q);
  }

  lemma OtherStepTraced(net: Net, cfgs: seq<Config>, a: Action)
    requires OriginInv(net, cfgs) && Enabled(net, a) && !a.AdmitLine? && !a.SwitchReads? && !a.RelayArrives?
    ensures OriginInv(Apply(net, a), cfgs)
  {
    match a
    case Start(k) => ReactTraced(net, cfgs, k, SendOpen(net.sws[k]));
    case SetUpPort(k) =>
      var t := Apply(net, a);
      forall f | f in t.air ensures Traced(cfgs, t.sws, f) { TracedLater(cfgs, net.sws, t.sws, f); }
    case ControllerReads(k) => ControllerTouchesNot(TakeUp(net, k), k, HearingOf(net, a).value);
    case _ =>
  }

  lemma StepKeepsOrigins(net: Net, cfgs: seq<Config>, a: Action)
    requires Inv(net, cfgs) && AsksInv(net) && OriginInv(net, cfgs) && Enabled(net, a)
    requires !Apply(net, a).overrun && !Apply(net, a).garbled
    ensures OriginInv(Apply(net, a), cfgs)
  {
    HistoryIs(net, a);
    match a
    case AdmitLine(k, srcIp, destIp) =>
      AdmitTraced(net, cfgs, k, srcIp, destIp);
      AdmitHeader(net, cfgs, k, srcIp, destIp);
      ReactTraced(net, cfgs, k, Admit(net.sws[k], srcIp, destIp, net.pipes));
    case SwitchReads(k) => SwitchReadsTraced(net, cfgs, k);
    case RelayArrives(k, port, n) => RelayArrivesTraced(net, cfgs, k, port, n);
    case _ => OtherStepTraced(net, cfgs, a);
  }

  // ---------------------------------------------------------------- main results

  lemma {:induction false} RunKeepsOrigins(s: Net, acts: seq<Action>, t: Net, cfgs: seq<Config>)
    requires Inv(s, cfgs) && AsksInv(s) && OriginInv(s, cfgs) && Run(s, acts, t) && !t.misread && !t.overrun
    ensures AsksInv(t) && (!t.garbled ==> OriginInv(t, cfgs))
    decreases |acts|
  {
    if acts != [] {
      var n := |acts| - 1;
      var m :| Run(s, acts[..n], m) && Step(m, acts[n], t);
      HistoryStays(m, acts[n]);
      RunKeepsInv(s, acts[..n], m, cfgs);
      RunKeepsOrigins(s, acts[..n], m, cfgs);
      StepKeepsAsks(m, cfgs, acts[n]);
      if !t.garbled { StepKeepsOrigins(m, cfgs, acts[n]); }
    }
  }

  lemma ReachableOrigins(cfgs: seq<Config>, t: Net)
    requires CleanlyReachable(cfgs, t)
    ensures AsksInv(t) && (!t.garbled ==> OriginInv(t, cfgs))
  {
    var acts :| Run(Init(cfgs), acts, t);
    InitInv(cfgs);
    RunKeepsOrigins(Init(cfgs), acts, t, cfgs);
  }

  /** While the controller misreads nothing, a switch that waits for an ADD waits with the packet it
      admitted last; its QUERY asks about that packet, and the ADD on its way back has its source and
      covers its destination. */
  lemma QueryAsks(cfgs: seq<Config>, t: Net, k: nat)
    requires CleanlyReachable(cfgs, t) && k < |cfgs|
    ensures k < |t.sws| && k < |t.up| && k < |t.down|
    ensures t.sws[k].Running() && !t.sws[k].addReceived ==>
              && t.sws[k].admitted != []
              && var h := t.sws[k].admitted[|t.sws[k].admitted| - 1];
                 || (t.up[k] == [Query(h.src, h.dest)] && t.down[k] == [])
                 || (&& t.up[k] == [] && |t.down[k]| == 1 && t.down[k][0].Add?
                     && t.down[k][0].addSrc == h.src && t.down[k][0].addLow <= h.dest <= t.down[k][0].addHigh)
  {
    ReachableInv(cfgs, t);
    ReachableOrigins(cfgs, t);
    assert SoundAt(t, cfgs, k) && NodeAt(t, k) && AsksAt(t, k);
  }

  /** While nothing is misread, every RELAY in flight carries the source of a packet that a switch has
      admitted for an address of another one, and a destination that is that packet's own or the low end
      of the range it lies in. */
  lemma RelayOrigin(cfgs: seq<Config>, t: Net, f: Flight)
    requires CleanlyReachable(cfgs, t) && !t.garbled && f in t.air
    ensures HasOrigin(cfgs, t.sws, f.packet)
  {
    ReachableOrigins(cfgs, t);
    assert Traced(cfgs, t.sws, f);
  }

  lemma OneOwner(cfgs: seq<Config>, a: nat, b: nat, ip: int32)
    requires DisjointRanges(cfgs) && a < |cfgs| && b < |cfgs| && a != b && cfgs[a].Owns(ip)
    ensures !cfgs[b].Owns(ip)
  {
    assert if a < b then RangesApart(cfgs[a], cfgs[b]) else RangesApart(cfgs[b], cfgs[a]);
  }

  lemma OwnerIs(cfgs: seq<Config>, sws: seq<SwitchState>, a: nat, b: nat, p: Packet)
    requires DisjointRanges(cfgs) && AdmittedBy(cfgs, sws, a, p) && p.Relay? && b < |cfgs| && cfgs[b].Owns(p.relayDest)
    ensures AdmittedFor(cfgs, sws, a, b, p)
  {
    var m: nat :| AdmittedFor(cfgs, sws, a, m, p);
    var i: nat :| ComesFrom(cfgs, sws, a, i, m, p);
    if m != b { OneOwner(cfgs, m, b, p.relayDest); }
  }

  /** In a chain, a RELAY that comes to its owner from the left was admitted by the owner's left
      neighbour: packets for a switch further to the right never arrive. */
  lemma FromTheLeft(cfgs: seq<Config>, t: Net, f: Flight)
    requires CleanlyReachable(cfgs, t) && !t.garbled && LinearChain(cfgs) && DisjointRanges(cfgs) && f in t.air
    requires 1 <= f.dst <= |cfgs| && f.packet.Relay? && cfgs[f.dst - 1].Owns(f.packet.relayDest) && f.src < f.dst
    ensures 1 <= f.src == f.dst - 1 && AdmittedFor(cfgs, t.sws, f.src - 1, f.dst - 1, f.packet)
  {
    ReachableOrigins(cfgs, t);
    assert Traced(cfgs, t.sws, f);
    assert InChain(cfgs, t.sws, f);
    OwnerIs(cfgs, t.sws, f.src - 1, f.dst - 1, f.packet);
  }
}
