/** Any number of switches, one controller and the channels between them (test2) as a
    message-passing transition system.  Switch k is the one on the controller's connection slot
    k + 1.  A traffic line is any pair of addresses the traffic parser lets through.

    The controller and each switch go round their descriptors in passes: `poll` finds some that have
    something to read, the buffer is cleared, and those are read in ascending order.  A read takes
    what is waiting as text, over what the earlier reads of the pass have left in the buffer, so a
    packet is handled as what that text is parsed to. */
module Network {
  import opened CStrings
  import opened Decimal
  import opened Packets
  import opened PacketReader
  import opened Switch
  import opened Controller

  /** The descriptor of a switch that leads to the controller. */
  const CONTROL: int32 := 4

  /** A RELAY on its way between two switches, named by their ids. */
  datatype Flight = Flight(src: int32, dst: int32, packet: Packet)

  /** One pass: the string in the buffer, and the descriptors that are still to be read, in order. */
  datatype Reader = Reader(left: string, ready: seq<int>)
  {
    predicate Due(i: int) { ready != [] && ready[0] == i }
  }

  predicate Ascending(ready: seq<int>) { forall i, j | 0 <= i < j < |ready| :: ready[i] < ready[j] }

  datatype Net = Net(
    sws: seq<SwitchState>, ctl: ControllerState,
    up: seq<seq<Packet>>,   // from each switch to the controller
    down: seq<seq<Packet>>, // from the controller to each switch
    air: seq<Flight>,       // all FIFOs, oldest first
    pipes: set<Pipe>,       // the FIFOs that have been opened for reading
    ctlReader: Reader, readers: seq<Reader>,
    lost: nat,     // history: RELAYs written to descriptor 0
    merged: nat,   // history: RELAYs read together with an earlier one
    misread: bool, // history: the controller took a packet for another one
    garbled: bool, // history: a switch took a packet for another one
    overrun: bool, // history: a handler indexed past the end of a message that had become too short
    hasty: bool)   // history: the controller handled a QUERY before all switches had set up their ports

  datatype Action =
    | Start(k: nat)
    | SetUpPort(k: nat)
    | AdmitLine(k: nat, srcIp: int32, destIp: int32)
    | ControllerPolls(ready: seq<int>)
    | ControllerReads(k: nat)
    | SwitchPolls(k: nat, ready: seq<int>)
    | SwitchReads(k: nat)
    | RelayArrives(k: nat, port: int32, n: nat)

  const IDLE := Reader("", [])

  function Init(cfgs: seq<Config>): Net {
    Net(seq(|cfgs|, k requires 0 <= k < |cfgs| => Boot(cfgs[k])), ControllerBoot(),
        seq(|cfgs|, _ => []), seq(|cfgs|, _ => []), [], {}, IDLE, seq(|cfgs|, _ => IDLE), 0, 0,
        false, false, false, false)
  }

  predicate Shape(net: Net) { |net.sws| == |net.up| == |net.down| == |net.readers| }

  // ---------------------------------------------------------------- FIFOs

  /** The packets in the FIFO from `src` to `dst`, oldest first. */
  function Waiting(air: seq<Flight>, src: int32, dst: int32): seq<Packet> {
    if air == [] then []
    else if air[0].src == src && air[0].dst == dst then [air[0].packet] + Waiting(air[1..], src, dst)
    else Waiting(air[1..], src, dst)
  }

  /** All FIFOs after the oldest `n` packets were read from that one. */
  function Without(air: seq<Flight>, src: int32, dst: int32, n: nat): (rest: seq<Flight>)
    requires n <= |Waiting(air, src, dst)|
    ensures |rest| + n == |air|
    ensures forall f | f in rest :: f in air
  {
    if n == 0 then air
    else if air[0].src == src && air[0].dst == dst then Without(air[1..], src, dst, n - 1)
    else [air[0]] + Without(air[1..], src, dst, n)
  }

  lemma {:induction false} WaitingFlies(air: seq<Flight>, src: int32, dst: int32)
    ensures forall p | p in Waiting(air, src, dst) :: Flight(src, dst, p) in air
  {
    if air != [] { WaitingFlies(air[1..], src, dst); }
  }

  // ---------------------------------------------------------------- steps

  /** Descriptor `i` of switch `k` has something to read. */
  predicate Readable(net: Net, k: nat, i: int)
    requires Shape(net) && k < |net.sws|
  {
    if i == CONTROL then net.down[k] != []
    else
      && (i == 1 || i == 2) && net.sws[k].cfg.Neighbour(i) != NULL_PORT
      && Waiting(net.air, net.sws[k].cfg.Neighbour(i), net.sws[k].cfg.id) != []
  }

  predicate Enabled(net: Net, a: Action) {
    && Shape(net)
    && match a
       case Start(k) => k < |net.sws| && net.sws[k].counts.open == 0
       case SetUpPort(k) => k < |net.sws| && net.sws[k].Running() && net.sws[k].counts.open > 0 && net.sws[k].pipesMade < 2
       case AdmitLine(k, srcIp, destIp) =>
         && k < |net.sws| && net.sws[k].Running() && net.sws[k].ackReceived && net.sws[k].addReceived
         && net.sws[k].pipesMade == 2 && net.readers[k].ready == [] && ValidIp(srcIp) && ValidIp(destIp)
       case ControllerPolls(ready) =>
         && net.ctlReader.ready == [] && Ascending(ready)
         && forall i | i in ready :: 1 <= i <= |net.up| && net.up[i - 1] != []
       case ControllerReads(k) => k < |net.sws| && net.ctlReader.Due(k + 1) && net.up[k] != []
       case SwitchPolls(k, ready) =>
         && k < |net.sws| && net.sws[k].Running() && net.sws[k].pipesMade == 2
         && net.readers[k].ready == [] && Ascending(ready) && forall i | i in ready :: Readable(net, k, i)
       case SwitchReads(k) =>
         && k < |net.sws| && net.sws[k].Running() && net.sws[k].pipesMade == 2
         && net.readers[k].Due(CONTROL) && net.down[k] != []
       case RelayArrives(k, port, n) =>
         && k < |net.sws| && net.sws[k].Running() && net.sws[k].pipesMade == 2 && net.readers[k].Due(port)
         && (port == 1 || port == 2) && net.sws[k].cfg.Neighbour(port) != NULL_PORT
         && 0 < n <= |Waiting(net.air, net.sws[k].cfg.Neighbour(port), net.sws[k].cfg.id)|
         && |Text(Waiting(net.air, net.sws[k].cfg.Neighbour(port), net.sws[k].cfg.id)[..n])| < BUFFER_SIZE
  }

  /** What a handler has written to the controller, to a FIFO, and to descriptor 0. */
  function Upward(up: seq<Packet>, out: Option<Output>): seq<Packet> {
    if out.Some? && out.value.ToController? then up + [out.value.packet] else up
  }

  function Aloft(air: seq<Flight>, r: Reaction): seq<Flight> {
    if r.out.Some? && r.out.value.ToPort? then
      air + [Flight(r.sw.cfg.id, r.sw.cfg.Neighbour(r.out.value.port), r.out.value.packet)]
    else air
  }

  function Lost(lost: nat, out: Option<Output>): nat {
    if out.Some? && out.value.ToDescriptorZero? then lost + 1 else lost
  }

  /** Switch `k` becomes `r.sw`, and what it wrote is on its way. */
  function React(net: Net, k: nat, r: Reaction): Net
    requires Shape(net) && k < |net.sws|
  {
    net.(sws := net.sws[k := r.sw], up := net.up[k := Upward(net.up[k], r.out)],
         air := Aloft(net.air, r), lost := Lost(net.lost, r.out))
  }

  /** The controller becomes `a.ctl`, and its answer to switch `k` is on its way. */
  function Reply(net: Net, k: nat, a: Answer): Net
    requires Shape(net) && k < |net.sws|
  {
    var moved := net.(ctl := a.ctl);
    if a.out.Some? then moved.(down := moved.down[k := moved.down[k] + [a.out.value]]) else moved
  }

  /** A read has put `left` into the buffer. */
  function After(r: Reader, left: string): Reader { Reader(left, if r.ready == [] then [] else r.ready[1..]) }

  /** Every switch has set up both ports and is in its loop. */
  predicate AllSetUp(net: Net) { forall k | 0 <= k < |net.sws| :: net.sws[k].pipesMade == 2 }

  /** The controller has read something ... */
  function Noted(net: Net, h: Hearing): Net {
    net.(ctlReader := After(net.ctlReader, h.left), misread := net.misread || !h.clean,
         overrun := net.overrun || h.packet.None?,
         hasty := net.hasty || (h.packet.Some? && h.packet.value.Query? && !AllSetUp(net)))
  }

  /** ... from slot k + 1. */
  function ControllerHears(net: Net, k: nat, h: Hearing): Net
    requires Shape(net) && k < |net.sws|
  {
    match h.packet
    case None => Noted(net, h)
    case Some(p) => Reply(Noted(net, h), k, HandlePacket(net.ctl, k + 1, p))
  }

  /** Switch `k` has read something from descriptor `i`. */
  function Heard(net: Net, k: nat, h: Hearing): Net
    requires Shape(net) && k < |net.sws|
  {
    net.(readers := net.readers[k := After(net.readers[k], h.left)], garbled := net.garbled || !h.clean,
         overrun := net.overrun || h.packet.None?)
  }

  /** ... and handles it. */
  function SwitchHears(net: Net, k: nat, i: int32, h: Hearing): Net
    requires Shape(net) && k < |net.sws|
  {
    match h.packet
    case None => Heard(net, k, h)
    case Some(p) => React(Heard(net, k, h), k, Receive(net.sws[k], i, p, net.pipes))
  }

  function TakeUp(net: Net, k: nat): Net
    requires Shape(net) && k < |net.sws|
  {
    net.(up := net.up[k := []])
  }

  function TakeDown(net: Net, k: nat): Net
    requires Shape(net) && k < |net.sws|
  {
    net.(down := net.down[k := []])
  }

  function TakeRelays(net: Net, src: int32, dst: int32, n: nat): Net
    requires 0 < n <= |Waiting(net.air, src, dst)|
  {
    net.(air := Without(net.air, src, dst, n), merged := net.merged + n - 1)
  }

  function Apply(net: Net, a: Action): Net
    requires Enabled(net, a)
  {
    match a
    case Start(k) => React(net, k, SendOpen(net.sws[k]))
    case SetUpPort(k) => net.(sws := net.sws[k := MakePipe(net.sws[k])], pipes := net.pipes + PipeMade(net.sws[k]))
    case AdmitLine(k, srcIp, destIp) => React(net, k, Admit(net.sws[k], srcIp, destIp, net.pipes))
    case ControllerPolls(ready) => net.(ctlReader := Reader("", ready))
    case ControllerReads(k) => ControllerHears(TakeUp(net, k), k, Read(net.ctlReader.left, net.up[k]))
    case SwitchPolls(k, ready) => net.(readers := net.readers[k := Reader("", ready)])
    case SwitchReads(k) => SwitchHears(TakeDown(net, k), k, CONTROL, Read(net.readers[k].left, net.down[k]))
    case RelayArrives(k, port, n) =>
      var src, dst := net.sws[k].cfg.Neighbour(port), net.sws[k].cfg.id;
      SwitchHears(TakeRelays(net, src, dst, n), k, port, Read(net.readers[k].left, Waiting(net.air, src, dst)[..n]))
  }

  predicate Step(s: Net, a: Action, t: Net) { Enabled(s, a) && t == Apply(s, a) }

  ghost predicate Run(s: Net, acts: seq<Action>, t: Net)
    decreases |acts|
  {
    if acts == [] then s == t
    else
      var n := |acts| - 1;
      var before, last := acts[..n], acts[n];
      exists m :: Run(s, before, m) && Step(m, last, t)
  }

  ghost predicate Reachable(cfgs: seq<Config>, t: Net) { exists acts :: Run(Init(cfgs), acts, t) }

  /** What a step reads; None for a step that reads nothing. */
  function HearingOf(net: Net, a: Action): Option<Hearing>
    requires Enabled(net, a)
  {
    match a
    case ControllerReads(k) => Some(Read(net.ctlReader.left, net.up[k]))
    case SwitchReads(k) => Some(Read(net.readers[k].left, net.down[k]))
    case RelayArrives(k, port, n) =>
      Some(Read(net.readers[k].left, Waiting(net.air, net.sws[k].cfg.Neighbour(port), net.sws[k].cfg.id)[..n]))
    case _ => None
  }

  /** The history after the controller, or a switch, has heard `h`. */
  predicate Remembers(net: Net, t: Net, byController: bool, h: Hearing) {
    && t.misread == (net.misread || (byController && !h.clean))
    && t.garbled == (net.garbled || (!byController && !h.clean))
    && t.overrun == (net.overrun || h.packet.None?)
    && (if byController then net.hasty ==> t.hasty else t.hasty == net.hasty)
  }

  predicate SameHistory(net: Net, t: Net) {
    t.misread == net.misread && t.garbled == net.garbled && t.overrun == net.overrun && t.hasty == net.hasty
  }

  lemma ReactHistory(net: Net, k: nat, r: Reaction)
    requires Shape(net) && k < |net.sws|
    ensures SameHistory(net, React(net, k, r))
  {
  }

  lemma SwitchRemembers(net: Net, k: nat, i: int32, h: Hearing)
    requires Shape(net) && k < |net.sws|
    ensures Remembers(net, SwitchHears(net, k, i, h), false, h)
  {
    if h.packet.Some? { ReactHistory(Heard(net, k, h), k, Receive(net.sws[k], i, h.packet.value, net.pipes)); }
  }

  lemma ControllerRemembers(net: Net, k: nat, h: Hearing)
    requires Shape(net) && k < |net.sws|
    ensures Remembers(net, ControllerHears(net, k, h), true, h)
  {
  }

  /** The history changes by what is read, and in no other way. */
  lemma HistoryIs(net: Net, a: Action)
    requires Enabled(net, a)
    ensures var h := HearingOf(net, a);
            if h.Some? then Remembers(net, Apply(net, a), a.ControllerReads?, h.value) else SameHistory(net, Apply(net, a))
  {
    match a
    case Start(k) => ReactHistory(net, k, SendOpen(net.sws[k]));
    case AdmitLine(k, srcIp, destIp) => ReactHistory(net, k, Admit(net.sws[k], srcIp, destIp, net.pipes));
    case ControllerReads(k) => ControllerRemembers(TakeUp(net, k), k, HearingOf(net, a).value);
    case SwitchReads(k) => SwitchRemembers(TakeDown(net, k), k, CONTROL, HearingOf(net, a).value);
    case RelayArrives(k, port, n) => RelayRemembers(net, k, port, n);
    case _ =>
  }

  lemma RelayRemembers(net: Net, k: nat, port: int32, n: nat)
    requires Enabled(net, RelayArrives(k, port, n))
    ensures var a := RelayArrives(k, port, n); Remembers(net, Apply(net, a), false, HearingOf(net, a).value)
  {
    var src, dst := net.sws[k].cfg.Neighbour(port), net.sws[k].cfg.id;
    SwitchRemembers(TakeRelays(net, src, dst, n), k, port, HearingOf(net, RelayArrives(k, port, n)).value);
  }

  /** What is in the history stays there. */
  lemma HistoryStays(net: Net, a: Action)
    requires Enabled(net, a)
    ensures var t := Apply(net, a);
            && (net.misread ==> t.misread) && (net.garbled ==> t.garbled)
            && (net.overrun ==> t.overrun) && (net.hasty ==> t.hasty)
  {
    HistoryIs(net, a);
  }

  // ---------------------------------------------------------------- what holds whatever is misread

  predicate ForwardsOut(port: int32) { port == 1 || port == 2 }

  predicate AddOk(p: Packet) { p.Add? && (p.action == 0 || (p.action == 1 && ForwardsOut(p.relayPort))) }

  /** How a connection stands with the controller: it is registered, and a query on it was dropped. */
  datatype Standing = Standing(known: bool, dropped: bool)

  function StandingOf(ctl: ControllerState, slot: nat): Standing { Standing(slot in ctl.idToFd, slot in ctl.unanswered) }

  /** The control connection of a running switch: at most one message, of the type the reader
      expects, and none while the switch waits exactly when its query was dropped. */
  predicate Channel(sw: SwitchState, at: Standing, up: seq<Packet>, down: seq<Packet>) {
    if sw.counts.open == 0 then
      !sw.ackReceived && sw.addReceived && up == [] && down == [] && at == Standing(false, false)
    else if !sw.ackReceived then
      && sw.addReceived && !at.dropped
      && (|| (|up| == 1 && up[0].Open? && down == [] && !at.known)
          || (up == [] && down == [Ack] && at.known))
    else
      && at.known
      && if sw.addReceived then up == [] && down == [] && !at.dropped
         else if at.dropped then up == [] && down == []
         else
           || (|up| == 1 && up[0].Query? && down == [])
           || (up == [] && |down| == 1 && AddOk(down[0]))
  }

  /** Only port 0 leads to the controller. */
  predicate PortsInv(sw: SwitchState) {
    forall p | p in sw.portToFd :: sw.portToFd[p].ControllerSocket? <==> p == 0
  }

  /** Every rule is for all sources and of the lowest priority. */
  predicate Standard(r: FlowRule) { r.srcIpLow == 0 && r.srcIpHigh == MAX_IP && r.pri == MIN_PRI }

  predicate RuleShape(r: FlowRule) { Standard(r) && (r.actionType.Drop? || ForwardsOut(r.actionVal)) }

  /** The first rule delivers, and the others drop or forward out of port 1 or 2. */
  predicate TableShape(table: seq<FlowRule>) {
    && table != [] && Standard(table[0]) && table[0].actionType.Forward? && table[0].actionVal == 3
    && forall r | 0 < r < |table| :: RuleShape(table[r])
  }

  ghost predicate SoundNode(sw: SwitchState, cfg: Config, at: Standing, up: seq<Packet>, down: seq<Packet>) {
    && sw.cfg == cfg && sw.pipesMade <= 2 && sw.counts.ack == (if sw.ackReceived then 1 else 0)
    && if sw.Running() then Channel(sw, at, up, down) && TableShape(sw.flowTable) && PortsInv(sw) && Accounted(sw)
       else up == [] && down == [] && sw.counts.open > 0 && !at.dropped
  }

  ghost predicate SoundAt(net: Net, cfgs: seq<Config>, k: nat)
    requires Shape(net) && |net.sws| == |cfgs| && k < |cfgs|
  {
    SoundNode(net.sws[k], cfgs[k], StandingOf(net.ctl, k + 1), net.up[k], net.down[k])
  }

  predicate AllRelays(air: seq<Flight>) { forall f | f in air :: f.packet.Relay? }

  ghost predicate Sound(net: Net, cfgs: seq<Config>) {
    && Shape(net) && |net.sws| == |cfgs| && AllRelays(net.air)
    && forall k: nat | k < |cfgs| :: SoundAt(net, cfgs, k)
  }

  // ---------------------------------------------------------------- one handler at a time

  /** What a handler writes to a FIFO is a RELAY. */
  predicate WritesRelays(r: Reaction) { r.out.Some? && r.out.value.ToPort? ==> r.out.value.packet.Relay? }

  lemma ForwardOutSound(sw: SwitchState, port: int32, p: Packet, pipes: set<Pipe>)
    requires PortsInv(sw) && ForwardsOut(port) && p.Relay?
    ensures var r := ForwardOut(sw, port, p, pipes);
            && PortsInv(r.sw) && WritesRelays(r) && (r.out.Some? ==> !r.out.value.ToController?)
            && r.sw.flowTable == sw.flowTable
  {
  }

  lemma HitShape(table: seq<FlowRule>, k: nat, n: nat)
    requires TableShape(table) && k < |table|
    ensures TableShape(table[k := table[k].(pktCount := n)])
  {
    var t := table[k := table[k].(pktCount := n)];
    forall r | 0 < r < |t| ensures RuleShape(t[r]) { assert RuleShape(table[r]); }
  }

  /** A packet that hits a rule goes to a neighbour, if it goes anywhere. */
  lemma HitOutput(sw: SwitchState, srcIp: int32, destIp: int32, pipes: set<Pipe>)
    requires TableShape(sw.flowTable) && PortsInv(sw) && Covered(sw.flowTable, destIp)
    ensures var r := Admit(sw, srcIp, destIp, pipes);
            && TableShape(r.sw.flowTable) && PortsInv(r.sw) && WritesRelays(r)
            && (r.out.Some? ==> !r.out.value.ToController?)
  {
    var k := FirstMatch(sw.flowTable, destIp);
    var rule := sw.flowTable[k];
    HitShape(sw.flowTable, k, rule.pktCount + 1);
    var counted := WithHeader(sw, Header(srcIp, destIp)).(
                     flowTable := sw.flowTable[k := rule.(pktCount := rule.pktCount + 1)]);
    assert RuleShape(rule) || k == 0;
    if rule.Remote() {
      assert Admit(sw, srcIp, destIp, pipes) == ForwardOut(counted, rule.actionVal, Relay(srcIp, destIp), pipes);
      ForwardOutSound(counted, rule.actionVal, Relay(srcIp, destIp), pipes);
    } else {
      assert Admit(sw, srcIp, destIp, pipes) == Reaction(counted, None);
    }
  }

  lemma AdmitSound(sw: SwitchState, cfg: Config, at: Standing, up: seq<Packet>, down: seq<Packet>, srcIp: int32, destIp: int32, pipes: set<Pipe>)
    requires SoundNode(sw, cfg, at, up, down) && sw.Running() && sw.ackReceived && sw.addReceived
    ensures var r := Admit(sw, srcIp, destIp, pipes);
            SoundNode(r.sw, cfg, at, Upward(up, r.out), down) && WritesRelays(r)
  {
    AdmitAccounted(sw, srcIp, destIp, pipes);
    if Covered(sw.flowTable, destIp) {
      HitFrame(sw, srcIp, destIp, pipes);
      HitOutput(sw, srcIp, destIp, pipes);
    }
  }

  /** An ADD that the controller can send goes to the table, and its packet to a neighbour. */
  lemma AddOutput(sw: SwitchState, i: int32, p: Packet, pipes: set<Pipe>)
    requires AddOk(p) && TableShape(sw.flowTable) && PortsInv(sw)
    ensures var r := Receive(sw, i, p, pipes);
            && TableShape(r.sw.flowTable) && PortsInv(r.sw) && WritesRelays(r)
            && (r.out.Some? ==> !r.out.value.ToController?)
  {
    var t := Receive(sw, i, p, pipes).sw;
    AddFrame(sw, p.action, p.addLow, p.addHigh, p.relayPort, p.addSrc, pipes);
    if p.action == 1 { ForwardOutSound(sw.(addReceived := true), p.relayPort, Relay(p.addSrc, p.addLow), pipes); }
    if t.Running() {
      forall r | 0 < r < |t.flowTable| ensures RuleShape(t.flowTable[r]) {
        assert r < |sw.flowTable| ==> RuleShape(sw.flowTable[r]);
      }
    }
  }

  lemma AddSound(sw: SwitchState, cfg: Config, at: Standing, i: int32, p: Packet, pipes: set<Pipe>)
    requires SoundNode(sw, cfg, at, [], [p]) && sw.Running() && sw.ackReceived
    ensures var r := Receive(sw, i, p, pipes);
            SoundNode(r.sw, cfg, at, [], []) && WritesRelays(r) && (r.out.Some? ==> !r.out.value.ToController?)
  {
    AddOutput(sw, i, p, pipes);
    AddFrame(sw, p.action, p.addLow, p.addHigh, p.relayPort, p.addSrc, pipes);
    AddAccounted(sw, p.action, p.addLow, p.addHigh, p.relayPort, p.addSrc, pipes);
  }

  /** A message from the controller, at most the last field of which was misread. */
  lemma ControlSound(sw: SwitchState, cfg: Config, at: Standing, up: seq<Packet>, down: seq<Packet>, i: int32, q: Packet, pipes: set<Pipe>)
    requires SoundNode(sw, cfg, at, up, down) && sw.Running() && down != [] && SameButLast(down[0], q)
    ensures var r := Receive(sw, i, q, pipes);
            SoundNode(r.sw, cfg, at, Upward(up, r.out), []) && WritesRelays(r)
  {
    if sw.ackReceived {
      assert SoundNode(sw, cfg, at, [], [q]);
      AddSound(sw, cfg, at, i, q, pipes);
    } else {
      SameBooks(sw, HandleAck(sw));
    }
  }

  lemma PassOnFrame(sw: SwitchState, port: int32, srcIp: int32, destIp: int32)
    requires PortsInv(sw) && ForwardsOut(port)
    ensures var r := PassOn(sw, port, srcIp, destIp);
            && PortsInv(r.sw) && r.out.Some? && !r.out.value.ToController? && WritesRelays(r) && SameButRelays(sw, r.sw)
  {
    var ready := LookUp(sw, port);
    assert PortsInv(ready);
  }

  predicate SameButRelays(sw: SwitchState, t: SwitchState) {
    && t.cfg == sw.cfg && t.flowTable == sw.flowTable && t.queried == sw.queried && t.admitted == sw.admitted
    && t.ackReceived == sw.ackReceived && t.addReceived == sw.addReceived && t.exit == sw.exit && t.pipesMade == sw.pipesMade
    && t.counts.open == sw.counts.open && t.counts.query == sw.counts.query && t.counts.ack == sw.counts.ack
  }

  lemma RelayFrame(sw: SwitchState, port: int32, srcIp: int32, destIp: int32)
    requires PortsInv(sw)
    ensures var r := HandleRelay(sw, port, srcIp, destIp);
            && PortsInv(r.sw) && (r.out.Some? ==> !r.out.value.ToController?) && WritesRelays(r) && SameButRelays(sw, r.sw)
  {
    var got := sw.(counts := sw.counts.(relayIn := sw.counts.relayIn + 1));
    var r := HandleRelay(sw, port, srcIp, destIp);
    if sw.cfg.Owns(destIp) || sw.cfg.id == port {
      assert r == Reaction(got, None);
    } else {
      var next := if sw.cfg.id > port then 1 else 2;
      assert r == PassOn(got, next, srcIp, destIp);
      PassOnFrame(got, next, srcIp, destIp);
    }
  }

  lemma RelaySound(sw: SwitchState, cfg: Config, at: Standing, up: seq<Packet>, down: seq<Packet>, port: int32, q: Packet, pipes: set<Pipe>)
    requires SoundNode(sw, cfg, at, up, down) && sw.Running() && q.Relay?
    ensures var r := Receive(sw, port, q, pipes);
            SoundNode(r.sw, cfg, at, Upward(up, r.out), down) && WritesRelays(r)
  {
    RelayFrame(sw, port, q.relaySrc, q.relayDest);
    RelayAccounted(sw, port, q.relaySrc, q.relayDest);
  }

  /** A message from a switch, at most the last field of which was misread. */
  lemma ControllerSound(c: ControllerState, sw: SwitchState, cfg: Config, slot: nat, up: seq<Packet>, down: seq<Packet>, q: Packet)
    requires SoundNode(sw, cfg, StandingOf(c, slot), up, down) && up != [] && SameButLast(up[0], q)
    ensures var a := HandlePacket(c, slot, q);
            && SoundNode(sw, cfg, StandingOf(a.ctl, slot), [], if a.out.Some? then down + [a.out.value] else down)
            && (forall s: nat | s != slot :: StandingOf(a.ctl, s) == StandingOf(c, s))
  {
    assert |up| == 1 && down == [];
    var a := HandlePacket(c, slot, q);
    if a.out.Some? { assert down + [a.out.value] == [a.out.value]; }
  }

  // ---------------------------------------------------------------- every step

  lemma InitSound(cfgs: seq<Config>)
    ensures Sound(Init(cfgs), cfgs)
  {
    forall k: nat | k < |cfgs| ensures SoundAt(Init(cfgs), cfgs, k) { BootAccounted(cfgs[k]); }
  }

  /** Soundness does not depend on the readers or the history. */
  ghost predicate Alike(net: Net, t: Net) {
    && t.sws == net.sws && t.ctl == net.ctl && t.up == net.up && t.down == net.down && t.air == net.air && t.pipes == net.pipes
    && |t.readers| == |net.readers|
  }

  /** A handler of switch `k` matters only through that switch, its uplink and what it writes. */
  lemma ReactSound(net: Net, cfgs: seq<Config>, k: nat, r: Reaction)
    requires Shape(net) && |net.sws| == |cfgs| && k < |cfgs| && AllRelays(net.air) && WritesRelays(r)
    requires forall j: nat | j < |cfgs| && j != k :: SoundAt(net, cfgs, j)
    requires SoundNode(r.sw, cfgs[k], StandingOf(net.ctl, k + 1), Upward(net.up[k], r.out), net.down[k])
    ensures Sound(React(net, k, r), cfgs)
  {
    var t := React(net, k, r);
    ReactRelays(net, k, r);
    forall j: nat | j < |cfgs| ensures SoundAt(t, cfgs, j) {
      assert j != k ==> SoundAt(net, cfgs, j);
    }
  }

  lemma ReactRelays(net: Net, k: nat, r: Reaction)
    requires Shape(net) && k < |net.sws| && AllRelays(net.air) && WritesRelays(r)
    ensures AllRelays(React(net, k, r).air)
  {
  }

  /** The other switches do not see what is taken from the channels of switch `k`. */
  lemma OthersSound(net: Net, cfgs: seq<Config>, k: nat, t: Net)
    requires Sound(net, cfgs) && k < |cfgs| && Shape(t) && t.sws == net.sws
    requires forall s: nat | s != k + 1 :: StandingOf(t.ctl, s) == StandingOf(net.ctl, s)
    requires forall j: nat | j < |cfgs| && j != k :: t.up[j] == net.up[j] && t.down[j] == net.down[j]
    ensures forall j: nat | j < |cfgs| && j != k :: SoundAt(t, cfgs, j)
  {
    forall j: nat | j < |cfgs| && j != k ensures SoundAt(t, cfgs, j) {
      assert SoundAt(net, cfgs, j);
      assert StandingOf(t.ctl, j + 1) == StandingOf(net.ctl, j + 1);
    }
  }

  lemma ControllerHearsSound(net: Net, cfgs: seq<Config>, k: nat, h: Hearing)
    requires Sound(net, cfgs) && k < |cfgs| && net.up[k] != [] && h.packet.Some? && SameButLast(net.up[k][0], h.packet.value)
    ensures Sound(ControllerHears(TakeUp(net, k), k, h), cfgs)
  {
    var t := ControllerHears(TakeUp(net, k), k, h);
    assert SoundAt(net, cfgs, k);
    ControllerSound(net.ctl, net.sws[k], cfgs[k], k + 1, net.up[k], net.down[k], h.packet.value);
    assert SoundAt(t, cfgs, k);
    OthersSound(net, cfgs, k, t);
  }

  lemma SwitchHearsSound(net: Net, cfgs: seq<Config>, k: nat, h: Hearing)
    requires Sound(net, cfgs) && k < |cfgs| && net.sws[k].Running() && net.down[k] != []
    requires h.packet.Some? && SameButLast(net.down[k][0], h.packet.value)
    ensures Sound(SwitchHears(TakeDown(net, k), k, CONTROL, h), cfgs)
  {
    var mid := Heard(TakeDown(net, k), k, h);
    assert SoundAt(net, cfgs, k);
    ControlSound(net.sws[k], cfgs[k], StandingOf(net.ctl, k + 1), net.up[k], net.down[k], CONTROL, h.packet.value, net.pipes);
    OthersSound(net, cfgs, k, mid);
    ReactSound(mid, cfgs, k, Receive(net.sws[k], CONTROL, h.packet.value, net.pipes));
  }

  /** What a FIFO hands over is a RELAY. */
  lemma FirstIsRelay(air: seq<Flight>, src: int32, dst: int32, n: nat)
    requires AllRelays(air) && 0 < n <= |Waiting(air, src, dst)|
    ensures var p := Waiting(air, src, dst)[0]; p.Relay? && Flight(src, dst, p) in air
    ensures AllRelays(Without(air, src, dst, n))
  {
    WaitingFlies(air, src, dst);
    assert Waiting(air, src, dst)[0] in Waiting(air, src, dst);
  }

  lemma RelayHeardSound(net: Net, cfgs: seq<Config>, k: nat, port: int32, n: nat, src: int32, dst: int32, h: Hearing)
    requires Sound(net, cfgs) && k < |cfgs| && net.sws[k].Running() && 0 < n <= |Waiting(net.air, src, dst)|
    requires h.packet.Some? && SameButLast(Waiting(net.air, src, dst)[0], h.packet.value)
    ensures Sound(SwitchHears(TakeRelays(net, src, dst, n), k, port, h), cfgs)
  {
    var mid := Heard(TakeRelays(net, src, dst, n), k, h);
    FirstIsRelay(net.air, src, dst, n);
    assert SoundAt(net, cfgs, k);
    RelaySound(net.sws[k], cfgs[k], StandingOf(net.ctl, k + 1), net.up[k], net.down[k], port, h.packet.value, net.pipes);
    OthersSound(net, cfgs, k, mid);
    ReactSound(mid, cfgs, k, Receive(net.sws[k], port, h.packet.value, net.pipes));
  }

  /** A RELAY is taken for a RELAY. */
  lemma RelayIsRelay(left: string, air: seq<Flight>, src: int32, dst: int32, n: nat)
    requires AllRelays(air) && 0 < n <= |Waiting(air, src, dst)|
    ensures var h := Read(left, Waiting(air, src, dst)[..n]); h.packet.Some? ==> h.packet.value.Relay?
  {
    ReadIs(left, Waiting(air, src, dst)[..n]);
    FirstIsRelay(air, src, dst, n);
  }

  lemma ReadsRelay(net: Net, k: nat, port: int32, n: nat)
    requires Enabled(net, RelayArrives(k, port, n)) && AllRelays(net.air)
    ensures var h := HearingOf(net, RelayArrives(k, port, n)).value; h.packet.Some? ==> h.packet.value.Relay?
  {
    RelayIsRelay(net.readers[k].left, net.air, net.sws[k].cfg.Neighbour(port), net.sws[k].cfg.id, n);
  }

  /** The three steps that read. */
  lemma ReadSound(net: Net, cfgs: seq<Config>, a: Action)
    requires Sound(net, cfgs) && Enabled(net, a) && HearingOf(net, a).Some? && HearingOf(net, a).value.packet.Some?
    ensures Sound(Apply(net, a), cfgs)
  {
    var h := HearingOf(net, a).value;
    match a
    case ControllerReads(k) =>
      ReadIs(net.ctlReader.left, net.up[k]);
      ControllerHearsSound(net, cfgs, k, h);
    case SwitchReads(k) =>
      ReadIs(net.readers[k].left, net.down[k]);
      SwitchHearsSound(net, cfgs, k, h);
    case RelayArrives(k, port, n) =>
      var src, dst := net.sws[k].cfg.Neighbour(port), net.sws[k].cfg.id;
      ReadIs(net.readers[k].left, Waiting(net.air, src, dst)[..n]);
      RelayHeardSound(net, cfgs, k, port, n, src, dst, h);
  }

  lemma SameSound(net: Net, cfgs: seq<Config>, t: Net)
    requires Sound(net, cfgs) && Alike(net, t)
    ensures Sound(t, cfgs)
  {
    forall k: nat | k < |cfgs| ensures SoundAt(t, cfgs, k) { assert SoundAt(net, cfgs, k); }
  }

  lemma StartSound(net: Net, cfgs: seq<Config>, k: nat)
    requires Sound(net, cfgs) && Enabled(net, Start(k))
    ensures Sound(React(net, k, SendOpen(net.sws[k])), cfgs)
  {
    assert SoundAt(net, cfgs, k);
    SameBooks(net.sws[k], SendOpen(net.sws[k]).sw);
    ReactSound(net, cfgs, k, SendOpen(net.sws[k]));
  }

  lemma SetUpSound(net: Net, cfgs: seq<Config>, k: nat)
    requires Sound(net, cfgs) && Enabled(net, SetUpPort(k))
    ensures Sound(Apply(net, SetUpPort(k)), cfgs)
  {
    var t := Apply(net, SetUpPort(k));
    assert SoundAt(net, cfgs, k);
    SameBooks(net.sws[k], MakePipe(net.sws[k]));
    forall j: nat | j < |cfgs| ensures SoundAt(t, cfgs, j) { assert SoundAt(net, cfgs, j); }
  }

  lemma AdmitLineSound(net: Net, cfgs: seq<Config>, k: nat, srcIp: int32, destIp: int32)
    requires Sound(net, cfgs) && Enabled(net, AdmitLine(k, srcIp, destIp))
    ensures Sound(React(net, k, Admit(net.sws[k], srcIp, destIp, net.pipes)), cfgs)
  {
    assert SoundAt(net, cfgs, k);
    AdmitSound(net.sws[k], cfgs[k], StandingOf(net.ctl, k + 1), net.up[k], net.down[k], srcIp, destIp, net.pipes);
    ReactSound(net, cfgs, k, Admit(net.sws[k], srcIp, destIp, net.pipes));
  }

  lemma StepSound(net: Net, cfgs: seq<Config>, a: Action)
    requires Sound(net, cfgs) && Enabled(net, a) && !Apply(net, a).overrun
    ensures Sound(Apply(net, a), cfgs)
  {
    HistoryIs(net, a);
    match a
    case Start(k) => StartSound(net, cfgs, k);
    case SetUpPort(k) => SetUpSound(net, cfgs, k);
    case AdmitLine(k, srcIp, destIp) => AdmitLineSound(net, cfgs, k, srcIp, destIp);
    case ControllerPolls(_) => SameSound(net, cfgs, Apply(net, a));
    case SwitchPolls(_, _) => SameSound(net, cfgs, Apply(net, a));
    case _ => ReadSound(net, cfgs, a);
  }

  lemma {:induction false} RunSound(s: Net, acts: seq<Action>, t: Net, cfgs: seq<Config>)
    requires Sound(s, cfgs) && Run(s, acts, t) && !t.overrun
    ensures Sound(t, cfgs)
    decreases |acts|
  {
    if acts != [] {
      var n := |acts| - 1;
      var m :| Run(s, acts[..n], m) && Step(m, acts[n], t);
      HistoryStays(m, acts[n]);
      RunSound(s, acts[..n], m, cfgs);
      StepSound(m, cfgs, acts[n]);
    }
  }

  lemma ReachableSound(cfgs: seq<Config>, t: Net)
    requires Reachable(cfgs, t) && !t.overrun
    ensures Sound(t, cfgs)
  {
    var acts :| Run(Init(cfgs), acts, t);
    InitSound(cfgs);
    RunSound(Init(cfgs), acts, t, cfgs);
  }
}
