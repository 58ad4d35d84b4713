/** The switch of test2/switch.cpp: the flow-table lookup of the traffic step and the handling of
    ACK, ADD and RELAY, as functions on switch states. */
module Switch {
  import opened Decimal
  import opened Packets

  const MAX_IP: int32 := 1000
  const MIN_PRI: int32 := 4
  const NULL_PORT: int32 := -1

  datatype ActionType = Forward | Drop

  datatype FlowRule = FlowRule(srcIpLow: int32, srcIpHigh: int32, destIpLow: int32, destIpHigh: int32,
                               actionType: ActionType, actionVal: int32, pri: int32, pktCount: nat)
  {
    predicate Matches(destIp: int32) { destIpLow <= destIp <= destIpHigh }

    /** Forwarded out of port 1 or 2, rather than delivered or dropped. */
    predicate Remote() { actionType.Forward? && actionVal != 3 }
  }

  datatype Counts = Counts(admit: nat, ack: nat, add: nat, relayIn: nat, open: nat, query: nat, relayOut: nat)

  datatype Config = Config(id: int32, port1Id: int32, port2Id: int32, ipLow: int32, ipHigh: int32)
  {
    predicate Owns(ip: int32) { ipLow <= ip <= ipHigh }

    /** The switch behind a port; a port that is null, or no port at all, has none. */
    function Neighbour(port: int32): int32 {
      if port == 1 then port1Id else if port == 2 then port2Id else NULL_PORT
    }
  }

  /** What a port number is mapped to once something has been opened or looked up for it.  Reading
      the map at a missing key creates it with descriptor 0. */
  datatype Descriptor = ControllerSocket | Fifo | Zero

  /** The FIFO from switch `src` to switch `dst`, once its reader has created and opened it. */
  datatype Pipe = Pipe(src: int32, dst: int32)

  /** Why the process exited: there was no FIFO to open, behind a null port or because its reader had
      not opened it yet. */
  datatype Exit = OnNullPort | OnMissingReader

  /** The addresses of a traffic line. */
  datatype Header = Header(src: int32, dest: int32)

  datatype SwitchState = SwitchState(
    cfg: Config, flowTable: seq<FlowRule>, counts: Counts, portToFd: map<int32, Descriptor>,
    ackReceived: bool, addReceived: bool,
    pipesMade: nat,        // 1 after port 1 was set up for reading, 2 after port 2, and then the loop begins
    exit: Option<Exit>,
    admitted: seq<Header>, // history: the packets admitted, in order
    queried: seq<int32>,   // history: the destinations queried, in order
    reRelayed: nat)        // history: RELAYs passed on from another switch
  {
    predicate Running() { exit.None? }

    /** A QUERY is waiting for its ADD. */
    function Pending(): nat { if addReceived then 0 else 1 }
  }

  /** A packet written by a handler, by where it goes. */
  datatype Output = ToController(packet: Packet) | ToPort(port: int32, packet: Packet) | ToDescriptorZero(packet: Packet)

  datatype Reaction = Reaction(sw: SwitchState, out: Option<Output>)

  function Boot(cfg: Config): SwitchState {
    SwitchState(cfg, [FlowRule(0, MAX_IP, cfg.ipLow, cfg.ipHigh, Forward, 3, MIN_PRI, 0)],
                Counts(0, 0, 0, 0, 0, 0, 0), map[0 := ControllerSocket], false, true, 0, None, [], [], 0)
  }

  function SendOpen(sw: SwitchState): Reaction {
    Reaction(sw.(counts := sw.counts.(open := sw.counts.open + 1)),
             Some(ToController(Open(sw.cfg.id, sw.cfg.port1Id, sw.cfg.port2Id, sw.cfg.ipLow, sw.cfg.ipHigh))))
  }

  /** The reading FIFOs of ports 1 and 2 are created after the OPEN is sent, one after the other. */
  function MakePipe(sw: SwitchState): SwitchState { sw.(pipesMade := sw.pipesMade + 1) }

  /** ... a null port has none. */
  function PipeMade(sw: SwitchState): set<Pipe> {
    var neighbour := sw.cfg.Neighbour(if sw.pipesMade == 0 then 1 else 2);
    if neighbour == NULL_PORT then {} else {Pipe(neighbour, sw.cfg.id)}
  }

  /** Index of the first rule that matches, or the length of the table. */
  function FirstMatch(table: seq<FlowRule>, destIp: int32): (k: nat)
    ensures k <= |table|
    ensures k < |table| ==> table[k].Matches(destIp)
    ensures forall i | 0 <= i < k :: !table[i].Matches(destIp)
  {
    if table == [] || table[0].Matches(destIp) then 0 else 1 + FirstMatch(table[1..], destIp)
  }

  predicate Covered(table: seq<FlowRule>, destIp: int32) { FirstMatch(table, destIp) < |table| }

  function Write(sw: SwitchState, port: int32, packet: Packet): Option<Output>
    requires port in sw.portToFd
  {
    match sw.portToFd[port]
    case Fifo => Some(ToPort(port, packet))
    case Zero => Some(ToDescriptorZero(packet))
    case ControllerSocket => Some(ToController(packet))
  }

  /** Open the FIFO of `port` for writing unless that was done before; when there is no FIFO, or
      nobody reads it, the process exits.  `pipes` are the FIFOs that have a reader. */
  function OpenPort(sw: SwitchState, port: int32, pipes: set<Pipe>): SwitchState {
    if port in sw.portToFd then sw
    else if sw.cfg.Neighbour(port) == NULL_PORT then sw.(exit := Some(OnNullPort))
    else if Pipe(sw.cfg.id, sw.cfg.Neighbour(port)) !in pipes then sw.(exit := Some(OnMissingReader))
    else sw.(portToFd := sw.portToFd[port := Fifo])
  }

  /** Forward a packet out of `port` and count it. */
  function ForwardOut(sw: SwitchState, port: int32, packet: Packet, pipes: set<Pipe>): Reaction {
    var ready := OpenPort(sw, port, pipes);
    if port !in ready.portToFd then Reaction(ready, None)
    else Reaction(ready.(counts := ready.counts.(relayOut := ready.counts.relayOut + 1)), Write(ready, port, packet))
  }

  /** One more packet is admitted. */
  function WithHeader(sw: SwitchState, h: Header): SwitchState {
    sw.(counts := sw.counts.(admit := sw.counts.admit + 1), admitted := sw.admitted + [h])
  }

  /** A traffic line for this switch. */
  function Admit(sw: SwitchState, srcIp: int32, destIp: int32, pipes: set<Pipe>): Reaction {
    var admitted := WithHeader(sw, Header(srcIp, destIp));
    var k := FirstMatch(sw.flowTable, destIp);
    if k < |sw.flowTable| then
      var rule := sw.flowTable[k];
      var counted := admitted.(flowTable := sw.flowTable[k := rule.(pktCount := rule.pktCount + 1)]);
      if rule.Remote() then ForwardOut(counted, rule.actionVal, Relay(srcIp, destIp), pipes)
      else Reaction(counted, None)
    else
      Reaction(admitted.(addReceived := false, counts := admitted.counts.(query := sw.counts.query + 1),
                         queried := sw.queried + [destIp]),
               Some(ToController(Query(srcIp, destIp))))
  }

  function HandleAck(sw: SwitchState): SwitchState {
    sw.(ackReceived := true, counts := sw.counts.(ack := sw.counts.ack + 1))
  }

  function NewRule(action: int32, low: int32, high: int32, port: int32): FlowRule {
    FlowRule(0, MAX_IP, low, high, if action == 0 then Drop else Forward, port, MIN_PRI, 1)
  }

  function InstallRule(sw: SwitchState, rule: FlowRule): SwitchState {
    sw.(flowTable := sw.flowTable + [rule], counts := sw.counts.(add := sw.counts.add + 1))
  }

  /** An ADD installs a rule; a forwarding rule also relays the waiting packet, with the low end of
      the range in place of its destination.  Any other action is ignored. */
  function HandleAdd(sw: SwitchState, action: int32, low: int32, high: int32, port: int32, srcIp: int32, pipes: set<Pipe>): Reaction {
    var got := sw.(addReceived := true);
    if action == 0 then Reaction(InstallRule(got, NewRule(action, low, high, port)), None)
    else if action == 1 then
      var sent := ForwardOut(got, port, Relay(srcIp, low), pipes);
      if sent.sw.Running() then Reaction(InstallRule(sent.sw, NewRule(action, low, high, port)), sent.out)
      else sent
    else Reaction(got, None)
  }

  /** The map lookup of a re-relay creates a missing entry with descriptor 0. */
  function LookUp(sw: SwitchState, port: int32): SwitchState {
    if port in sw.portToFd then sw else sw.(portToFd := sw.portToFd[port := Zero])
  }

  function PassOn(sw: SwitchState, port: int32, srcIp: int32, destIp: int32): Reaction {
    var ready := LookUp(sw, port);
    Reaction(ready.(counts := ready.counts.(relayOut := ready.counts.relayOut + 1), reRelayed := ready.reRelayed + 1),
             Write(ready, port, Relay(srcIp, destIp)))
  }

  /** A RELAY that came in on `port`.  One that is for another switch is passed on by comparing this
      switch's id with the port it came in on. */
  function HandleRelay(sw: SwitchState, port: int32, srcIp: int32, destIp: int32): Reaction {
    var got := sw.(counts := sw.counts.(relayIn := sw.counts.relayIn + 1));
    if sw.cfg.Owns(destIp) || sw.cfg.id == port then Reaction(got, None)
    else PassOn(got, if sw.cfg.id > port then 1 else 2, srcIp, destIp)
  }

  /** What is written when a RELAY goes to a port that may have been opened or not. */
  function PassedTo(port: int32, srcIp: int32, destIp: int32, portToFd: map<int32, Descriptor>): Output {
    if port in portToFd && portToFd[port].Fifo? then ToPort(port, Relay(srcIp, destIp))
    else if port in portToFd && portToFd[port].ControllerSocket? then ToController(Relay(srcIp, destIp))
    else ToDescriptorZero(Relay(srcIp, destIp))
  }

  /** A RELAY for another switch leaves by port 1 when this switch's id is above the port it came in
      on, by port 2 when it is below, and not at all when they are equal. */
  lemma RelayLeavesBy(sw: SwitchState, port: int32, srcIp: int32, destIp: int32)
    ensures var r := HandleRelay(sw, port, srcIp, destIp);
            && r.sw.counts.relayIn == sw.counts.relayIn + 1
            && (sw.cfg.Owns(destIp) || sw.cfg.id == port ==> r.out == None)
            && (!sw.cfg.Owns(destIp) && sw.cfg.id > port ==> r.out == Some(PassedTo(1, srcIp, destIp, sw.portToFd)))
            && (!sw.cfg.Owns(destIp) && sw.cfg.id < port ==> r.out == Some(PassedTo(2, srcIp, destIp, sw.portToFd)))
  {
  }

  /** A packet that arrived on descriptor `i` is handled by its type. */
  function Receive(sw: SwitchState, i: int32, p: Packet, pipes: set<Pipe>): Reaction {
    match p
    case Ack => Reaction(HandleAck(sw), None)
    case Add(action, low, high, port, srcIp) => HandleAdd(sw, action, low, high, port, srcIp, pipes)
    case Relay(srcIp, destIp) => HandleRelay(sw, i, srcIp, destIp)
    case _ => Reaction(sw, None)
  }

  // ---------------------------------------------------------------- packet accounting

  function SumPackets(table: seq<FlowRule>): nat {
    if table == [] then 0 else SumPackets(table[..|table| - 1]) + table[|table| - 1].pktCount
  }

  function SumRemote(table: seq<FlowRule>): nat {
    if table == [] then 0
    else SumRemote(table[..|table| - 1]) +
         (if table[|table| - 1].Remote() then table[|table| - 1].pktCount else 0)
  }

  /** Every admitted packet is counted by exactly one rule or is waiting for its ADD, and every
      RELAY sent was counted by a remote rule or passed on for another switch. */
  ghost predicate Accounted(sw: SwitchState) {
    && SumPackets(sw.flowTable) + sw.Pending() == sw.counts.admit
    && sw.counts.query == sw.counts.add + sw.Pending()
    && |sw.flowTable| == 1 + sw.counts.add
    && sw.counts.relayOut == SumRemote(sw.flowTable) + sw.reRelayed
  }

  lemma {:induction false} SumsAfterHit(table: seq<FlowRule>, k: nat)
    requires k < |table|
    ensures var t := table[k := table[k].(pktCount := table[k].pktCount + 1)];
            && SumPackets(t) == SumPackets(table) + 1
            && SumRemote(t) == SumRemote(table) + (if table[k].Remote() then 1 else 0)
  {
    var m := |table| - 1;
    var t := table[k := table[k].(pktCount := table[k].pktCount + 1)];
    if k < m {
      assert t[..m] == table[..m][k := table[..m][k].(pktCount := table[..m][k].pktCount + 1)];
      SumsAfterHit(table[..m], k);
    } else {
      assert t[..m] == table[..m];
    }
  }

  lemma BootAccounted(cfg: Config)
    ensures Accounted(Boot(cfg)) && Accounted(SendOpen(Boot(cfg)).sw)
  {
    var table := Boot(cfg).flowTable;
    assert table[..0] == [];
  }

  /** A table hit counts the packet at its rule and changes nothing else that the table depends on. */
  lemma HitFrame(sw: SwitchState, srcIp: int32, destIp: int32, pipes: set<Pipe>)
    requires Covered(sw.flowTable, destIp)
    ensures var t := Admit(sw, srcIp, destIp, pipes).sw; var k := FirstMatch(sw.flowTable, destIp);
            && t.flowTable == sw.flowTable[k := sw.flowTable[k].(pktCount := sw.flowTable[k].pktCount + 1)]
            && t.cfg == sw.cfg && t.queried == sw.queried && t.reRelayed == sw.reRelayed
            && t.admitted == sw.admitted + [Header(srcIp, destIp)]
            && t.ackReceived == sw.ackReceived && t.addReceived == sw.addReceived
            && t.counts.open == sw.counts.open && t.counts.query == sw.counts.query && t.counts.add == sw.counts.add
            && t.counts.ack == sw.counts.ack
            && t.counts.admit == sw.counts.admit + 1
            && (t.Running() && sw.Running() ==>
                  t.counts.relayOut == sw.counts.relayOut + (if sw.flowTable[k].Remote() then 1 else 0))
  {
  }

  /** Forwarding changes nothing but the map of ports, one counter and whether the process runs. */
  lemma ForwardFrame(sw: SwitchState, port: int32, p: Packet, pipes: set<Pipe>)
    ensures var t := ForwardOut(sw, port, p, pipes).sw;
            t == sw.(portToFd := t.portToFd, exit := t.exit, counts := sw.counts.(relayOut := t.counts.relayOut))
  {
  }

  /** An ADD with a known action installs one rule, unless the process exits. */
  lemma AddFrame(sw: SwitchState, action: int32, low: int32, high: int32, port: int32, srcIp: int32, pipes: set<Pipe>)
    requires action == 0 || action == 1
    ensures var t := HandleAdd(sw, action, low, high, port, srcIp, pipes).sw;
            && t.cfg == sw.cfg && t.queried == sw.queried && t.admitted == sw.admitted
            && t.ackReceived == sw.ackReceived && t.addReceived && t.counts.ack == sw.counts.ack
            && t.counts.open == sw.counts.open && t.counts.query == sw.counts.query
            && (t.Running() ==> t.flowTable == sw.flowTable + [NewRule(action, low, high, port)])
  {
    if action == 1 { ForwardFrame(sw.(addReceived := true), port, Relay(srcIp, low), pipes); }
  }

  lemma AdmitAccounted(sw: SwitchState, srcIp: int32, destIp: int32, pipes: set<Pipe>)
    requires Accounted(sw) && sw.addReceived && sw.Running()
    ensures var t := Admit(sw, srcIp, destIp, pipes).sw; t.Running() ==> Accounted(t)
  {
    var k := FirstMatch(sw.flowTable, destIp);
    if Covered(sw.flowTable, destIp) {
      SumsAfterHit(sw.flowTable, k);
      HitFrame(sw, srcIp, destIp, pipes);
    }
  }

  /** The books stay balanced exactly when the ADD carries a known action and does not forward to
      the local port 3. */
  lemma AddAccounted(sw: SwitchState, action: int32, low: int32, high: int32, port: int32, srcIp: int32, pipes: set<Pipe>)
    requires Accounted(sw) && !sw.addReceived && sw.Running()
    ensures var t := HandleAdd(sw, action, low, high, port, srcIp, pipes).sw;
            t.Running() ==> (Accounted(t) <==> action == 0 || (action == 1 && port != 3))
  {
    var t := HandleAdd(sw, action, low, high, port, srcIp, pipes).sw;
    if t.Running() && (action == 0 || action == 1) {
      assert t.flowTable[..|t.flowTable| - 1] == sw.flowTable;
    }
  }

  /** The books depend on the table and the counters, and on RELAYs out less those passed on. */
  lemma SameBooks(sw: SwitchState, t: SwitchState)
    requires Accounted(sw) && t.flowTable == sw.flowTable && t.addReceived == sw.addReceived
    requires t.counts.admit == sw.counts.admit && t.counts.query == sw.counts.query && t.counts.add == sw.counts.add
    requires t.counts.relayOut - t.reRelayed == sw.counts.relayOut - sw.reRelayed
    ensures Accounted(t)
  {
  }

  lemma RelayBooks(sw: SwitchState, port: int32, srcIp: int32, destIp: int32)
    ensures var t := HandleRelay(sw, port, srcIp, destIp).sw;
            && t.flowTable == sw.flowTable && t.addReceived == sw.addReceived
            && t.counts.admit == sw.counts.admit && t.counts.query == sw.counts.query && t.counts.add == sw.counts.add
            && t.counts.relayOut - t.reRelayed == sw.counts.relayOut - sw.reRelayed
  {
  }

  lemma RelayAccounted(sw: SwitchState, port: int32, srcIp: int32, destIp: int32)
    requires Accounted(sw)
    ensures Accounted(HandleRelay(sw, port, srcIp, destIp).sw)
  {
    RelayBooks(sw, port, srcIp, destIp);
    SameBooks(sw, HandleRelay(sw, port, srcIp, destIp).sw);
  }

  // ---------------------------------------------------------------- lookups

  predicate Apart(r: FlowRule, q: FlowRule) { r.destIpHigh < q.destIpLow || q.destIpHigh < r.destIpLow }

  ghost predicate PairwiseApart(table: seq<FlowRule>) {
    forall i, j | 0 <= i < j < |table| :: Apart(table[i], table[j])
  }

  lemma FirstMatchIs(table: seq<FlowRule>, destIp: int32, k: nat)
    requires k <= |table| && (k < |table| ==> table[k].Matches(destIp))
    requires forall i | 0 <= i < k :: !table[i].Matches(destIp)
    ensures FirstMatch(table, destIp) == k
  {
  }

  /** With disjoint rules the first match is the only one, so the order of the table does not matter. */
  lemma OnlyMatch(table: seq<FlowRule>, destIp: int32, k: nat)
    requires PairwiseApart(table) && k < |table| && table[k].Matches(destIp)
    ensures FirstMatch(table, destIp) == k
  {
    var f := FirstMatch(table, destIp);
    assert f < k ==> Apart(table[f], table[k]);
  }
}
