/** Which way packets go: the ports the controller names, null ports, switches in a row, and what
    two neighbours send each other. */
module NetworkChain {
  import opened Decimal
  import opened Packets
  import opened PacketReader
  import opened Switch
  import opened Controller
  import opened Network
  import opened NetworkInvariant
  import opened NetworkResults

  /** Switch m owns the range, and `port` is the one the controller names to switch k for it. */
  predicate NamedFor(cfgs: seq<Config>, k: nat, m: nat, low: int32, high: int32, port: int32) {
    && k < |cfgs| && m < |cfgs| && m != k
    && cfgs[m].ipLow == low && cfgs[m].ipHigh == high
    && port == RelayPort(cfgs[m].id, k + 1)
  }

  lemma ForwardIsNamed(ctl: ControllerState, cfgs: seq<Config>, k: nat, low: int32, high: int32, port: int32)
    requires RegisterInv(ctl, cfgs) && k < |cfgs| && ForwardOk(ctl, k + 1, low, high, port)
    ensures exists m: nat :: NamedFor(cfgs, k, m, low, high, port)
  {
    var j: nat :| Backs(ctl, k + 1, j, low, high, port);
    assert NamedFor(cfgs, k, ctl.slots[j] - 1, low, high, port);
  }

  // ---------------------------------------------------------------- why switches exit

  /** The port named to switch k for the range of switch m leads nowhere. */
  predicate MeetsNull(cfgs: seq<Config>, k: nat, m: nat) {
    && k < |cfgs| && m < |cfgs| && m != k
    && cfgs[k].Neighbour(RelayPort(cfgs[m].id, k + 1)) == NULL_PORT
  }

  ghost predicate NullPortNamed(cfgs: seq<Config>) { exists k: nat, m: nat :: MeetsNull(cfgs, k, m) }

  /** ... or it leads to another switch, which may not have opened the FIFO yet. */
  predicate MeetsReader(cfgs: seq<Config>, k: nat, m: nat) {
    && k < |cfgs| && m < |cfgs| && m != k
    && cfgs[k].Neighbour(RelayPort(cfgs[m].id, k + 1)) != NULL_PORT
    && cfgs[k].Neighbour(RelayPort(cfgs[m].id, k + 1)) != cfgs[k].id
  }

  ghost predicate ReaderNamed(cfgs: seq<Config>) { exists k: nat, m: nat :: MeetsReader(cfgs, k, m) }

  ghost predicate AllRunning(net: Net) { forall k | 0 <= k < |net.sws| :: net.sws[k].Running() }

  /** Some switch has exited for this reason. */
  ghost predicate Exited(net: Net, why: Exit) { exists k :: 0 <= k < |net.sws| && net.sws[k].exit == Some(why) }

  /** Each port that was set up has its FIFO. */
  predicate HasPipes(pipes: set<Pipe>, sw: SwitchState) {
    && (sw.pipesMade >= 1 && sw.cfg.port1Id != NULL_PORT ==> Pipe(sw.cfg.port1Id, sw.cfg.id) in pipes)
    && (sw.pipesMade >= 2 && sw.cfg.port2Id != NULL_PORT ==> Pipe(sw.cfg.port2Id, sw.cfg.id) in pipes)
  }

  /** A switch has exited only for a reason that the ports give. */
  ghost predicate ExplainedExit(cfgs: seq<Config>, exit: Option<Exit>) {
    match exit
    case None => true
    case Some(OnNullPort) => NullPortNamed(cfgs)
    case Some(OnMissingReader) => ReaderNamed(cfgs)
  }

  ghost predicate ExitsInv(net: Net, cfgs: seq<Config>) {
    && (forall k | 0 <= k < |net.sws| :: HasPipes(net.pipes, net.sws[k]))
    && (forall k | 0 <= k < |net.sws| :: ExplainedExit(cfgs, net.sws[k].exit))
  }

  /** A switch in its loop that forwards as it was told exits for such a reason, if it does. */
  lemma ForwardExplained(sw: SwitchState, cfgs: seq<Config>, k: nat, m: nat, low: int32, high: int32, port: int32,
                         p: Packet, pipes: set<Pipe>)
    requires NamedFor(cfgs, k, m, low, high, port) && sw.cfg == cfgs[k] && sw.Running() && sw.pipesMade == 2
    requires HasPipes(pipes, sw)
    ensures ExplainedExit(cfgs, ForwardOut(sw, port, p, pipes).sw.exit)
  {
    if cfgs[k].Neighbour(port) == NULL_PORT {
      assert MeetsNull(cfgs, k, m);
    } else if cfgs[k].Neighbour(port) != cfgs[k].id {
      assert MeetsReader(cfgs, k, m);
    }
  }

  /** What forwarding can make of a switch, whichever rule or ADD told it to. */
  lemma AdmitForwards(net: Net, cfgs: seq<Config>, k: nat, srcIp: int32, destIp: int32)
      returns (m: nat, rule: FlowRule, counted: SwitchState)
    requires Inv(net, cfgs) && Enabled(net, AdmitLine(k, srcIp, destIp))
    ensures counted.cfg == cfgs[k] && counted.Running() && counted.pipesMade == 2 && counted.portToFd == net.sws[k].portToFd
    ensures var r := Admit(net.sws[k], srcIp, destIp, net.pipes);
            || (r.sw.Running() && r.sw.portToFd == counted.portToFd && (r.out.Some? ==> r.out.value.ToController?))
            || (&& NamedFor(cfgs, k, m, rule.destIpLow, rule.destIpHigh, rule.actionVal) && rule.Matches(destIp)
                && net.ctl.counts.query > 0
                && r == ForwardOut(counted, rule.actionVal, Relay(srcIp, destIp), net.pipes))
    ensures counted.reRelayed == net.sws[k].reRelayed
    ensures Admit(net.sws[k], srcIp, destIp, net.pipes).sw.reRelayed == net.sws[k].reRelayed
  {
    assert SoundAt(net, cfgs, k) && NodeAt(net, k);
    var sw := net.sws[k];
    var f := FirstMatch(sw.flowTable, destIp);
    m, rule, counted := 0, sw.flowTable[0], sw;
    if f < |sw.flowTable| {
      rule := sw.flowTable[f];
      counted := WithHeader(sw, Header(srcIp, destIp)).(
                   flowTable := sw.flowTable[f := rule.(pktCount := rule.pktCount + 1)]);
      if rule.Remote() {
        assert RuleOk(net.ctl, k + 1, rule);
        ForwardIsNamed(net.ctl, cfgs, k, rule.destIpLow, rule.destIpHigh, rule.actionVal);
        m :| NamedFor(cfgs, k, m, rule.destIpLow, rule.destIpHigh, rule.actionVal);
      }
    }
  }

  lemma AddForwards(net: Net, cfgs: seq<Config>, k: nat, q: Packet) returns (m: nat)
    requires Inv(net, cfgs) && k < |cfgs| && net.sws[k].Running() && net.down[k] != [] && SameButLast(net.down[k][0], q)
    ensures net.sws[k].cfg == cfgs[k]
    ensures q.Add? && q.action == 1 ==>
              NamedFor(cfgs, k, m, q.addLow, q.addHigh, q.relayPort) && net.ctl.counts.query > 0 && q.addLow <= q.addHigh
    ensures q.Ack? || (q.Add? && (q.action == 0 || q.action == 1))
  {
    assert SoundAt(net, cfgs, k) && NodeAt(net, k);
    m := 0;
    if q.Add? && q.action == 1 {
      AnswerButLast(net.ctl, k + 1, net.sws[k].queried[|net.sws[k].queried| - 1], net.down[k][0], q);
      ForwardIsNamed(net.ctl, cfgs, k, q.addLow, q.addHigh, q.relayPort);
      m :| NamedFor(cfgs, k, m, q.addLow, q.addHigh, q.relayPort);
    }
  }

  lemma OutcomeExplained(net: Net, cfgs: seq<Config>, a: Action, q: Packet)
    requires Inv(net, cfgs) && ExitsInv(net, cfgs) && Enabled(net, a) && !a.ControllerPolls? && Fits(net, a, q)
    ensures ExplainedExit(cfgs, Outcome(net, a, q).exit)
  {
    match a
    case AdmitLine(k, srcIp, destIp) => AdmitExplained(net, cfgs, k, srcIp, destIp);
    case SwitchReads(k) => ControlExplained(net, cfgs, k, q);
    case RelayArrives(k, port, n) => RelayKeepsTable(net, cfgs, k, port, q);
    case _ =>
  }

  lemma AdmitExplained(net: Net, cfgs: seq<Config>, k: nat, srcIp: int32, destIp: int32)
    requires Inv(net, cfgs) && ExitsInv(net, cfgs) && Enabled(net, AdmitLine(k, srcIp, destIp))
    ensures ExplainedExit(cfgs, Admit(net.sws[k], srcIp, destIp, net.pipes).sw.exit)
  {
    var m, rule, counted := AdmitForwards(net, cfgs, k, srcIp, destIp);
    if !Admit(net.sws[k], srcIp, destIp, net.pipes).sw.Running() {
      ForwardExplained(counted, cfgs, k, m, rule.destIpLow, rule.destIpHigh, rule.actionVal, Relay(srcIp, destIp), net.pipes);
    }
  }

  lemma ControlExplained(net: Net, cfgs: seq<Config>, k: nat, q: Packet)
    requires Inv(net, cfgs) && ExitsInv(net, cfgs) && k < |cfgs| && net.sws[k].Running() && net.sws[k].pipesMade == 2
    requires net.down[k] != [] && SameButLast(net.down[k][0], q)
    ensures ExplainedExit(cfgs, Receive(net.sws[k], CONTROL, q, net.pipes).sw.exit)
  {
    var m := AddForwards(net, cfgs, k, q);
    if q.Add? && q.action == 1 {
      ForwardExplained(net.sws[k].(addReceived := true), cfgs, k, m, q.addLow, q.addHigh, q.relayPort,
                       Relay(q.addSrc, q.addLow), net.pipes);
    }
  }

  /** A step keeps the configuration and the ports that were set up, or sets up one more. */
  lemma OutcomePipes(net: Net, cfgs: seq<Config>, a: Action, q: Packet)
    requires Sound(net, cfgs) && Enabled(net, a) && !a.ControllerPolls? && Fits(net, a, q)
    ensures Outcome(net, a, q).cfg == net.sws[a.k].cfg
    ensures Outcome(net, a, q).pipesMade == net.sws[a.k].pipesMade + (if a.SetUpPort? then 1 else 0)
  {
    if a.RelayArrives? { RelayKeepsTable(net, cfgs, a.k, a.port, q); }
  }

  lemma StepKeepsExits(net: Net, cfgs: seq<Config>, a: Action)
    requires Inv(net, cfgs) && ExitsInv(net, cfgs) && Enabled(net, a) && !Apply(net, a).overrun
    ensures ExitsInv(Apply(net, a), cfgs)
  {
    var q := HeardFits(net, a);
    var t := Apply(net, a);
    StepChanges(net, a, q);
    assert t.pipes == if a.SetUpPort? then net.pipes + PipeMade(net.sws[a.k]) else net.pipes;
    if !a.ControllerPolls? {
      OutcomeExplained(net, cfgs, a, q);
      OutcomePipes(net, cfgs, a, q);
    }
    forall k | 0 <= k < |t.sws| ensures HasPipes(t.pipes, t.sws[k]) { assert HasPipes(net.pipes, net.sws[k]); }
    forall k | 0 <= k < |t.sws| ensures ExplainedExit(cfgs, t.sws[k].exit) {
      assert k != SwitchOf(a) ==> t.sws[k] == net.sws[k];
    }
  }

  lemma {:induction false} RunKeepsExits(s: Net, acts: seq<Action>, t: Net, cfgs: seq<Config>)
    requires Inv(s, cfgs) && ExitsInv(s, cfgs) && Run(s, acts, t) && !t.misread && !t.overrun
    ensures ExitsInv(t, cfgs)
    decreases |acts|
  {
    if acts != [] {
      var n := |acts| - 1;
      var m :| Run(s, acts[..n], m) && Step(m, acts[n], t);
      HistoryStays(m, acts[n]);
      RunKeepsInv(s, acts[..n], m, cfgs);
      RunKeepsExits(s, acts[..n], m, cfgs);
      StepKeepsExits(m, cfgs, acts[n]);
    }
  }

  /** A switch exits on a null port only when one can be named, and for want of a reader only when
      a port can be named that leads to another switch. */
  lemma ReachableExits(cfgs: seq<Config>, t: Net)
    requires CleanlyReachable(cfgs, t)
    ensures ExitsInv(t, cfgs)
  {
    var acts :| Run(Init(cfgs), acts, t);
    InitInv(cfgs);
    RunKeepsExits(Init(cfgs), acts, t, cfgs);
  }

  // ---------------------------------------------------------------- switches in a row

  ghost predicate HasId(cfgs: seq<Config>, id: int) { exists k: nat :: k < |cfgs| && cfgs[k].id == id }

  /** Switches 1..n in a row, connected to the controller's slots in any order. */
  ghost predicate Row(cfgs: seq<Config>) {
    && (forall k | 0 <= k < |cfgs| ::
          && ValidConfig(cfgs[k]) && 1 <= cfgs[k].id <= |cfgs|
          && cfgs[k].port1Id == (if cfgs[k].id == 1 then NULL_PORT else cfgs[k].id - 1)
          && cfgs[k].port2Id == (if cfgs[k].id == |cfgs| then NULL_PORT else cfgs[k].id + 1))
    && (forall j, k | 0 <= j < k < |cfgs| :: cfgs[j].id != cfgs[k].id)
    && (forall id | 1 <= id <= |cfgs| :: HasId(cfgs, id))
  }

  predicate InOrder(cfgs: seq<Config>) { forall k | 0 <= k < |cfgs| :: cfgs[k].id == k + 1 }

  /** ... each on the slot of its own number. */
  ghost predicate LinearChain(cfgs: seq<Config>) { Row(cfgs) && InOrder(cfgs) }

  /** Only the ends of the row have a null port.  One of them is named when switch 1 is not on slot 1,
      and then it is for switch 2 or one that is on no higher a slot; and when switch n is below slot n - 1. */
  lemma NullPortInRow(cfgs: seq<Config>, first: nat, last: nat)
    requires Row(cfgs) && first < |cfgs| && last < |cfgs| && cfgs[first].id == 1 && cfgs[last].id == |cfgs|
    ensures NullPortNamed(cfgs) <==> first != 0 || last + 2 < |cfgs|
  {
    var n := |cfgs|;
    if first != 0 {
      assert HasId(cfgs, 2);
      var m: nat :| m < n && cfgs[m].id == 2;
      assert MeetsNull(cfgs, first, m);
    }
    if last + 2 < n {
      assert HasId(cfgs, n - 1);
      var m: nat :| m < n && cfgs[m].id == n - 1;
      assert MeetsNull(cfgs, last, m);
    }
    if k: nat, m: nat :| MeetsNull(cfgs, k, m) {
      assert cfgs[k].id == 1 ==> k == first;
      assert cfgs[k].id == n ==> k == last;
      assert cfgs[m].id != cfgs[k].id;
    }
  }

  /** In order, the port named for a range leads to the neighbour on the side of its owner. */
  ghost predicate PointsTo(cfgs: seq<Config>, k: nat, m: nat, low: int32, high: int32, port: int32) {
    && k < |cfgs| && m < |cfgs| && m != k
    && cfgs[m].ipLow == low && cfgs[m].ipHigh == high
    && port == (if cfgs[m].id > cfgs[k].id then 2 else 1)
    && cfgs[k].Neighbour(port) == (if cfgs[m].id > cfgs[k].id then cfgs[k].id + 1 else cfgs[k].id - 1)
  }

  ghost predicate Points(cfgs: seq<Config>, k: nat, low: int32, high: int32, port: int32) {
    exists m: nat :: PointsTo(cfgs, k, m, low, high, port)
  }

  lemma ForwardPoints(ctl: ControllerState, cfgs: seq<Config>, k: nat, low: int32, high: int32, port: int32)
    requires RegisterInv(ctl, cfgs) && LinearChain(cfgs) && k < |cfgs| && ForwardOk(ctl, k + 1, low, high, port)
    ensures Points(cfgs, k, low, high, port)
  {
    ForwardIsNamed(ctl, cfgs, k, low, high, port);
    var m: nat :| NamedFor(cfgs, k, m, low, high, port);
    assert PointsTo(cfgs, k, m, low, high, port);
  }

  /** Every forwarding rule of switch k that came from the controller points to its owner. */
  ghost predicate RulesPoint(cfgs: seq<Config>, sw: SwitchState, k: nat) {
    forall r | 0 < r < |sw.flowTable| && sw.flowTable[r].actionType.Forward? :: RulePoints(cfgs, k, sw.flowTable[r])
  }

  ghost predicate RulePoints(cfgs: seq<Config>, k: nat, rule: FlowRule) {
    Points(cfgs, k, rule.destIpLow, rule.destIpHigh, rule.actionVal)
  }

  ghost predicate AddPoints(cfgs: seq<Config>, k: nat, p: Packet) {
    p.Add? && p.action == 1 ==> Points(cfgs, k, p.addLow, p.addHigh, p.relayPort)
  }

  /** Every ADD on its way points to the owner. */
  ghost predicate AnswersPoint(cfgs: seq<Config>, t: Net) {
    forall k: nat, i: nat | k < |t.down| && i < |t.down[k]| :: AddPoints(cfgs, k, t.down[k][i])
  }

  /** No switch has exited on a null port, and every rule of a running switch points to the owner. */
  ghost predicate WellDirected(cfgs: seq<Config>, t: Net) {
    !Exited(t, OnNullPort) && forall k: nat | k < |t.sws| && t.sws[k].Running() :: RulesPoint(cfgs, t.sws[k], k)
  }

  lemma ChainNamesNoNullPort(cfgs: seq<Config>)
    requires LinearChain(cfgs)
    ensures !NullPortNamed(cfgs)
  {
    if cfgs != [] { NullPortInRow(cfgs, 0, |cfgs| - 1); }
  }

  lemma TablePoints(sw: SwitchState, cfgs: seq<Config>, k: nat, ctl: ControllerState)
    requires RegisterInv(ctl, cfgs) && LinearChain(cfgs) && k < |cfgs| && TableInv(sw, k + 1, ctl)
    ensures RulesPoint(cfgs, sw, k)
  {
    forall r | 0 < r < |sw.flowTable| && sw.flowTable[r].actionType.Forward?
      ensures RulePoints(cfgs, k, sw.flowTable[r])
    {
      var rule := sw.flowTable[r];
      assert RuleOk(ctl, k + 1, rule);
      ForwardPoints(ctl, cfgs, k, rule.destIpLow, rule.destIpHigh, rule.actionVal);
    }
  }

  /** In order, no switch ever runs into a null port, and every forwarding rule, like every ADD on
      its way, sends packets out of an existing port towards the switch that owns the range. */
  lemma DirectionCorrect(cfgs: seq<Config>, t: Net)
    requires CleanlyReachable(cfgs, t) && LinearChain(cfgs)
    ensures WellDirected(cfgs, t) && AnswersPoint(cfgs, t)
  {
    ChainNamesNoNullPort(cfgs);
    ReachableExits(cfgs, t);
    ReachableInv(cfgs, t);
    forall k: nat | k < |t.sws| && t.sws[k].Running() ensures RulesPoint(cfgs, t.sws[k], k) {
      assert SoundAt(t, cfgs, k) && NodeAt(t, k);
      TablePoints(t.sws[k], cfgs, k, t.ctl);
    }
    forall k: nat, i: nat | k < |t.down| && i < |t.down[k]| ensures AddPoints(cfgs, k, t.down[k][i]) {
      AnswerPoints(cfgs, t, k, i);
    }
  }

  lemma AnswerPoints(cfgs: seq<Config>, t: Net, k: nat, i: nat)
    requires Inv(t, cfgs) && LinearChain(cfgs) && k < |t.down| && i < |t.down[k]|
    ensures AddPoints(cfgs, k, t.down[k][i])
  {
    assert SoundAt(t, cfgs, k) && NodeAt(t, k);
    var p := t.down[k][i];
    if p.Add? && p.action == 1 { ForwardPoints(t.ctl, cfgs, k, p.addLow, p.addHigh, p.relayPort); }
  }

  // ---------------------------------------------------------------- when all have set up their ports first

  /** Once a QUERY was handled, all switches are in their loops, unless that was hasty. */
  predicate SetUpInv(net: Net) { !net.hasty && net.ctl.counts.query > 0 ==> AllSetUp(net) }

  /** With all ports set up, each port of a row has its FIFO. */
  lemma PipeThere(net: Net, cfgs: seq<Config>, k: nat, port: int32)
    requires Row(cfgs) && Sound(net, cfgs) && AllSetUp(net) && k < |cfgs| && ForwardsOut(port)
    requires forall j | 0 <= j < |net.sws| :: HasPipes(net.pipes, net.sws[j])
    requires cfgs[k].Neighbour(port) != NULL_PORT
    ensures Pipe(cfgs[k].id, cfgs[k].Neighbour(port)) in net.pipes
  {
    assert HasId(cfgs, cfgs[k].Neighbour(port));
    var j: nat :| j < |cfgs| && cfgs[j].id == cfgs[k].Neighbour(port);
    assert SoundAt(net, cfgs, j);
    assert HasPipes(net.pipes, net.sws[j]) && net.sws[j].cfg == cfgs[j] && net.sws[j].pipesMade == 2;
  }

  /** Towards a port that exists and has its FIFO, forwarding does not end the process. */
  lemma ForwardRuns(net: Net, cfgs: seq<Config>, k: nat, m: nat, sw: SwitchState, low: int32, high: int32, port: int32, p: Packet)
    requires LinearChain(cfgs) && Sound(net, cfgs) && ExitsInv(net, cfgs) && AllSetUp(net)
    requires NamedFor(cfgs, k, m, low, high, port) && sw.cfg == cfgs[k] && sw.Running()
    ensures ForwardOut(sw, port, p, net.pipes).sw.Running()
  {
    ChainNamesNoNullPort(cfgs);
    assert !MeetsNull(cfgs, k, m);
    PipeThere(net, cfgs, k, port);
  }

  lemma OutcomeRuns(net: Net, cfgs: seq<Config>, a: Action, q: Packet)
    requires Inv(net, cfgs) && ExitsInv(net, cfgs) && LinearChain(cfgs) && SetUpInv(net) && !net.hasty
    requires Enabled(net, a) && !a.ControllerPolls? && Fits(net, a, q) && net.sws[a.k].Running()
    ensures Outcome(net, a, q).Running()
  {
    match a
    case AdmitLine(k, srcIp, destIp) =>
      var m, rule, counted := AdmitForwards(net, cfgs, k, srcIp, destIp);
      if !Admit(net.sws[k], srcIp, destIp, net.pipes).sw.Running() {
        ForwardRuns(net, cfgs, k, m, counted, rule.destIpLow, rule.destIpHigh, rule.actionVal, Relay(srcIp, destIp));
      }
    case SwitchReads(k) =>
      var m := AddForwards(net, cfgs, k, q);
      if q.Add? && q.action == 1 {
        ForwardRuns(net, cfgs, k, m, net.sws[k].(addReceived := true), q.addLow, q.addHigh, q.relayPort, Relay(q.addSrc, q.addLow));
      }
    case RelayArrives(k, port, n) => RelayKeepsTable(net, cfgs, k, port, q);
    case _ =>
  }

  lemma StepKeepsSetUp(net: Net, cfgs: seq<Config>, a: Action)
    requires Sound(net, cfgs) && SetUpInv(net) && Enabled(net, a) && !Apply(net, a).overrun
    ensures SetUpInv(Apply(net, a))
  {
    var q := HeardFits(net, a);
    StepChanges(net, a, q);
    HistoryIs(net, a);
    if !a.ControllerPolls? { OutcomePipes(net, cfgs, a, q); }
    if a.ControllerReads? { QueryIsSetUp(TakeUp(net, a.k), a.k, HearingOf(net, a).value); }
    if AllSetUp(net) { ChangesSetUp(net, a, q, Apply(net, a)); }
  }

  /** No step undoes the ports that are set up. */
  lemma ChangesSetUp(net: Net, a: Action, q: Packet, t: Net)
    requires Enabled(net, a) && Changes(net, a, q, t) && AllSetUp(net)
    requires !a.ControllerPolls? ==> Outcome(net, a, q).pipesMade >= net.sws[a.k].pipesMade
    requires !a.ControllerPolls? ==> Outcome(net, a, q).pipesMade <= 2
    ensures AllSetUp(t)
  {
    assert forall k | 0 <= k < |net.sws| && k != SwitchOf(a) :: t.sws[k] == net.sws[k];
  }

  lemma QueryIsSetUp(net: Net, k: nat, h: Hearing)
    requires Shape(net) && k < |net.sws| && SetUpInv(net)
    ensures SetUpInv(ControllerHears(net, k, h))
  {
  }

  lemma StepRuns(net: Net, cfgs: seq<Config>, a: Action)
    requires Inv(net, cfgs) && ExitsInv(net, cfgs) && LinearChain(cfgs) && SetUpInv(net) && !net.hasty && AllRunning(net)
    requires Enabled(net, a) && !Apply(net, a).overrun
    ensures AllRunning(Apply(net, a))
  {
    var q := HeardFits(net, a);
    StepChanges(net, a, q);
    if !a.ControllerPolls? { OutcomeRuns(net, cfgs, a, q); }
    ChangesRun(net, a, q, Apply(net, a));
  }

  lemma ChangesRun(net: Net, a: Action, q: Packet, t: Net)
    requires Enabled(net, a) && Changes(net, a, q, t) && AllRunning(net)
    requires !a.ControllerPolls? ==> Outcome(net, a, q).Running()
    ensures AllRunning(t)
  {
    assert forall k | 0 <= k < |net.sws| && k != SwitchOf(a) :: t.sws[k] == net.sws[k];
  }

  lemma {:induction false} RunRuns(s: Net, acts: seq<Action>, t: Net, cfgs: seq<Config>)
    requires Inv(s, cfgs) && ExitsInv(s, cfgs) && LinearChain(cfgs) && SetUpInv(s) && AllRunning(s)
    requires Run(s, acts, t) && !t.misread && !t.overrun && !t.hasty
    ensures AllRunning(t) && SetUpInv(t)
    decreases |acts|
  {
    if acts != [] {
      var n := |acts| - 1;
      var m :| Run(s, acts[..n], m) && Step(m, acts[n], t);
      HistoryStays(m, acts[n]);
      RunKeepsInv(s, acts[..n], m, cfgs);
      RunKeepsExits(s, acts[..n], m, cfgs);
      RunRuns(s, acts[..n], m, cfgs);
      StepRuns(m, cfgs, acts[n]);
      StepKeepsSetUp(m, cfgs, acts[n]);
    }
  }

  /** In order, and when all switches have set up their ports before the first QUERY is handled, no
      switch exits at all. */
  lemma NobodyExits(cfgs: seq<Config>, t: Net)
    requires CleanlyReachable(cfgs, t) && LinearChain(cfgs) && !t.hasty
    ensures AllRunning(t)
  {
    var acts :| Run(Init(cfgs), acts, t);
    InitInv(cfgs);
    RunRuns(Init(cfgs), acts, t, cfgs);
  }

  // ---------------------------------------------------------------- the wrong order

  /** On any other order, some switch is named the wrong port for some range: the one on the highest
      slot that is not its own, for the range of the switch that belongs there. */
  lemma WrongPortNamed(cfgs: seq<Config>) returns (k: nat, m: nat)
    requires Row(cfgs) && DisjointRanges(cfgs) && !InOrder(cfgs)
    ensures k < |cfgs| && m < |cfgs| && k != m
    ensures !Points(cfgs, k, cfgs[m].ipLow, cfgs[m].ipHigh, RelayPort(cfgs[m].id, k + 1))
  {
    k := HighestOutOfPlace(cfgs, |cfgs|);
    assert HasId(cfgs, k + 1);
    m :| m < |cfgs| && cfgs[m].id == k + 1;
    LowerThanSlot(cfgs, k);
    var low, high, port := cfgs[m].ipLow, cfgs[m].ipHigh, RelayPort(cfgs[m].id, k + 1);
    forall j: nat ensures !PointsTo(cfgs, k, j, low, high, port) {
      if j < |cfgs| && j != m {
        assert if j < m then RangesApart(cfgs[j], cfgs[m]) else RangesApart(cfgs[m], cfgs[j]);
      }
    }
  }

  lemma {:induction false} HighestOutOfPlace(cfgs: seq<Config>, n: nat) returns (k: nat)
    requires n <= |cfgs| && !InOrder(cfgs) && forall j | n <= j < |cfgs| :: cfgs[j].id == j + 1
    ensures k < |cfgs| && cfgs[k].id != k + 1 && forall j | k < j < |cfgs| :: cfgs[j].id == j + 1
  {
    if cfgs[n - 1].id != n {
      k := n - 1;
    } else {
      k := HighestOutOfPlace(cfgs, n - 1);
    }
  }

  lemma LowerThanSlot(cfgs: seq<Config>, k: nat)
    requires Row(cfgs) && k < |cfgs| && cfgs[k].id != k + 1 && forall j | k < j < |cfgs| :: cfgs[j].id == j + 1
    ensures cfgs[k].id < k + 1
  {
    var id := cfgs[k].id;
    var there := cfgs[id - 1];
    assert id > k + 1 ==> there.id == id;
  }

  // ---------------------------------------------------------------- one or two switches

  /** A RELAY from one switch to the other, for an address the receiver owns. */
  predicate FlightOk(cfgs: seq<Config>, fl: Flight)
  {
    && fl.packet.Relay?
    && 1 <= fl.dst <= |cfgs| <= 2 && fl.src == 3 - fl.dst
    && cfgs[fl.dst - 1].Owns(fl.packet.relayDest)
  }

  predicate Quiet(sw: SwitchState) {
    sw.reRelayed == 0 && forall p | p in sw.portToFd :: !sw.portToFd[p].Zero?
  }

  /** A FIFO is the first descriptor read in its pass. */
  predicate FifoFirst(r: Reader) {
    && (r.ready != [] && IsFifo(r.ready[0]) ==> r.left == "")
    && (forall i | 0 < i < |r.ready| :: !IsFifo(r.ready[i]))
  }

  predicate IsFifo(i: int) { i == 1 || i == 2 }

  ghost predicate TwoInv(net: Net, cfgs: seq<Config>)
  {
    && net.lost == 0
    && (forall k | 0 <= k < |net.sws| :: Quiet(net.sws[k]))
    && (forall k | 0 <= k < |net.readers| :: FifoFirst(net.readers[k]))
    && (forall f | f in net.air :: FlightOk(cfgs, f))
  }

  /** What a reaction writes to a FIFO is for the other switch. */
  ghost predicate WritesOk(cfgs: seq<Config>, r: Reaction)
  {
    && Quiet(r.sw)
    && (r.out.Some? ==> !r.out.value.ToDescriptorZero?)
    && (r.out.Some? && r.out.value.ToPort? ==>
          FlightOk(cfgs, Flight(r.sw.cfg.id, r.sw.cfg.Neighbour(r.out.value.port), r.out.value.packet)))
  }

  /** Forwarding out of a port towards the owner of the destination. */
  lemma ForwardWrites(sw: SwitchState, cfgs: seq<Config>, k: nat, m: nat, low: int32, high: int32, port: int32,
                      srcIp: int32, destIp: int32, pipes: set<Pipe>)
    requires LinearChain(cfgs) && |cfgs| <= 2 && NamedFor(cfgs, k, m, low, high, port) && sw.cfg == cfgs[k]
    requires Quiet(sw) && PortsInv(sw) && low <= destIp <= high
    ensures WritesOk(cfgs, ForwardOut(sw, port, Relay(srcIp, destIp), pipes))
  {
  }

  lemma AdmitWrites(net: Net, cfgs: seq<Config>, k: nat, srcIp: int32, destIp: int32)
    requires |cfgs| <= 2 && Inv(net, cfgs) && LinearChain(cfgs) && TwoInv(net, cfgs)
    requires Enabled(net, AdmitLine(k, srcIp, destIp))
    ensures WritesOk(cfgs, Admit(net.sws[k], srcIp, destIp, net.pipes))
  {
    var m, rule, counted := AdmitForwards(net, cfgs, k, srcIp, destIp);
    assert PortsInv(net.sws[k]) by { assert SoundAt(net, cfgs, k); }
    assert Quiet(net.sws[k]);
    if NamedFor(cfgs, k, m, rule.destIpLow, rule.destIpHigh, rule.actionVal) && rule.Matches(destIp) {
      ForwardWrites(counted, cfgs, k, m, rule.destIpLow, rule.destIpHigh, rule.actionVal, srcIp, destIp, net.pipes);
    }
  }

  lemma ControlWrites(net: Net, cfgs: seq<Config>, k: nat, q: Packet)
    requires |cfgs| <= 2 && Inv(net, cfgs) && LinearChain(cfgs) && TwoInv(net, cfgs)
    requires k < |cfgs| && net.sws[k].Running() && net.down[k] != [] && SameButLast(net.down[k][0], q)
    ensures WritesOk(cfgs, Receive(net.sws[k], CONTROL, q, net.pipes))
  {
    var m := AddForwards(net, cfgs, k, q);
    assert PortsInv(net.sws[k]) by { assert SoundAt(net, cfgs, k); }
    assert Quiet(net.sws[k]);
    if q.Add? && q.action == 1 {
      ForwardWrites(net.sws[k].(addReceived := true), cfgs, k, m, q.addLow, q.addHigh, q.relayPort, q.addSrc, q.addLow, net.pipes);
    }
  }

  lemma ReactKeepsTwo(net: Net, cfgs: seq<Config>, k: nat, r: Reaction)
    requires Shape(net) && k < |net.sws| && TwoInv(net, cfgs) && WritesOk(cfgs, r)
    ensures TwoInv(React(net, k, r), cfgs)
  {
  }

  lemma ReadKeepsFirst(r: Reader, left: string)
    requires FifoFirst(r)
    ensures FifoFirst(After(r, left))
  {
    var t := After(r, left);
    forall i | 0 <= i < |t.ready| ensures !IsFifo(t.ready[i]) { assert t.ready[i] == r.ready[i + 1]; }
  }

  /** A switch with one neighbour reads one FIFO, and reads it before the controller's socket. */
  lemma PollsFifoFirst(net: Net, cfgs: seq<Config>, k: nat, ready: seq<int>)
    requires |cfgs| <= 2 && LinearChain(cfgs) && Sound(net, cfgs) && Enabled(net, SwitchPolls(k, ready))
    ensures FifoFirst(Reader("", ready))
  {
    assert SoundAt(net, cfgs, k);
    forall i | 0 < i < |ready| ensures !IsFifo(ready[i]) {
      assert ready[i] in ready && Readable(net, k, ready[i]);
      assert ready[0] in ready && Readable(net, k, ready[0]) && ready[0] < ready[i];
    }
  }

  lemma HeardKeepsTwo(net: Net, cfgs: seq<Config>, k: nat, h: Hearing)
    requires Shape(net) && k < |net.sws| && TwoInv(net, cfgs)
    ensures TwoInv(Heard(net, k, h), cfgs)
  {
    ReadKeepsFirst(net.readers[k], h.left);
  }

  lemma SwitchHearsKeepsTwo(net: Net, cfgs: seq<Config>, k: nat, h: Hearing)
    requires |cfgs| <= 2 && Inv(net, cfgs) && LinearChain(cfgs) && TwoInv(net, cfgs)
    requires k < |cfgs| && net.sws[k].Running() && net.down[k] != [] && h.packet.Some? && SameButLast(net.down[k][0], h.packet.value)
    ensures TwoInv(SwitchHears(TakeDown(net, k), k, CONTROL, h), cfgs)
  {
    ControlWrites(net, cfgs, k, h.packet.value);
    HeardKeepsTwo(TakeDown(net, k), cfgs, k, h);
    ReactKeepsTwo(Heard(TakeDown(net, k), k, h), cfgs, k, Receive(net.sws[k], CONTROL, h.packet.value, net.pipes));
  }

  lemma SwitchReadsKeepsTwo(net: Net, cfgs: seq<Config>, k: nat)
    requires |cfgs| <= 2 && Inv(net, cfgs) && LinearChain(cfgs) && TwoInv(net, cfgs)
    requires Enabled(net, SwitchReads(k)) && !Apply(net, SwitchReads(k)).overrun
    ensures TwoInv(Apply(net, SwitchReads(k)), cfgs)
  {
    HistoryIs(net, SwitchReads(k));
    ReadIs(net.readers[k].left, net.down[k]);
    SwitchHearsKeepsTwo(net, cfgs, k, Read(net.readers[k].left, net.down[k]));
  }

  lemma RelayHeardKeepsTwo(net: Net, cfgs: seq<Config>, k: nat, port: int32, n: nat, src: int32, h: Hearing)
    requires |cfgs| <= 2 && Sound(net, cfgs) && LinearChain(cfgs) && TwoInv(net, cfgs)
    requires k < |cfgs| && 0 < n <= |Waiting(net.air, src, cfgs[k].id)|
    requires h.packet == Some(Waiting(net.air, src, cfgs[k].id)[0])
    ensures TwoInv(SwitchHears(TakeRelays(net, src, cfgs[k].id, n), k, port, h), cfgs)
  {
    var p := Waiting(net.air, src, cfgs[k].id)[0];
    FirstIsRelay(net.air, src, cfgs[k].id, n);
    assert FlightOk(cfgs, Flight(src, cfgs[k].id, p));
    assert SoundAt(net, cfgs, k);
    HeardKeepsTwo(TakeRelays(net, src, cfgs[k].id, n), cfgs, k, h);
    ReactKeepsTwo(Heard(TakeRelays(net, src, cfgs[k].id, n), k, h), cfgs, k, Receive(net.sws[k], port, p, net.pipes));
  }

  lemma RelayArrivesKeepsTwo(net: Net, cfgs: seq<Config>, k: nat, port: int32, n: nat)
    requires |cfgs| <= 2 && Sound(net, cfgs) && LinearChain(cfgs) && TwoInv(net, cfgs) && Enabled(net, RelayArrives(k, port, n))
    ensures TwoInv(Apply(net, RelayArrives(k, port, n)), cfgs)
  {
    assert SoundAt(net, cfgs, k);
    var src := net.sws[k].cfg.Neighbour(port);
    var ps := Waiting(net.air, src, cfgs[k].id)[..n];
    assert FifoFirst(net.readers[k]) && IsFifo(net.readers[k].ready[0]);
    FirstIsClean(ps);
    RelayHeardKeepsTwo(net, cfgs, k, port, n, src, Read("", ps));
  }

  lemma AdmitKeepsTwo(net: Net, cfgs: seq<Config>, k: nat, srcIp: int32, destIp: int32)
    requires |cfgs| <= 2 && Inv(net, cfgs) && LinearChain(cfgs) && TwoInv(net, cfgs) && Enabled(net, AdmitLine(k, srcIp, destIp))
    ensures TwoInv(Apply(net, AdmitLine(k, srcIp, destIp)), cfgs)
  {
    AdmitWrites(net, cfgs, k, srcIp, destIp);
    ReactKeepsTwo(net, cfgs, k, Admit(net.sws[k], srcIp, destIp, net.pipes));
  }

  lemma OtherStepKeepsTwo(net: Net, cfgs: seq<Config>, a: Action)
    requires |cfgs| <= 2 && Sound(net, cfgs) && LinearChain(cfgs) && TwoInv(net, cfgs) && Enabled(net, a)
    requires !a.AdmitLine? && !a.SwitchReads? && !a.RelayArrives?
    ensures TwoInv(Apply(net, a), cfgs)
  {
    match a
    case Start(k) => ReactKeepsTwo(net, cfgs, k, SendOpen(net.sws[k]));
    case SwitchPolls(k, ready) => PollsFifoFirst(net, cfgs, k, ready);
    case ControllerReads(k) => ControllerTouchesNot(TakeUp(net, k), k, HearingOf(net, a).value);
    case _ =>
  }

  lemma ControllerTouchesNot(net: Net, k: nat, h: Hearing)
    requires Shape(net) && k < |net.sws|
    ensures var t := ControllerHears(net, k, h);
            t.sws == net.sws && t.readers == net.readers && t.air == net.air && t.lost == net.lost
  {
  }

  lemma StepKeepsTwo(net: Net, cfgs: seq<Config>, a: Action)
    requires |cfgs| <= 2 && Inv(net, cfgs) && LinearChain(cfgs) && TwoInv(net, cfgs) && Enabled(net, a) && !Apply(net, a).overrun
    ensures TwoInv(Apply(net, a), cfgs)
  {
    match a
    case AdmitLine(k, srcIp, destIp) => AdmitKeepsTwo(net, cfgs, k, srcIp, destIp);
    case SwitchReads(k) => SwitchReadsKeepsTwo(net, cfgs, k);
    case RelayArrives(k, port, n) => RelayArrivesKeepsTwo(net, cfgs, k, port, n);
    case _ => OtherStepKeepsTwo(net, cfgs, a);
  }

  lemma {:induction false} RunKeepsTwo(s: Net, acts: seq<Action>, t: Net, cfgs: seq<Config>)
    requires |cfgs| <= 2 && Inv(s, cfgs) && LinearChain(cfgs) && TwoInv(s, cfgs) && Run(s, acts, t) && !t.misread && !t.overrun
    ensures TwoInv(t, cfgs)
    decreases |acts|
  {
    if acts != [] {
      var n := |acts| - 1;
      var m :| Run(s, acts[..n], m) && Step(m, acts[n], t);
      HistoryStays(m, acts[n]);
      RunKeepsInv(s, acts[..n], m, cfgs);
      RunKeepsTwo(s, acts[..n], m, cfgs);
      StepKeepsTwo(m, cfgs, acts[n]);
    }
  }

  lemma ReachableTwo(cfgs: seq<Config>, t: Net)
    requires |cfgs| <= 2 && LinearChain(cfgs) && CleanlyReachable(cfgs, t)
    ensures TwoInv(t, cfgs)
  {
    var acts :| Run(Init(cfgs), acts, t);
    InitInv(cfgs);
    RunKeepsTwo(Init(cfgs), acts, t, cfgs);
  }

  /** Two switches: every RELAY in flight is for an address its receiver owns, so none is passed on or
      written to descriptor 0; what one switch sent the other has received, or will, or has read
      together with an earlier one. */
  lemma TwoSwitchDelivery(cfgs: seq<Config>, t: Net)
    requires |cfgs| == 2 && LinearChain(cfgs) && CleanlyReachable(cfgs, t)
    ensures forall f | f in t.air :: FlightOk(cfgs, f)
    ensures forall k | 0 <= k < |t.sws| :: t.sws[k].reRelayed == 0
    ensures SumOut(t.sws) == SumIn(t.sws) + |t.air| + t.merged
  {
    ReachableTwo(cfgs, t);
    ReachableInv(cfgs, t);
    RelaysConserved(cfgs, t);
  }
}
