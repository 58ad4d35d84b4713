/** Runs of the network: single steps that are possible, a switch that joins, and one that asks. */
module NetworkRuns {
  import opened CStrings
  import opened Decimal
  import opened Packets
  import opened PacketReader
  import opened Switch
  import opened Controller
  import opened Network
  import opened NetworkInvariant

  // ---------------------------------------------------------------- single steps

  lemma Go(cfgs: seq<Config>, s: Net, a: Action) returns (t: Net)
    requires Reachable(cfgs, s) && Enabled(s, a)
    ensures t == Apply(s, a) && Reachable(cfgs, t)
  {
    t := Apply(s, a);
    var acts :| Run(Init(cfgs), acts, s);
    RunOneMore(Init(cfgs), acts, s, a, t);
  }

  lemma RunOneMore(s: Net, acts: seq<Action>, m: Net, a: Action, t: Net)
    requires Run(s, acts, m) && Step(m, a, t)
    ensures Run(s, acts + [a], t)
  {
    assert (acts + [a])[..|acts|] == acts;
  }

  ghost predicate Resting(s: Net) {
    s.ctlReader.ready == [] && forall k | 0 <= k < |s.readers| :: s.readers[k].ready == []
  }

  /** Every packet came through so far, and nobody is in the middle of a pass. */
  ghost predicate Settled(cfgs: seq<Config>, s: Net) {
    Reachable(cfgs, s) && !s.misread && !s.garbled && !s.overrun && Shape(s) && Resting(s)
  }

  /** All of the state but the buffers, and whether a query was handled in haste. */
  function Plain(net: Net): Net { net.(readers := [], ctlReader := IDLE, hasty := false) }

  lemma StartSettled(cfgs: seq<Config>)
    ensures Settled(cfgs, Init(cfgs))
  {
    assert Run(Init(cfgs), [], Init(cfgs));
  }

  /** A step that writes but does not read. */
  lemma ReactRests(s: Net, k: nat, r: Reaction)
    requires Shape(s) && k < |s.sws|
    ensures var t := React(s, k, r);
            Shape(t) && t.readers == s.readers && t.ctlReader == s.ctlReader && SameHistory(s, t)
  {
  }

  lemma GoStart(cfgs: seq<Config>, s: Net, k: nat) returns (t: Net)
    requires Settled(cfgs, s) && Enabled(s, Start(k))
    ensures Settled(cfgs, t) && t == React(s, k, SendOpen(s.sws[k]))
  {
    t := Go(cfgs, s, Start(k));
    ReactRests(s, k, SendOpen(s.sws[k]));
  }

  lemma GoSetUp(cfgs: seq<Config>, s: Net, k: nat) returns (t: Net)
    requires Settled(cfgs, s) && Enabled(s, SetUpPort(k))
    ensures Settled(cfgs, t)
    ensures t == s.(sws := s.sws[k := MakePipe(s.sws[k])], pipes := s.pipes + PipeMade(s.sws[k]))
  {
    t := Go(cfgs, s, SetUpPort(k));
  }

  lemma GoAdmit(cfgs: seq<Config>, s: Net, k: nat, srcIp: int32, destIp: int32) returns (t: Net)
    requires Settled(cfgs, s) && Enabled(s, AdmitLine(k, srcIp, destIp))
    ensures Settled(cfgs, t) && t == React(s, k, Admit(s.sws[k], srcIp, destIp, s.pipes)) && t.hasty == s.hasty
  {
    t := Go(cfgs, s, AdmitLine(k, srcIp, destIp));
    ReactRests(s, k, Admit(s.sws[k], srcIp, destIp, s.pipes));
  }

  /** Switch k finds descriptor i ready, and nothing else. */
  function Polled(s: Net, k: nat, i: int32): Net
    requires k < |s.readers|
  {
    s.(readers := s.readers[k := Reader("", [i as int])])
  }

  /** Switch k has read a packet from descriptor i, first thing in a pass. */
  lemma FirstHearing(s: Net, k: nat, i: int32, h: Hearing, p: Packet)
    requires Shape(s) && k < |s.sws| && Resting(s) && h.clean && h.packet == Some(p)
    ensures var t := SwitchHears(Polled(s, k, i), k, i, h);
            && SameHistory(s, t) && Shape(t) && Resting(t)
            && Plain(t) == Plain(React(s, k, Receive(s.sws[k], i, p, s.pipes)))
  {
    var r := Receive(s.sws[k], i, p, s.pipes);
    var heard := Heard(Polled(s, k, i), k, h);
    ReactRests(heard, k, r);
    assert heard.readers == s.readers[k := Reader(h.left, [])];
    ReactPlain(heard, s, k, r);
  }

  lemma ReactPlain(net: Net, other: Net, k: nat, r: Reaction)
    requires Shape(net) && Shape(other) && k < |net.sws| && Plain(net) == Plain(other)
    ensures Plain(React(net, k, r)) == Plain(React(other, k, r))
  {
  }

  /** Switch k reads its control connection. */
  lemma SwitchTakes(cfgs: seq<Config>, s: Net, k: nat, p: Packet) returns (t: Net)
    requires Settled(cfgs, s) && k < |s.sws| && s.sws[k].Running() && s.sws[k].pipesMade == 2 && s.down[k] == [p]
    ensures Settled(cfgs, t) && t.hasty == s.hasty
    ensures Plain(t) == Plain(React(TakeDown(s, k), k, Receive(s.sws[k], CONTROL, p, s.pipes)))
  {
    var u := Go(cfgs, s, SwitchPolls(k, [CONTROL as int]));
    assert u == Polled(s, k, CONTROL);
    t := Go(cfgs, u, SwitchReads(k));
    FirstIsClean([p]);
    FirstHearing(TakeDown(s, k), k, CONTROL, Read("", [p]), p);
    assert t == SwitchHears(Polled(TakeDown(s, k), k, CONTROL), k, CONTROL, Read("", [p]));
  }

  /** The controller has read a packet, first thing in a pass. */
  lemma FirstReply(s: Net, k: nat, h: Hearing, p: Packet)
    requires Shape(s) && k < |s.sws| && Resting(s) && h.clean && h.packet == Some(p)
    ensures var t := ControllerHears(s.(ctlReader := Reader("", [k + 1])), k, h);
            && t.misread == s.misread && t.garbled == s.garbled && t.overrun == s.overrun
            && t.hasty == (s.hasty || (p.Query? && !AllSetUp(s))) && Shape(t) && Resting(t)
            && Plain(t) == Plain(Reply(s, k, HandlePacket(s.ctl, k + 1, p)))
  {
    var noted := Noted(s.(ctlReader := Reader("", [k + 1])), h);
    var a := HandlePacket(s.ctl, k + 1, p);
    ReplyPlain(noted, s, k, a);
    assert noted.hasty == (s.hasty || (p.Query? && !AllSetUp(s)));
  }

  lemma ReplyPlain(net: Net, other: Net, k: nat, a: Answer)
    requires Shape(net) && Shape(other) && k < |net.sws| && Plain(net) == Plain(other)
    ensures var t := Reply(net, k, a);
            && Plain(t) == Plain(Reply(other, k, a)) && Shape(t)
            && t.readers == net.readers && t.ctlReader == net.ctlReader && SameHistory(net, t)
  {
  }

  /** The controller reads slot k + 1. */
  lemma ControllerTakes(cfgs: seq<Config>, s: Net, k: nat, p: Packet) returns (t: Net)
    requires Settled(cfgs, s) && k < |s.sws| && s.up[k] == [p]
    ensures Settled(cfgs, t) && t.hasty == (s.hasty || (p.Query? && !AllSetUp(s)))
    ensures Plain(t) == Plain(Reply(TakeUp(s, k), k, HandlePacket(s.ctl, k + 1, p)))
  {
    SlotIsDue(s, k);
    var u := Go(cfgs, s, ControllerPolls([k + 1]));
    t := Go(cfgs, u, ControllerReads(k));
    FirstIsClean([p]);
    FirstReply(TakeUp(s, k), k, Read("", [p]), p);
  }

  lemma SlotIsDue(s: Net, k: nat)
    requires Shape(s) && Resting(s) && k < |s.sws| && s.up[k] != []
    ensures var u := s.(ctlReader := Reader("", [k + 1])); var poll := ControllerPolls([k + 1]);
            Enabled(s, poll) && Apply(s, poll) == u && Enabled(u, ControllerReads(k))
  {
  }

  /** Switch k reads the only RELAY of a FIFO. */
  lemma RelayTakes(cfgs: seq<Config>, s: Net, k: nat, port: int32, src: int32, dst: int32, p: Packet) returns (t: Net)
    requires Settled(cfgs, s) && k < |s.sws| && s.sws[k].Running() && s.sws[k].pipesMade == 2
    requires (port == 1 || port == 2) && src == s.sws[k].cfg.Neighbour(port) != NULL_PORT && dst == s.sws[k].cfg.id
    requires Waiting(s.air, src, dst) == [p]
    ensures Settled(cfgs, t) && t.hasty == s.hasty
    ensures Plain(t) == Plain(React(TakeRelays(s, src, dst, 1), k, Receive(s.sws[k], port, p, s.pipes)))
  {
    var u := Go(cfgs, s, SwitchPolls(k, [port as int]));
    assert u == Polled(s, k, port);
    assert [p][..1] == [p];
    TextOfOne(p);
    t := Go(cfgs, u, RelayArrives(k, port, 1));
    FirstIsClean([p]);
    FirstHearing(TakeRelays(s, src, dst, 1), k, port, Read("", [p]), p);
    assert t == SwitchHears(Polled(TakeRelays(s, src, dst, 1), k, port), k, port, Read("", [p]));
  }

  lemma TextOfOne(p: Packet)
    ensures Text([p]) == Print(p) && |Text([p])| < BUFFER_SIZE
  {
    FitsBuffer(p);
    assert Text([p]) == Print(p) + Text([]);
  }

  // ---------------------------------------------------------------- joining

  /** A switch that has sent its OPEN, then set up its ports, and then read the ACK. */
  function Opened(cfg: Config): SwitchState { SendOpen(Boot(cfg)).sw }

  function Joined(cfg: Config): SwitchState { HandleAck(MakePipe(MakePipe(Opened(cfg)))) }

  /** The FIFOs that it reads. */
  function PipesOf(cfg: Config): set<Pipe> { PipeMade(Opened(cfg)) + PipeMade(MakePipe(Opened(cfg))) }

  predicate Untouched(cfgs: seq<Config>, s: Net, k: nat) {
    Shape(s) && |s.sws| == |cfgs| && k < |cfgs| && s.sws[k] == Boot(cfgs[k]) && s.up[k] == s.down[k] == []
  }

  /** Switch k connects and its OPEN is handled, before it has set up its ports. */
  lemma Register(cfgs: seq<Config>, s: Net, k: nat) returns (t: Net)
    requires Settled(cfgs, s) && Untouched(cfgs, s, k)
    ensures Settled(cfgs, t) && t.hasty == s.hasty
    ensures Plain(t) == Plain(s.(sws := s.sws[k := Opened(cfgs[k])], down := s.down[k := [Ack]],
                                 ctl := HandleOpen(s.ctl, k + 1, cfgs[k]).ctl))
  {
    var a := GoStart(cfgs, s, k);
    t := ControllerTakes(cfgs, a, k, OpenOf(cfgs[k]));
    assert s.up[k := []] == s.up && a.down == s.down && s.down[k] + [Ack] == [Ack];
    assert a.sws == s.sws[k := Opened(cfgs[k])] && a.ctl == s.ctl;
    assert Plain(t).up == s.up;
  }

  /** Switch k sets up its ports and reads its ACK. */
  lemma Ready(cfgs: seq<Config>, s: Net, k: nat) returns (t: Net)
    requires Settled(cfgs, s) && k < |cfgs| == |s.sws| && s.sws[k] == Opened(cfgs[k]) && s.down[k] == [Ack]
    ensures Settled(cfgs, t) && t.hasty == s.hasty
    ensures Plain(t) == Plain(s.(sws := s.sws[k := Joined(cfgs[k])], down := s.down[k := []],
                                 pipes := s.pipes + PipesOf(cfgs[k])))
  {
    var a := GoSetUp(cfgs, s, k);
    var b := GoSetUp(cfgs, a, k);
    t := SwitchTakes(cfgs, b, k, Ack);
    assert b.pipes == s.pipes + PipesOf(cfgs[k]);
    assert Plain(t).sws == s.sws[k := Joined(cfgs[k])];
  }

  /** The state after switch k has joined. */
  function AfterJoining(cfgs: seq<Config>, s: Net, k: nat): Net
    requires k < |cfgs| && k < |s.sws|
  {
    s.(sws := s.sws[k := Joined(cfgs[k])], ctl := HandleOpen(s.ctl, k + 1, cfgs[k]).ctl,
       pipes := s.pipes + PipesOf(cfgs[k]))
  }

  lemma Connect(cfgs: seq<Config>, s: Net, k: nat) returns (t: Net)
    requires Settled(cfgs, s) && Untouched(cfgs, s, k)
    ensures Settled(cfgs, t) && t.hasty == s.hasty && Plain(t) == Plain(AfterJoining(cfgs, s, k))
  {
    var a := Register(cfgs, s, k);
    assert a.sws == s.sws[k := Opened(cfgs[k])] && a.down == s.down[k := [Ack]] && a.pipes == s.pipes;
    t := Ready(cfgs, a, k);
    assert s.down[k := [Ack]][k := []] == s.down;
    assert s.sws[k := Opened(cfgs[k])][k := Joined(cfgs[k])] == s.sws[k := Joined(cfgs[k])];
  }

  /** Switch k has joined, if it is one of the first n, or has not started, and has nothing in flight. */
  predicate Member(cfgs: seq<Config>, s: Net, n: nat, k: nat)
    requires Shape(s) && k < |cfgs| == |s.sws|
  {
    && s.sws[k] == (if k < n then Joined(cfgs[k]) else Boot(cfgs[k])) && s.up[k] == s.down[k] == []
    && (k < n ==> k + 1 in s.ctl.idToFd && PipesOf(cfgs[k]) <= s.pipes)
  }

  /** Switches 0..n-1 have joined, in this order, and nothing else has happened. */
  ghost predicate Established(cfgs: seq<Config>, s: Net, n: nat) {
    && n <= |cfgs| && Settled(cfgs, s) && |s.sws| == |cfgs| && !s.hasty
    && (forall k: nat | k < |cfgs| :: Member(cfgs, s, n, k))
    && s.air == [] && s.lost == 0
    && s.ctl.infoTable == cfgs[..n] && s.ctl.counts.query == 0
  }

  lemma MemberNext(cfgs: seq<Config>, s: Net, n: nat, t: Net, next: nat, k: nat)
    requires Shape(s) && Shape(t) && n < |cfgs| == |s.sws| && next == n + 1 && k < |cfgs|
    requires Plain(t) == Plain(AfterJoining(cfgs, s, n)) && Member(cfgs, s, n, k)
    ensures Member(cfgs, t, next, k)
  {
    assert t.sws == s.sws[n := Joined(cfgs[n])] && t.up == s.up && t.down == s.down && t.pipes == s.pipes + PipesOf(cfgs[n]);
    assert t.ctl == HandleOpen(s.ctl, next, cfgs[n]).ctl;
  }

  lemma EstablishedNext(cfgs: seq<Config>, s: Net, n: nat, t: Net, next: nat)
    requires n < |cfgs| && Established(cfgs, s, n) && Settled(cfgs, t) && !t.hasty && next == n + 1
    requires Plain(t) == Plain(AfterJoining(cfgs, s, n))
    ensures Established(cfgs, t, next)
  {
    forall k: nat | k < |cfgs| ensures Member(cfgs, t, next, k) { MemberNext(cfgs, s, n, t, next, k); }
    TableNext(cfgs, s, n, t, next);
  }

  lemma TableNext(cfgs: seq<Config>, s: Net, n: nat, t: Net, next: nat)
    requires n < |cfgs| && n < |s.sws| && next == n + 1 && Plain(t) == Plain(AfterJoining(cfgs, s, n))
    requires s.ctl.infoTable == cfgs[..n]
    ensures t.ctl.infoTable == cfgs[..next] && t.ctl.counts.query == s.ctl.counts.query
    ensures t.air == s.air && t.lost == s.lost && |t.sws| == |s.sws|
  {
    assert t.ctl == HandleOpen(s.ctl, next, cfgs[n]).ctl;
    assert cfgs[..next] == cfgs[..n] + [cfgs[n]];
  }

  lemma NobodyEstablished(cfgs: seq<Config>)
    ensures Established(cfgs, Init(cfgs), 0)
  {
    StartSettled(cfgs);
  }

  lemma ConnectNext(cfgs: seq<Config>, s: Net, n: nat) returns (t: Net)
    requires n < |cfgs| && Established(cfgs, s, n)
    ensures Established(cfgs, t, n + 1)
  {
    assert Member(cfgs, s, n, n);
    t := Connect(cfgs, s, n);
    EstablishedNext(cfgs, s, n, t, n + 1);
  }

  lemma {:induction false} ConnectUpTo(cfgs: seq<Config>, n: nat) returns (t: Net)
    requires n <= |cfgs|
    ensures Established(cfgs, t, n)
  {
    if n == 0 {
      t := Init(cfgs);
      NobodyEstablished(cfgs);
    } else {
      var s := ConnectUpTo(cfgs, n - 1);
      t := ConnectNext(cfgs, s, n - 1);
    }
  }

  // ---------------------------------------------------------------- asking

  predicate CanAsk(s: Net, k: nat, destIp: int32) {
    && Shape(s) && k < |s.sws| && s.sws[k].Running() && s.sws[k].ackReceived && s.sws[k].addReceived
    && s.sws[k].pipesMade == 2 && s.up[k] == [] && s.down[k] == [] && k + 1 in s.ctl.idToFd
    && ValidIp(destIp) && !Covered(s.sws[k].flowTable, destIp)
  }

  /** The state with the answer on its way. */
  function WithAnswer(s: Net, k: nat, srcIp: int32, destIp: int32): Net
    requires Shape(s) && k < |s.sws|
  {
    s.(sws := s.sws[k := Admit(s.sws[k], srcIp, destIp, s.pipes).sw],
       down := s.down[k := [AddFor(Decide(s.ctl.infoTable, k + 1, destIp), srcIp, destIp)]],
       ctl := HandleQuery(s.ctl, k + 1, srcIp, destIp).ctl)
  }

  lemma AllSetUpStays(s: Net, k: nat, srcIp: int32, destIp: int32, t: Net)
    requires Shape(s) && k < |s.sws| && !Covered(s.sws[k].flowTable, destIp)
    requires t.sws == s.sws[k := Admit(s.sws[k], srcIp, destIp, s.pipes).sw]
    ensures AllSetUp(s) ==> AllSetUp(t)
  {
  }

  /** Switch k asks about an address, and the answer is on its way ... */
  lemma Enquire(cfgs: seq<Config>, s: Net, k: nat, srcIp: int32, destIp: int32) returns (t: Net)
    requires Settled(cfgs, s) && CanAsk(s, k, destIp) && ValidIp(srcIp)
    ensures Settled(cfgs, t) && Plain(t) == Plain(WithAnswer(s, k, srcIp, destIp))
    ensures !s.hasty && AllSetUp(s) ==> !t.hasty
  {
    var a := GoAdmit(cfgs, s, k, srcIp, destIp);
    assert a.up[k] == [Query(srcIp, destIp)];
    assert a.sws == s.sws[k := Admit(s.sws[k], srcIp, destIp, s.pipes).sw] && a.ctl == s.ctl && a.down == s.down;
    AllSetUpStays(s, k, srcIp, destIp, a);
    t := ControllerTakes(cfgs, a, k, Query(srcIp, destIp));
    assert s.down[k] + [t.down[k][0]] == [t.down[k][0]];
    assert t.up == s.up;
  }

  /** What switch k makes of the answer. */
  function Answered(s: Net, k: nat, srcIp: int32, destIp: int32): Reaction
    requires Shape(s) && k < |s.sws|
  {
    Receive(Admit(s.sws[k], srcIp, destIp, s.pipes).sw, CONTROL,
            AddFor(Decide(s.ctl.infoTable, k + 1, destIp), srcIp, destIp), s.pipes)
  }

  /** The state after the answer was handled. */
  function Asked(s: Net, k: nat, srcIp: int32, destIp: int32): Net
    requires Shape(s) && k < |s.sws|
  {
    React(s.(ctl := HandleQuery(s.ctl, k + 1, srcIp, destIp).ctl), k, Answered(s, k, srcIp, destIp))
  }

  /** ... and it arrives. */
  lemma Ask(cfgs: seq<Config>, s: Net, k: nat, srcIp: int32, destIp: int32) returns (t: Net)
    requires Settled(cfgs, s) && CanAsk(s, k, destIp) && ValidIp(srcIp)
    ensures Settled(cfgs, t) && Plain(t) == Plain(Asked(s, k, srcIp, destIp))
    ensures !s.hasty && AllSetUp(s) ==> !t.hasty
  {
    var a := Enquire(cfgs, s, k, srcIp, destIp);
    t := SwitchTakes(cfgs, a, k, AddFor(Decide(s.ctl.infoTable, k + 1, destIp), srcIp, destIp));
    AfterAsking(s, a, k, srcIp, destIp);
  }

  lemma AfterAsking(s: Net, a: Net, k: nat, srcIp: int32, destIp: int32)
    requires Shape(s) && Shape(a) && CanAsk(s, k, destIp) && ValidIp(srcIp) && Plain(a) == Plain(WithAnswer(s, k, srcIp, destIp))
    ensures Plain(React(TakeDown(a, k), k, Answered(s, k, srcIp, destIp))) == Plain(Asked(s, k, srcIp, destIp))
  {
    var r := Answered(s, k, srcIp, destIp);
    var handled := s.(ctl := HandleQuery(s.ctl, k + 1, srcIp, destIp).ctl);
    assert TakeDown(a, k).down == s.down;
    assert Plain(TakeDown(a, k)) == Plain(handled.(sws := a.sws));
    ReactPlain(TakeDown(a, k), handled.(sws := a.sws), k, r);
    assert a.sws[k := r.sw] == s.sws[k := r.sw];
  }
}
