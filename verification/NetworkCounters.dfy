/** The packet counters of the controller against those of the switches: every OPEN and QUERY that
    a switch counts as sent is counted by the controller or still on its way, and the controller
    answers each OPEN, and each QUERY but the last one of a connection on which it dropped it. */
module NetworkCounters {
  import opened Decimal
  import opened Packets
  import opened Switch
  import opened Controller
  import opened PacketReader
  import opened Network
  import opened NetworkResults

  function SumOpens(sws: seq<SwitchState>): nat {
    if sws == [] then 0 else SumOpens(sws[..|sws| - 1]) + sws[|sws| - 1].counts.open
  }

  function SumQueries(sws: seq<SwitchState>): nat {
    if sws == [] then 0 else SumQueries(sws[..|sws| - 1]) + sws[|sws| - 1].counts.query
  }

  /** On a control connection there is at most one packet. */
  function OpenIn(up: seq<Packet>): nat { if up != [] && up[0].Open? then 1 else 0 }

  function QueryIn(up: seq<Packet>): nat { if up != [] && up[0].Query? then 1 else 0 }

  function OpensInFlight(up: seq<seq<Packet>>): nat {
    if up == [] then 0 else OpensInFlight(up[..|up| - 1]) + OpenIn(up[|up| - 1])
  }

  function QueriesInFlight(up: seq<seq<Packet>>): nat {
    if up == [] then 0 else QueriesInFlight(up[..|up| - 1]) + QueryIn(up[|up| - 1])
  }

  ghost predicate CountersInv(net: Net) {
    && SumOpens(net.sws) == net.ctl.counts.open + OpensInFlight(net.up)
    && SumQueries(net.sws) == net.ctl.counts.query + QueriesInFlight(net.up)
    && net.ctl.counts.ack == net.ctl.counts.open == |net.ctl.infoTable|
    && net.ctl.counts.query == net.ctl.counts.add + |net.ctl.unanswered|
    && (forall s | s in net.ctl.unanswered :: 1 <= s <= |net.sws|)
  }

  lemma {:induction false} SentAfterUpdate(sws: seq<SwitchState>, k: nat, sw: SwitchState)
    requires k < |sws|
    ensures SumOpens(sws[k := sw]) == SumOpens(sws) - sws[k].counts.open + sw.counts.open
    ensures SumQueries(sws[k := sw]) == SumQueries(sws) - sws[k].counts.query + sw.counts.query
  {
    var m := |sws| - 1;
    if k < m {
      assert sws[k := sw][..m] == sws[..m][k := sw];
      SentAfterUpdate(sws[..m], k, sw);
    } else {
      assert sws[k := sw][..m] == sws[..m];
    }
  }

  lemma {:induction false} FlightAfterUpdate(up: seq<seq<Packet>>, k: nat, u: seq<Packet>)
    requires k < |up|
    ensures OpensInFlight(up[k := u]) == OpensInFlight(up) - OpenIn(up[k]) + OpenIn(u)
    ensures QueriesInFlight(up[k := u]) == QueriesInFlight(up) - QueryIn(up[k]) + QueryIn(u)
  {
    var m := |up| - 1;
    if k < m {
      assert up[k := u][..m] == up[..m][k := u];
      FlightAfterUpdate(up[..m], k, u);
    } else {
      assert up[k := u][..m] == up[..m];
    }
  }

  /** What a handler counts as sent to the controller is what it writes there. */
  predicate CountsItsRequests(sw: SwitchState, up: seq<Packet>, r: Reaction) {
    && r.sw.counts.open + OpenIn(up) == sw.counts.open + OpenIn(Upward(up, r.out))
    && r.sw.counts.query + QueryIn(up) == sw.counts.query + QueryIn(Upward(up, r.out))
  }

  lemma ReactCounts(net: Net, k: nat, r: Reaction)
    requires Shape(net) && k < |net.sws| && CountersInv(net) && CountsItsRequests(net.sws[k], net.up[k], r)
    ensures CountersInv(React(net, k, r))
  {
    SentAfterUpdate(net.sws, k, r.sw);
    FlightAfterUpdate(net.up, k, Upward(net.up[k], r.out));
  }

  lemma StartCounts(net: Net, cfgs: seq<Config>, k: nat)
    requires Sound(net, cfgs) && CountersInv(net) && Enabled(net, Start(k))
    ensures CountersInv(Apply(net, Start(k)))
  {
    assert SoundAt(net, cfgs, k);
    ReactCounts(net, k, SendOpen(net.sws[k]));
  }

  lemma AdmitCounts(net: Net, cfgs: seq<Config>, k: nat, srcIp: int32, destIp: int32)
    requires Sound(net, cfgs) && CountersInv(net) && Enabled(net, AdmitLine(k, srcIp, destIp))
    ensures CountersInv(Apply(net, AdmitLine(k, srcIp, destIp)))
  {
    assert SoundAt(net, cfgs, k);
    if Covered(net.sws[k].flowTable, destIp) {
      HitFrame(net.sws[k], srcIp, destIp, net.pipes);
      HitOutput(net.sws[k], srcIp, destIp, net.pipes);
    }
    ReactCounts(net, k, Admit(net.sws[k], srcIp, destIp, net.pipes));
  }

  lemma SwitchHearsCounts(net: Net, cfgs: seq<Config>, k: nat, h: Hearing)
    requires Sound(net, cfgs) && CountersInv(net) && k < |cfgs| && net.sws[k].Running() && net.down[k] != []
    requires h.packet.Some? && SameButLast(net.down[k][0], h.packet.value)
    ensures CountersInv(SwitchHears(TakeDown(net, k), k, CONTROL, h))
  {
    var sw, p := net.sws[k], h.packet.value;
    assert SoundAt(net, cfgs, k);
    if sw.ackReceived {
      AddOutput(sw, CONTROL, p, net.pipes);
      AddFrame(sw, p.action, p.addLow, p.addHigh, p.relayPort, p.addSrc, net.pipes);
    }
    ReactCounts(Heard(TakeDown(net, k), k, h), k, Receive(sw, CONTROL, p, net.pipes));
  }

  lemma RelayHeardCounts(net: Net, cfgs: seq<Config>, k: nat, port: int32, n: nat, src: int32, dst: int32, h: Hearing)
    requires Sound(net, cfgs) && CountersInv(net) && k < |cfgs| && net.sws[k].Running()
    requires 0 < n <= |Waiting(net.air, src, dst)| && h.packet.Some? && h.packet.value.Relay?
    ensures CountersInv(SwitchHears(TakeRelays(net, src, dst, n), k, port, h))
  {
    var sw, p := net.sws[k], h.packet.value;
    assert SoundAt(net, cfgs, k);
    RelayFrame(sw, port, p.relaySrc, p.relayDest);
    ReactCounts(Heard(TakeRelays(net, src, dst, n), k, h), k, Receive(sw, port, p, net.pipes));
  }

  /** The controller counts what it reads, and notes the query it drops. */
  lemma ControllerHearsCounts(net: Net, cfgs: seq<Config>, k: nat, h: Hearing)
    requires Sound(net, cfgs) && CountersInv(net) && k < |cfgs| && net.up[k] != []
    requires h.packet.Some? && SameButLast(net.up[k][0], h.packet.value)
    ensures CountersInv(ControllerHears(TakeUp(net, k), k, h))
  {
    assert SoundAt(net, cfgs, k);
    FlightAfterUpdate(net.up, k, []);
    HandlerCounts(net.ctl, k + 1, h.packet.value);
    ControllerHearsFrame(net, k, h);
  }

  lemma ControllerHearsFrame(net: Net, k: nat, h: Hearing)
    requires Shape(net) && k < |net.sws| && h.packet.Some?
    ensures var t := ControllerHears(TakeUp(net, k), k, h);
            && t.sws == net.sws && t.up == net.up[k := []]
            && t.ctl == HandlePacket(net.ctl, k + 1, h.packet.value).ctl
  {
  }

  lemma HandlerCounts(c: ControllerState, slot: nat, q: Packet)
    requires slot in c.idToFd || q.Open?
    requires slot !in c.unanswered
    ensures var a := HandlePacket(c, slot, q); var registered := if q.Open? then 1 else 0;
            && a.ctl.counts.open == c.counts.open + registered && a.ctl.counts.ack == c.counts.ack + registered
            && |a.ctl.infoTable| == |c.infoTable| + registered
            && a.ctl.counts.query == c.counts.query + (if q.Query? then 1 else 0)
            && a.ctl.counts.query - a.ctl.counts.add - |a.ctl.unanswered| == c.counts.query - c.counts.add - |c.unanswered|
            && a.ctl.unanswered <= c.unanswered + {slot}
  {
  }

  lemma ReadCounts(net: Net, cfgs: seq<Config>, a: Action)
    requires Sound(net, cfgs) && CountersInv(net) && Enabled(net, a)
    requires HearingOf(net, a).Some? && HearingOf(net, a).value.packet.Some?
    ensures CountersInv(Apply(net, a))
  {
    var h := HearingOf(net, a).value;
    match a
    case ControllerReads(k) =>
      ReadIs(net.ctlReader.left, net.up[k]);
      ControllerHearsCounts(net, cfgs, k, h);
    case SwitchReads(k) =>
      ReadIs(net.readers[k].left, net.down[k]);
      SwitchHearsCounts(net, cfgs, k, h);
    case RelayArrives(k, port, n) =>
      ReadsRelay(net, k, port, n);
      RelayHeardCounts(net, cfgs, k, port, n, net.sws[k].cfg.Neighbour(port), net.sws[k].cfg.id, h);
  }

  lemma StepCounts(net: Net, cfgs: seq<Config>, a: Action)
    requires Sound(net, cfgs) && CountersInv(net) && Enabled(net, a) && !Apply(net, a).overrun
    ensures CountersInv(Apply(net, a))
  {
    HistoryIs(net, a);
    match a
    case Start(k) => StartCounts(net, cfgs, k);
    case SetUpPort(k) => SentAfterUpdate(net.sws, k, MakePipe(net.sws[k]));
    case AdmitLine(k, srcIp, destIp) => AdmitCounts(net, cfgs, k, srcIp, destIp);
    case ControllerPolls(_) =>
    case SwitchPolls(_, _) =>
    case _ => ReadCounts(net, cfgs, a);
  }

  lemma {:induction false} RunCounts(s: Net, acts: seq<Action>, t: Net, cfgs: seq<Config>)
    requires Sound(s, cfgs) && CountersInv(s) && Run(s, acts, t) && !t.overrun
    ensures CountersInv(t)
    decreases |acts|
  {
    if acts != [] {
      var n := |acts| - 1;
      var m :| Run(s, acts[..n], m) && Step(m, acts[n], t);
      HistoryStays(m, acts[n]);
      RunSound(s, acts[..n], m, cfgs);
      RunCounts(s, acts[..n], m, cfgs);
      StepCounts(m, cfgs, acts[n]);
    }
  }

  lemma {:induction false} NothingSentAtBoot(cfgs: seq<Config>)
    ensures var s := Init(cfgs);
            SumOpens(s.sws) == SumQueries(s.sws) == OpensInFlight(s.up) == QueriesInFlight(s.up) == 0
  {
    if cfgs != [] {
      var m := |cfgs| - 1;
      assert Init(cfgs).sws[..m] == Init(cfgs[..m]).sws;
      assert Init(cfgs).up[..m] == Init(cfgs[..m]).up;
      NothingSentAtBoot(cfgs[..m]);
    }
  }

  /** In any network and at any time, whatever was misread, the OPENs and QUERYs the switches count are
      those the controller counts and those in flight; the controller has sent an ACK for each OPEN, and an
      ADD for each QUERY but for one on each connection on which it has dropped one.  It drops none as long
      as it misreads nothing. */
  lemma ControllerCountersAgree(cfgs: seq<Config>, t: Net)
    requires Reachable(cfgs, t) && !t.overrun
    ensures SumOpens(t.sws) == t.ctl.counts.open + OpensInFlight(t.up)
    ensures SumQueries(t.sws) == t.ctl.counts.query + QueriesInFlight(t.up)
    ensures t.ctl.counts.ack == t.ctl.counts.open == |t.ctl.infoTable|
    ensures t.ctl.counts.query == t.ctl.counts.add + |t.ctl.unanswered|
    ensures !t.misread ==> t.ctl.unanswered == {}
  {
    var acts :| Run(Init(cfgs), acts, t);
    InitSound(cfgs);
    NothingSentAtBoot(cfgs);
    RunCounts(Init(cfgs), acts, t, cfgs);
    ReachableSound(cfgs, t);
    if !t.misread {
      forall s | s in t.ctl.unanswered ensures false { Alternation(cfgs, t, s - 1); }
    }
  }
}
