/** Exactly which networks let a switch exit, send packets the wrong way, keep a stale DROP, or write a
    RELAY to descriptor 0, as long as the controller misreads nothing. */
module NetworkLimits {
  import opened Decimal
  import opened Packets
  import opened Switch
  import opened Controller
  import opened Network
  import opened NetworkInvariant
  import opened NetworkResults
  import opened NetworkChain
  import opened NetworkRuns

  // ---------------------------------------------------------------- the runs

  /** Every switch has joined, and nothing else has happened. */
  ghost predicate AllJoined(cfgs: seq<Config>, s: Net) { Established(cfgs, s, |cfgs|) }

  /** Switch k can ask about the first address of switch m, and the controller knows whose it is. */
  lemma CanAskOwner(cfgs: seq<Config>, s: Net, k: nat, m: nat)
    requires DisjointRanges(cfgs) && AllJoined(cfgs, s) && m < |cfgs| && k < |cfgs| && m != k
    ensures CanAsk(s, k, cfgs[m].ipLow) && AllSetUp(s) && !cfgs[k].Owns(cfgs[m].ipLow)
    ensures s.sws[k] == Joined(cfgs[k])
    ensures Decide(s.ctl.infoTable, k + 1, cfgs[m].ipLow) ==
            ForwardTo(RelayPort(cfgs[m].id, k + 1), cfgs[m].ipLow, cfgs[m].ipHigh)
  {
    assert if m < k then RangesApart(cfgs[m], cfgs[k]) else RangesApart(cfgs[k], cfgs[m]);
    assert Member(cfgs, s, |cfgs|, k);
    assert AllSetUp(s) by { forall j: nat | j < |cfgs| ensures s.sws[j].pipesMade == 2 { assert Member(cfgs, s, |cfgs|, j); } }
    FirstMatchIs(s.sws[k].flowTable, cfgs[m].ipLow, 1);
    assert s.ctl.infoTable == cfgs;
    forall i | 0 <= i < m ensures !cfgs[i].Owns(cfgs[m].ipLow) { assert RangesApart(cfgs[i], cfgs[m]); }
    FirstOwnerIs(cfgs, cfgs[m].ipLow, m);
  }

  /** The ADD that answers it is on its way ... */
  lemma AnswerSent(cfgs: seq<Config>, k: nat, m: nat) returns (t: Net)
    requires DisjointRanges(cfgs) && m < |cfgs| && k < |cfgs| && m != k
    ensures CleanlyReachable(cfgs, t) && !t.hasty && k < |t.down|
    ensures t.down[k] == [Add(1, cfgs[m].ipLow, cfgs[m].ipHigh, RelayPort(cfgs[m].id, k + 1), 0)]
  {
    var s := ConnectUpTo(cfgs, |cfgs|);
    CanAskOwner(cfgs, s, k, m);
    t := Enquire(cfgs, s, k, 0, cfgs[m].ipLow);
    assert t.down == s.down[k := t.down[k]];
  }

  /** A switch that has joined, asked for an address in a range, and been told to forward that range. */
  function Told(cfg: Config, h: Header, low: int32, high: int32, port: int32, pipes: set<Pipe>): Reaction {
    Receive(Admit(Joined(cfg), h.src, h.dest, pipes).sw, CONTROL, Add(1, low, high, port, h.src), pipes)
  }

  /** It forwards the packet with its source and the low end of the range, unless it exits. */
  lemma ToldIs(cfg: Config, h: Header, low: int32, high: int32, port: int32, pipes: set<Pipe>)
    requires !cfg.Owns(h.dest) && ForwardsOut(port)
    ensures var r := Told(cfg, h, low, high, port, pipes);
            if cfg.Neighbour(port) == NULL_PORT then r.sw.exit == Some(OnNullPort)
            else if Pipe(cfg.id, cfg.Neighbour(port)) !in pipes then r.sw.exit == Some(OnMissingReader)
            else
              && r.sw.Running() && r.sw.cfg == cfg && r.out == Some(ToPort(port, Relay(h.src, low)))
              && r.sw.flowTable == Boot(cfg).flowTable + [NewRule(1, low, high, port)]
  {
    FirstMatchIs(Boot(cfg).flowTable, h.dest, 1);
  }

  lemma AnsweredIsTold(s: Net, k: nat, cfg: Config, port: int32, h: Header, low: int32, high: int32)
    requires Shape(s) && k < |s.sws| && s.sws[k] == Joined(cfg)
    requires Decide(s.ctl.infoTable, k + 1, h.dest) == ForwardTo(port, low, high)
    ensures Answered(s, k, h.src, h.dest) == Told(cfg, h, low, high, port, s.pipes)
  {
  }

  /** A packet for the first address of a range. */
  function To(cfg: Config, srcIp: int32): Header { Header(srcIp, cfg.ipLow) }

  /** ... and arrives. */
  lemma AnswerArrived(cfgs: seq<Config>, k: nat, m: nat, srcIp: int32) returns (s: Net, t: Net)
    requires ValidIp(srcIp) && DisjointRanges(cfgs) && m < |cfgs| && k < |cfgs| && m != k
    ensures AllJoined(cfgs, s) && Settled(cfgs, t) && !t.hasty && !cfgs[k].Owns(cfgs[m].ipLow)
    ensures Plain(t) == Plain(React(s.(ctl := t.ctl), k, Told(cfgs[k], To(cfgs[m], srcIp), cfgs[m].ipLow, cfgs[m].ipHigh,
                                                             RelayPort(cfgs[m].id, k + 1), s.pipes)))
  {
    s := ConnectUpTo(cfgs, |cfgs|);
    CanAskOwner(cfgs, s, k, m);
    t := Ask(cfgs, s, k, srcIp, cfgs[m].ipLow);
    AnsweredIsTold(s, k, cfgs[k], RelayPort(cfgs[m].id, k + 1), To(cfgs[m], srcIp), cfgs[m].ipLow, cfgs[m].ipHigh);
  }

  // ---------------------------------------------------------------- exits

  lemma RunIntoNull(cfgs: seq<Config>, k: nat, m: nat) returns (t: Net)
    requires DisjointRanges(cfgs) && MeetsNull(cfgs, k, m)
    ensures CleanlyReachable(cfgs, t) && Exited(t, OnNullPort)
  {
    var s;
    s, t := AnswerArrived(cfgs, k, m, 0);
    ToldIs(cfgs[k], To(cfgs[m], 0), cfgs[m].ipLow, cfgs[m].ipHigh, RelayPort(cfgs[m].id, k + 1), s.pipes);
    assert t.sws[k].exit == Some(OnNullPort);
  }

  /** A switch can be sent to a null port, and exit, exactly when the controller's rule, which compares
      ids with slots, names a null port for some pair of switches. */
  lemma NullExitsExactly(cfgs: seq<Config>)
    requires DisjointRanges(cfgs)
    ensures (exists t :: CleanlyReachable(cfgs, t) && Exited(t, OnNullPort)) <==> NullPortNamed(cfgs)
  {
    if NullPortNamed(cfgs) {
      var k: nat, m: nat :| MeetsNull(cfgs, k, m);
      var t := RunIntoNull(cfgs, k, m);
    } else {
      forall t | CleanlyReachable(cfgs, t) ensures !Exited(t, OnNullPort) { ReachableExits(cfgs, t); }
    }
  }

  /** In a row: exactly when switch 1 is not on slot 1, or switch n is below slot n - 1. */
  lemma RowNullExitsExactly(cfgs: seq<Config>, first: nat, last: nat)
    requires Row(cfgs) && DisjointRanges(cfgs)
    requires first < |cfgs| && last < |cfgs| && cfgs[first].id == 1 && cfgs[last].id == |cfgs|
    ensures (exists t :: CleanlyReachable(cfgs, t) && Exited(t, OnNullPort)) <==> first + 1 != 1 || last + 1 < |cfgs| - 1
  {
    NullExitsExactly(cfgs);
    NullPortInRow(cfgs, first, last);
  }

  /** Switch m has sent its OPEN and has not set up its ports; switch k is told to forward to its range. */
  lemma AskUnready(cfgs: seq<Config>, k: nat, m: nat) returns (t: Net)
    requires DisjointRanges(cfgs) && MeetsReader(cfgs, k, m)
    ensures CleanlyReachable(cfgs, t) && Exited(t, OnMissingReader)
  {
    var ip, port := cfgs[m].ipLow, RelayPort(cfgs[m].id, k + 1);
    var s := OwnerUnready(cfgs, k, m);
    t := Ask(cfgs, s, k, 0, ip);
    AnsweredIsTold(s, k, cfgs[k], port, To(cfgs[m], 0), ip, cfgs[m].ipHigh);
    ToldIs(cfgs[k], To(cfgs[m], 0), ip, cfgs[m].ipHigh, port, s.pipes);
    assert Asked(s, k, 0, ip).sws[k].exit == Some(OnMissingReader);
    assert t.sws[k].exit == Some(OnMissingReader);
  }

  lemma OwnerUnready(cfgs: seq<Config>, k: nat, m: nat) returns (s: Net)
    requires DisjointRanges(cfgs) && MeetsReader(cfgs, k, m)
    ensures Settled(cfgs, s) && CanAsk(s, k, cfgs[m].ipLow) && !cfgs[k].Owns(cfgs[m].ipLow)
    ensures s.sws[k] == Joined(cfgs[k]) && s.pipes == PipesOf(cfgs[k])
    ensures Decide(s.ctl.infoTable, k + 1, cfgs[m].ipLow) ==
            ForwardTo(RelayPort(cfgs[m].id, k + 1), cfgs[m].ipLow, cfgs[m].ipHigh)
  {
    var ip := cfgs[m].ipLow;
    assert if m < k then RangesApart(cfgs[m], cfgs[k]) else RangesApart(cfgs[k], cfgs[m]);
    StartSettled(cfgs);
    var a := Register(cfgs, Init(cfgs), m);
    assert a.sws == Init(cfgs).sws[m := Opened(cfgs[m])] && a.up == Init(cfgs).up && a.pipes == {};
    assert a.down == Init(cfgs).down[m := [Ack]] && a.ctl.infoTable == [cfgs[m]];
    s := Connect(cfgs, a, k);
    assert s.sws == a.sws[k := Joined(cfgs[k])] && s.down == a.down && s.up == a.up;
    assert s.ctl.infoTable == [cfgs[m], cfgs[k]];
    FirstMatchIs(s.sws[k].flowTable, ip, 1);
    FirstOwnerIs(s.ctl.infoTable, ip, 0);
  }

  /** A switch can exit because its neighbour has not opened the FIFO yet exactly when a port can be
      named to it that leads to another switch: a switch is registered before it sets up its ports. */
  lemma ReaderExitsExactly(cfgs: seq<Config>)
    requires DisjointRanges(cfgs)
    ensures (exists t :: CleanlyReachable(cfgs, t) && Exited(t, OnMissingReader)) <==> ReaderNamed(cfgs)
  {
    if ReaderNamed(cfgs) {
      var k: nat, m: nat :| MeetsReader(cfgs, k, m);
      var t := AskUnready(cfgs, k, m);
    } else {
      forall t | CleanlyReachable(cfgs, t) ensures !Exited(t, OnMissingReader) { ReachableExits(cfgs, t); }
    }
  }

  /** In a row that is whenever there are two switches or more. */
  lemma RowReaderExitsExactly(cfgs: seq<Config>)
    requires Row(cfgs) && DisjointRanges(cfgs)
    ensures (exists t :: CleanlyReachable(cfgs, t) && Exited(t, OnMissingReader)) <==> |cfgs| >= 2
  {
    ReaderExitsExactly(cfgs);
    if |cfgs| >= 2 {
      var other := if cfgs[0].id == 1 then 2 else 1;
      assert HasId(cfgs, other);
      var m: nat :| m < |cfgs| && cfgs[m].id == other;
      assert MeetsReader(cfgs, 0, m);
    } else {
      assert forall k: nat, m: nat :: !MeetsReader(cfgs, k, m);
    }
  }

  // ---------------------------------------------------------------- directions

  /** In a row, every ADD ever sent points to the owner exactly when each switch is on its own slot. */
  lemma AnswersPointExactly(cfgs: seq<Config>)
    requires Row(cfgs) && DisjointRanges(cfgs)
    ensures (forall t | CleanlyReachable(cfgs, t) :: AnswersPoint(cfgs, t)) <==> InOrder(cfgs)
  {
    if InOrder(cfgs) {
      forall t | CleanlyReachable(cfgs, t) ensures AnswersPoint(cfgs, t) { DirectionCorrect(cfgs, t); }
    } else {
      var k, m := WrongPortNamed(cfgs);
      var t := AnswerSent(cfgs, k, m);
      assert !AddPoints(cfgs, k, t.down[k][0]);
    }
  }

  /** ... and so is it for rules: no switch exits on a null port and every rule points to the owner
      exactly when each switch is on its own slot.  When all switches set up their ports before the
      first QUERY is handled, then, and only then, no switch exits at all and every rule points. */
  lemma RulesPointExactly(cfgs: seq<Config>)
    requires Row(cfgs) && DisjointRanges(cfgs)
    ensures (forall t | CleanlyReachable(cfgs, t) :: WellDirected(cfgs, t)) <==> InOrder(cfgs)
    ensures (forall t | CleanlyReachable(cfgs, t) && !t.hasty :: WellDirected(cfgs, t) && AllRunning(t)) <==> InOrder(cfgs)
  {
    if InOrder(cfgs) {
      forall t | CleanlyReachable(cfgs, t) ensures WellDirected(cfgs, t) { DirectionCorrect(cfgs, t); }
      forall t | CleanlyReachable(cfgs, t) && !t.hasty ensures AllRunning(t) { NobodyExits(cfgs, t); }
    } else {
      var t := GoneWrong(cfgs);
    }
  }

  lemma GoneWrong(cfgs: seq<Config>) returns (t: Net)
    requires Row(cfgs) && DisjointRanges(cfgs) && !InOrder(cfgs)
    ensures CleanlyReachable(cfgs, t) && !t.hasty && !WellDirected(cfgs, t)
  {
    var k, m := WrongPortNamed(cfgs);
    var s;
    s, t := AnswerArrived(cfgs, k, m, 0);
    var port := RelayPort(cfgs[m].id, k + 1);
    if cfgs[k].Neighbour(port) != NULL_PORT { PipeIsThere(cfgs, s, k, port); }
    WrongRule(cfgs, m, k, t.sws[k], s.pipes);
  }

  /** When all have joined, the FIFO of every port of a row has its reader. */
  lemma PipeIsThere(cfgs: seq<Config>, s: Net, k: nat, port: int32)
    requires Row(cfgs) && AllJoined(cfgs, s) && k < |cfgs| && ForwardsOut(port) && cfgs[k].Neighbour(port) != NULL_PORT
    ensures Pipe(cfgs[k].id, cfgs[k].Neighbour(port)) in s.pipes
  {
    var j := OtherEnd(cfgs, k, port);
    PipesAre(cfgs[j], 3 - port);
    assert Member(cfgs, s, |cfgs|, j);
  }

  /** In a row, a port leads to a switch whose other port leads back. */
  lemma OtherEnd(cfgs: seq<Config>, k: nat, port: int32) returns (j: nat)
    requires Row(cfgs) && k < |cfgs| && ForwardsOut(port) && cfgs[k].Neighbour(port) != NULL_PORT
    ensures j < |cfgs| && cfgs[j].id == cfgs[k].Neighbour(port) && cfgs[j].Neighbour(3 - port) == cfgs[k].id != NULL_PORT
  {
    assert HasId(cfgs, cfgs[k].Neighbour(port));
    j :| j < |cfgs| && cfgs[j].id == cfgs[k].Neighbour(port);
  }

  lemma PipesAre(cfg: Config, port: int32)
    requires ForwardsOut(port) && cfg.Neighbour(port) != NULL_PORT
    ensures Pipe(cfg.Neighbour(port), cfg.id) in PipesOf(cfg)
  {
  }

  /** Told the wrong port, a switch exits on a null port or has a wrong rule. */
  lemma WrongRule(cfgs: seq<Config>, m: nat, k: nat, sw: SwitchState, pipes: set<Pipe>)
    requires m < |cfgs| && k < |cfgs| && !cfgs[k].Owns(cfgs[m].ipLow)
    requires !Points(cfgs, k, cfgs[m].ipLow, cfgs[m].ipHigh, RelayPort(cfgs[m].id, k + 1))
    requires sw == Told(cfgs[k], To(cfgs[m], 0), cfgs[m].ipLow, cfgs[m].ipHigh, RelayPort(cfgs[m].id, k + 1), pipes).sw
    requires cfgs[k].Neighbour(RelayPort(cfgs[m].id, k + 1)) != NULL_PORT ==>
               Pipe(cfgs[k].id, cfgs[k].Neighbour(RelayPort(cfgs[m].id, k + 1))) in pipes
    ensures sw.exit == Some(OnNullPort) || (sw.Running() && !RulesPoint(cfgs, sw, k))
  {
    var port := RelayPort(cfgs[m].id, k + 1);
    ToldIs(cfgs[k], To(cfgs[m], 0), cfgs[m].ipLow, cfgs[m].ipHigh, port, pipes);
    if sw.Running() {
      assert sw.flowTable[1] == NewRule(1, cfgs[m].ipLow, cfgs[m].ipHigh, port);
      assert !RulePoints(cfgs, k, sw.flowTable[1]);
    }
  }

  // ---------------------------------------------------------------- stale DROPs

  /** Switch k drops what is for `ip`, although its owner is registered. */
  ghost predicate StaleAt(t: Net, k: nat, ip: int32) {
    && k < |t.sws| && t.sws[k].Running() && Covered(t.sws[k].flowTable, ip)
    && t.sws[k].flowTable[FirstMatch(t.sws[k].flowTable, ip)].actionType.Drop?
    && !Unowned(t.ctl.infoTable, ip)
  }

  ghost predicate HasStaleDrop(t: Net) { exists k: nat, ip: int32 :: StaleAt(t, k, ip) }

  /** A lone switch never drops for an owner that is registered: that could only be itself. */
  lemma AloneNotStale(cfgs: seq<Config>, t: Net, k: nat, ip: int32)
    requires CleanlyReachable(cfgs, t) && |cfgs| <= 1
    ensures !StaleAt(t, k, ip)
  {
    ReachableInv(cfgs, t);
    if k < |cfgs| && t.sws[k].Running() && !Unowned(t.ctl.infoTable, ip) {
      assert SoundAt(t, cfgs, k) && NodeAt(t, k);
      OnlyOwner(t.ctl, cfgs, ip);
      OwnIsDelivered(t.sws[k], k + 1, t.ctl, ip);
    }
  }

  lemma OwnIsDelivered(sw: SwitchState, slot: nat, ctl: ControllerState, ip: int32)
    requires TableInv(sw, slot, ctl) && TableShape(sw.flowTable) && sw.cfg.Owns(ip)
    ensures FirstMatch(sw.flowTable, ip) == 0 && sw.flowTable[0].actionType.Forward?
  {
    FirstMatchIs(sw.flowTable, ip, 0);
  }

  lemma OnlyOwner(ctl: ControllerState, cfgs: seq<Config>, ip: int32)
    requires RegisterInv(ctl, cfgs) && |cfgs| == 1 && !Unowned(ctl.infoTable, ip)
    ensures cfgs[0].Owns(ip)
  {
    var j :| 0 <= j < |ctl.infoTable| && ctl.infoTable[j].Owns(ip);
    assert ctl.slots[j] == 1;
  }

  /** Switch 0 joins alone, asks about an address of switch 1, and is told to drop; then switch 1 joins. */
  lemma DropThenJoin(cfgs: seq<Config>) returns (t: Net)
    requires DisjointRanges(cfgs) && |cfgs| >= 2
    ensures CleanlyReachable(cfgs, t) && StaleAt(t, 0, cfgs[1].ipLow)
  {
    var ip := cfgs[1].ipLow;
    var s := AskAlone(cfgs, ip);
    t := Connect(cfgs, s, 1);
    assert t.sws[0] == s.sws[0];
    FirstMatchIs(t.sws[0].flowTable, ip, 1);
    assert t.ctl.infoTable == [cfgs[0], cfgs[1]];
    assert t.ctl.infoTable[1].Owns(ip);
  }

  lemma AskAlone(cfgs: seq<Config>, ip: int32) returns (t: Net)
    requires DisjointRanges(cfgs) && |cfgs| >= 2 && ip == cfgs[1].ipLow
    ensures Settled(cfgs, t) && Untouched(cfgs, t, 1)
    ensures t.sws[0].Running() && t.sws[0].flowTable == Boot(cfgs[0]).flowTable + [NewRule(0, ip, ip, 0)]
    ensures !cfgs[0].Owns(ip) && t.ctl.infoTable == [cfgs[0]]
  {
    var s := ConnectUpTo(cfgs, 1);
    assert Member(cfgs, s, 1, 1);
    CanAskAlone(cfgs, ip, s);
    t := Ask(cfgs, s, 0, 0, ip);
    DroppedIs(s, ip);
    assert Plain(t).sws == s.sws[0 := Answered(s, 0, 0, ip).sw];
  }

  lemma CanAskAlone(cfgs: seq<Config>, ip: int32, s: Net)
    requires DisjointRanges(cfgs) && |cfgs| >= 2 && ip == cfgs[1].ipLow && Established(cfgs, s, 1)
    ensures CanAsk(s, 0, ip) && Decide(s.ctl.infoTable, 1, ip).DropIt? && !cfgs[0].Owns(ip)
    ensures s.sws[0] == Joined(cfgs[0]) && s.ctl.infoTable == [cfgs[0]]
  {
    assert RangesApart(cfgs[0], cfgs[1]);
    assert Member(cfgs, s, 1, 0);
    assert s.ctl.infoTable == [cfgs[0]];
    FirstMatchIs(s.sws[0].flowTable, ip, 1);
    FirstOwnerIs(s.ctl.infoTable, ip, 1);
  }

  lemma DroppedIs(s: Net, ip: int32)
    requires CanAsk(s, 0, ip) && Decide(s.ctl.infoTable, 1, ip).DropIt?
    ensures var r := Answered(s, 0, 0, ip);
            && r.out.None? && r.sw.Running() && r.sw.flowTable == s.sws[0].flowTable + [NewRule(0, ip, ip, 0)]
  {
  }

  /** For disjoint ranges, a stale DROP can arise exactly when there are two switches or more. */
  lemma StaleDropExactly(cfgs: seq<Config>)
    requires DisjointRanges(cfgs)
    ensures (exists t :: CleanlyReachable(cfgs, t) && HasStaleDrop(t)) <==> |cfgs| >= 2
  {
    if |cfgs| >= 2 {
      var t := DropThenJoin(cfgs);
      assert HasStaleDrop(t);
    } else {
      forall t | CleanlyReachable(cfgs, t) ensures !HasStaleDrop(t) {
        forall k: nat, ip: int32 ensures !StaleAt(t, k, ip) { AloneNotStale(cfgs, t, k, ip); }
      }
    }
  }
}
