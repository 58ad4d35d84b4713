/** Where a RELAY for another switch goes in a chain: which neighbour gets it, where that leads, and
    that it can go back and forth for ever. */
module NetworkRoutes {
  import opened Decimal
  import opened Packets
  import opened PacketReader
  import opened Switch
  import opened Controller
  import opened Network
  import opened NetworkInvariant
  import opened NetworkResults
  import opened NetworkChain
  import opened NetworkRuns
  import opened NetworkLimits

  // ---------------------------------------------------------------- one hop

  /** The neighbour that is sent a RELAY for another switch, by the one that it came from: switch 1 sends
      it back, switch 2 sends on to switch 1 what comes from there and nothing else, and every other
      switch sends it down the chain. */
  function NextStop(id: int, from: int): Option<int> {
    if id == 1 then Some(2) else if id == 2 && from == 3 then None else Some(id - 1)
  }

  predicate OpenTowards(sw: SwitchState, id: int) {
    exists port: int32 :: ForwardsOut(port) && sw.cfg.Neighbour(port) == id && port in sw.portToFd && sw.portToFd[port].Fifo?
  }

  /** What a reaction to the RELAY `q` for another switch, or for this one, sends on. */
  predicate SendsOn(cfgs: seq<Config>, sw: SwitchState, k: nat, from: int32, q: Packet, out: Option<Output>)
    requires LinearChain(cfgs) && k < |cfgs| && q.Relay?
  {
    var next := NextStop(cfgs[k].id, from);
    if cfgs[k].Owns(q.relayDest) || next.None? then out == None
    else if OpenTowards(sw, next.value) then
      out.Some? && out.value.ToPort? && out.value.packet == q && cfgs[k].Neighbour(out.value.port) == next.value
    else out == Some(ToDescriptorZero(q))
  }

  /** What the step that takes a RELAY off a FIFO makes of the FIFOs: the RELAY goes to the next stop, or
      to descriptor 0 when that FIFO is not open, or nowhere. */
  lemma RelayHop(cfgs: seq<Config>, t: Net, k: nat, port: int32, n: nat, q: Packet)
    requires Reachable(cfgs, t) && !t.overrun && LinearChain(cfgs)
    requires Enabled(t, RelayArrives(k, port, n)) && Hears(t, RelayArrives(k, port, n), q)
    ensures k < |cfgs| && q.Relay? && t.sws[k].cfg == cfgs[k]
    ensures var u, id, from := Apply(t, RelayArrives(k, port, n)), cfgs[k].id, cfgs[k].Neighbour(port);
            var rest, next := Without(t.air, from, id, n), NextStop(id, from);
            if cfgs[k].Owns(q.relayDest) || next.None? then u.air == rest && u.lost == t.lost
            else if OpenTowards(t.sws[k], next.value) then u.air == rest + [Flight(id, next.value, q)] && u.lost == t.lost
            else u.air == rest && u.lost == t.lost + 1
  {
    ReachableSound(cfgs, t);
    ReadsRelay(t, k, port, n);
    HopSendsOn(cfgs, t, k, port, q);
    HeardWrites(TakeRelays(t, cfgs[k].Neighbour(port), cfgs[k].id, n), k, port, HearingOf(t, RelayArrives(k, port, n)).value, q);
  }

  lemma HopSendsOn(cfgs: seq<Config>, t: Net, k: nat, port: int32, q: Packet)
    requires Sound(t, cfgs) && LinearChain(cfgs) && k < |cfgs| && t.sws[k].Running() && ForwardsOut(port) && q.Relay?
    requires t.sws[k].cfg.Neighbour(port) != NULL_PORT
    ensures t.sws[k].cfg == cfgs[k]
    ensures var r := Receive(t.sws[k], port, q, t.pipes);
            r.sw.cfg == cfgs[k] && SendsOn(cfgs, t.sws[k], k, cfgs[k].Neighbour(port), q, r.out)
  {
    RelayKeepsTable(t, cfgs, k, port, q);
    assert SoundAt(t, cfgs, k);
    RelayLeavesBy(t.sws[k], port, q.relaySrc, q.relayDest);
    HopWrites(cfgs, t.sws[k], k, port, q, Receive(t.sws[k], port, q, t.pipes).out);
  }

  lemma HeardWrites(net: Net, k: nat, i: int32, h: Hearing, q: Packet)
    requires Shape(net) && k < |net.sws| && h.packet == Some(q)
    ensures var r, u := Receive(net.sws[k], i, q, net.pipes), SwitchHears(net, k, i, h);
            u.air == Aloft(net.air, r) && u.lost == Lost(net.lost, r.out)
  {
  }

  lemma HopWrites(cfgs: seq<Config>, sw: SwitchState, k: nat, port: int32, q: Packet, out: Option<Output>)
    requires LinearChain(cfgs) && k < |cfgs| && sw.cfg == cfgs[k] && PortsInv(sw) && ForwardsOut(port) && q.Relay?
    requires cfgs[k].Neighbour(port) != NULL_PORT
    requires cfgs[k].Owns(q.relayDest) || cfgs[k].id == port ==> out == None
    requires !cfgs[k].Owns(q.relayDest) && cfgs[k].id > port ==> out == Some(PassedTo(1, q.relaySrc, q.relayDest, sw.portToFd))
    requires !cfgs[k].Owns(q.relayDest) && cfgs[k].id < port ==> out == Some(PassedTo(2, q.relaySrc, q.relayDest, sw.portToFd))
    ensures SendsOn(cfgs, sw, k, cfgs[k].Neighbour(port), q, out)
  {
    var id := cfgs[k].id;
    if !cfgs[k].Owns(q.relayDest) && id != port {
      var exit: int32 := if id > port then 1 else 2;
      assert cfgs[k].Neighbour(exit) == NextStop(id, cfgs[k].Neighbour(port)).value;
      assert cfgs[k].Neighbour(exit) != cfgs[k].Neighbour(3 - exit);
    }
  }

  // ---------------------------------------------------------------- the whole way

  /** A RELAY between two neighbours, or at its owner, or dropped by a switch. */
  datatype Leg = Moving(from: int, at: int) | Delivered | Dropped

  /** One hop, when the switches have opened their FIFOs. */
  function Onward(leg: Leg, owner: int): Leg {
    if !leg.Moving? then leg
    else if leg.at == owner then Delivered
    else
      match NextStop(leg.at, leg.from)
      case None => Dropped
      case Some(next) => Moving(leg.at, next)
  }

  function Hops(leg: Leg, owner: int, n: nat): Leg
    decreases n
  {
    if n == 0 then leg else Hops(Onward(leg, owner), owner, n - 1)
  }

  /** Switch `a` forwards a packet of its own towards the owner. */
  function FirstLeg(a: int, owner: int): Leg { Moving(a, if owner > a then a + 1 else a - 1) }

  ghost predicate Ends(a: int, owner: int, end: Leg) { exists n: nat :: Hops(FirstLeg(a, owner), owner, n) == end }

  lemma {:induction false} StaysEnded(leg: Leg, owner: int, n: nat)
    requires !leg.Moving?
    ensures Hops(leg, owner, n) == leg
  {
    if n > 0 { StaysEnded(leg, owner, n - 1); }
  }

  /** The end that is reached is the only one. */
  lemma {:induction false} OneEnd(leg: Leg, owner: int, n: nat, m: nat)
    requires !Hops(leg, owner, n).Moving?
    ensures Hops(leg, owner, m).Moving? || Hops(leg, owner, m) == Hops(leg, owner, n)
    decreases n
  {
    if n == 0 { StaysEnded(leg, owner, m); }
    else if m == 0 { if !leg.Moving? { StaysEnded(leg, owner, n); } }
    else { OneEnd(Onward(leg, owner), owner, n - 1, m - 1); }
  }

  /** Down the chain: to the owner, or to switch 2 and no further. */
  lemma {:induction false} Downwards(at: int, owner: int) returns (n: nat)
    requires 1 <= at && 1 <= owner && (at == 1 ==> owner == 1)
    ensures Hops(Moving(at + 1, at), owner, n) == if owner == at || 2 <= owner <= at then Delivered else Dropped
    decreases at
  {
    if at == owner {
      n := 1;
      assert Hops(Onward(Moving(at + 1, at), owner), owner, 0) == Delivered;
    } else if at == 2 {
      n := 1;
      assert Hops(Onward(Moving(at + 1, at), owner), owner, 0) == Dropped;
    } else {
      var m := Downwards(at - 1, owner);
      n := m + 1;
    }
  }

  /** Between switches 1 and 2, a RELAY for a switch beyond them never stops. */
  lemma {:induction false} BackAndForth(owner: int, n: nat)
    requires owner >= 3
    ensures Hops(Moving(1, 2), owner, n) == if n % 2 == 0 then Moving(1, 2) else Moving(2, 1)
    ensures Hops(Moving(2, 1), owner, n) == if n % 2 == 0 then Moving(2, 1) else Moving(1, 2)
  {
    if n > 0 { BackAndForth(owner, n - 1); }
  }

  /** A packet of switch `a` gets to its owner exactly when the owner is a neighbour, or lies down the
      chain and is not switch 1.  Otherwise it is dropped, and by switch 2; except that what switch 1
      sends for a switch beyond switch 2 goes back and forth between these two for ever. */
  lemma TripExactly(a: int, owner: int)
    requires 1 <= a && 1 <= owner && a != owner
    ensures Ends(a, owner, Delivered) <==> owner == a + 1 || owner == a - 1 || 2 <= owner < a
    ensures Ends(a, owner, Dropped) <==> a >= 2 && (owner >= a + 2 || (owner == 1 && a >= 3))
    ensures (forall n: nat :: Hops(FirstLeg(a, owner), owner, n).Moving?) <==> a == 1 && owner >= 3
  {
    var leg := FirstLeg(a, owner);
    if a == 1 && owner >= 3 {
      forall n: nat ensures Hops(leg, owner, n).Moving? { BackAndForth(owner, n); }
    } else {
      var n := EndOf(a, owner);
      forall m: nat ensures Hops(leg, owner, m).Moving? || Hops(leg, owner, m) == Hops(leg, owner, n) { OneEnd(leg, owner, n, m); }
    }
  }

  lemma EndOf(a: int, owner: int) returns (n: nat)
    requires 1 <= a && 1 <= owner && a != owner && !(a == 1 && owner >= 3)
    ensures Hops(FirstLeg(a, owner), owner, n) ==
            if owner == a + 1 || owner == a - 1 || 2 <= owner < a then Delivered else Dropped
  {
    if owner < a {
      n := Downwards(a - 1, owner);
    } else if owner == a + 1 {
      n := 1;
      assert Hops(Onward(FirstLeg(a, owner), owner), owner, 0) == Delivered;
    } else {
      var m := Downwards(a, owner);
      n := m + 1;
      assert Onward(FirstLeg(a, owner), owner) == Moving(a + 1, a);
    }
  }

  // ---------------------------------------------------------------- for ever

  /** Switches 1 and 2 have opened the FIFOs to each other, and the RELAY `q` for an address of neither
      is on its way from 1 to 2, alone. */
  ghost predicate Bouncing(cfgs: seq<Config>, t: Net, q: Packet) {
    && Settled(cfgs, t) && |t.sws| == |cfgs| >= 3
    && t.air == [Flight(1, 2, q)] && q.Relay? && !cfgs[0].Owns(q.relayDest) && !cfgs[1].Owns(q.relayDest)
    && (forall k | 0 <= k < |t.sws| :: |t.sws[k].admitted| <= 1)
    && InLoop(t.sws[0], cfgs[0], 2) && InLoop(t.sws[1], cfgs[1], 1)
  }

  predicate InLoop(sw: SwitchState, cfg: Config, port: int32) {
    sw.cfg == cfg && sw.Running() && sw.pipesMade == 2 && port in sw.portToFd && sw.portToFd[port].Fifo?
  }

  lemma PassesBack(sw: SwitchState, cfg: Config, port: int32, q: Packet, pipes: set<Pipe>)
    requires InLoop(sw, cfg, port) && q.Relay? && !cfg.Owns(q.relayDest)
    requires (cfg.id == 1 && port == 2) || (cfg.id == 2 && port == 1)
    ensures var r := Receive(sw, port, q, pipes);
            && r.out == Some(ToPort(port, q)) && InLoop(r.sw, cfg, port)
            && r.sw.admitted == sw.admitted && r.sw.reRelayed == sw.reRelayed + 1
  {
  }

  /** Switch k takes the RELAY and sends it back. */
  lemma SendBack(cfgs: seq<Config>, t: Net, k: nat, port: int32, src: int32, q: Packet) returns (u: Net)
    requires Settled(cfgs, t) && LinearChain(cfgs) && k < 2 <= |t.sws| == |cfgs| && port == 2 - k && src == 2 - k
    requires InLoop(t.sws[k], cfgs[k], port) && t.air == [Flight(src, k + 1, q)] && q.Relay? && !cfgs[k].Owns(q.relayDest)
    ensures Settled(cfgs, u) && u.air == [Flight(k + 1, src, q)] && |u.sws| == |t.sws|
    ensures InLoop(u.sws[k], cfgs[k], port) && u.sws[k].admitted == t.sws[k].admitted
    ensures u.sws[k].reRelayed == t.sws[k].reRelayed + 1
    ensures forall j | 0 <= j < |t.sws| && j != k :: u.sws[j] == t.sws[j]
  {
    assert Waiting(t.air, src, k + 1) == [q] by { assert t.air[1..] == []; }
    u := RelayTakes(cfgs, t, k, port, src, k + 1, q);
    PassesBack(t.sws[k], cfgs[k], port, q, t.pipes);
    assert Without(t.air, src, k + 1, 1) == [];
    assert u.air == Aloft([], Receive(t.sws[k], port, q, t.pipes));
  }

  lemma OnceAround(cfgs: seq<Config>, t: Net, q: Packet) returns (u: Net)
    requires LinearChain(cfgs) && Bouncing(cfgs, t, q)
    ensures Bouncing(cfgs, u, q) && u.sws[0].reRelayed == t.sws[0].reRelayed + 1
  {
    var a := SendBack(cfgs, t, 1, 1, 1, q);
    u := SendBack(cfgs, a, 0, 2, 2, q);
  }

  lemma {:induction false} Around(cfgs: seq<Config>, t: Net, q: Packet, n: nat) returns (u: Net)
    requires LinearChain(cfgs) && Bouncing(cfgs, t, q)
    ensures Bouncing(cfgs, u, q) && u.sws[0].reRelayed >= n
    decreases n
  {
    if n == 0 {
      u := t;
    } else {
      u := Around(cfgs, t, q, n - 1);
      u := OnceAround(cfgs, u, q);
    }
  }

  /** Switch k can ask for the first address of switch m, will be told to forward there, and can. */
  predicate CanSend(cfgs: seq<Config>, s: Net, k: nat, m: nat) {
    && k < |cfgs| && m < |cfgs| && |s.sws| == |cfgs| && CanAsk(s, k, cfgs[m].ipLow)
    && s.sws[k] == Joined(cfgs[k]) && !cfgs[k].Owns(cfgs[m].ipLow)
    && Decide(s.ctl.infoTable, k + 1, cfgs[m].ipLow) ==
       ForwardTo(RelayPort(cfgs[m].id, k + 1), cfgs[m].ipLow, cfgs[m].ipHigh)
    && var next := cfgs[k].Neighbour(RelayPort(cfgs[m].id, k + 1)); next != NULL_PORT && Pipe(cfgs[k].id, next) in s.pipes
  }

  lemma AnswerForwards(cfgs: seq<Config>, s: Net, k: nat, m: nat)
    requires CanSend(cfgs, s, k, m)
    ensures var r, port := Answered(s, k, 0, cfgs[m].ipLow), RelayPort(cfgs[m].id, k + 1);
            && r.out == Some(ToPort(port, Relay(0, cfgs[m].ipLow)))
            && InLoop(r.sw, cfgs[k], port) && |r.sw.admitted| == 1
  {
    var port, h := RelayPort(cfgs[m].id, k + 1), To(cfgs[m], 0);
    AnsweredIsTold(s, k, cfgs[k], port, h, cfgs[m].ipLow, cfgs[m].ipHigh);
    ToldIs(cfgs[k], h, cfgs[m].ipLow, cfgs[m].ipHigh, port, s.pipes);
    ToldLoops(cfgs[k], h, cfgs[m].ipLow, cfgs[m].ipHigh, port, s.pipes);
  }

  lemma SendTo(cfgs: seq<Config>, s: Net, k: nat, m: nat) returns (t: Net)
    requires Settled(cfgs, s) && CanSend(cfgs, s, k, m)
    ensures Settled(cfgs, t) && |t.sws| == |s.sws| && (forall j | 0 <= j < |s.sws| && j != k :: t.sws[j] == s.sws[j])
    ensures t.up == s.up && t.down == s.down && t.pipes == s.pipes
    ensures t.ctl.infoTable == s.ctl.infoTable && t.ctl.idToFd == s.ctl.idToFd
    ensures t.air == s.air + [Flight(cfgs[k].id, cfgs[k].Neighbour(RelayPort(cfgs[m].id, k + 1)), Relay(0, cfgs[m].ipLow))]
    ensures InLoop(t.sws[k], cfgs[k], RelayPort(cfgs[m].id, k + 1)) && |t.sws[k].admitted| == 1
  {
    t := Ask(cfgs, s, k, 0, cfgs[m].ipLow);
    AnswerForwards(cfgs, s, k, m);
    AskedIs(s, k, cfgs[m].ipLow, t);
  }

  lemma ToldLoops(cfg: Config, h: Header, low: int32, high: int32, port: int32, pipes: set<Pipe>)
    requires !cfg.Owns(h.dest) && ForwardsOut(port) && cfg.Neighbour(port) != NULL_PORT && Pipe(cfg.id, cfg.Neighbour(port)) in pipes
    ensures var r := Told(cfg, h, low, high, port, pipes); InLoop(r.sw, cfg, port) && |r.sw.admitted| == 1
  {
    FirstMatchIs(Boot(cfg).flowTable, h.dest, 1);
  }

  lemma AskedIs(s: Net, k: nat, ip: int32, t: Net)
    requires Shape(s) && k < |s.sws| && Plain(t) == Plain(Asked(s, k, 0, ip))
    requires Answered(s, k, 0, ip).out.Some? && Answered(s, k, 0, ip).out.value.ToPort?
    ensures var r := Answered(s, k, 0, ip);
            && t.sws == s.sws[k := r.sw] && t.up == s.up && t.down == s.down && t.pipes == s.pipes
            && t.ctl.infoTable == s.ctl.infoTable && t.ctl.idToFd == s.ctl.idToFd
            && t.air == s.air + [Flight(r.sw.cfg.id, r.sw.cfg.Neighbour(r.out.value.port), r.out.value.packet)]
  {
    assert s.up[k := s.up[k]] == s.up;
    assert Plain(t).sws == t.sws && Plain(t).ctl == t.ctl && Plain(t).air == t.air && Plain(t).up == t.up;
  }

  /** All have joined; switches 1 and 2 can ask. */
  lemma TwoCanAsk(cfgs: seq<Config>) returns (s: Net)
    requires LinearChain(cfgs) && DisjointRanges(cfgs) && |cfgs| >= 3
    ensures AllJoined(cfgs, s) && Pipe(1, 2) in s.pipes && Pipe(2, 1) in s.pipes
    ensures forall k | 0 <= k < |s.sws| :: s.sws[k].admitted == []
  {
    s := ConnectUpTo(cfgs, |cfgs|);
    assert Member(cfgs, s, |cfgs|, 0) && Member(cfgs, s, |cfgs|, 1);
    PipesAre(cfgs[0], 2);
    PipesAre(cfgs[1], 1);
    forall k: nat | k < |s.sws| ensures s.sws[k].admitted == [] { assert Member(cfgs, s, |cfgs|, k); }
  }

  lemma BothCanSend(cfgs: seq<Config>, s: Net)
    requires LinearChain(cfgs) && DisjointRanges(cfgs) && |cfgs| >= 3 && AllJoined(cfgs, s)
    requires Pipe(1, 2) in s.pipes && Pipe(2, 1) in s.pipes
    ensures CanSend(cfgs, s, 0, 2) && CanSend(cfgs, s, 1, 0)
  {
    CanAskOwner(cfgs, s, 0, 2);
    CanAskOwner(cfgs, s, 1, 0);
  }

  /** What switch 0 sends does not keep switch 1 from sending. */
  lemma StillCanSend(cfgs: seq<Config>, s: Net, a: Net)
    requires CanSend(cfgs, s, 1, 0) && Shape(a) && |a.sws| == |s.sws| && a.sws[1] == s.sws[1]
    requires a.up == s.up && a.down == s.down && a.pipes == s.pipes
    requires a.ctl.infoTable == s.ctl.infoTable && a.ctl.idToFd == s.ctl.idToFd
    ensures CanSend(cfgs, a, 1, 0)
  {
  }

  /** Switch 1 sends a packet for switch 3, and then switch 2 one for switch 1 ... */
  lemma BothSend(cfgs: seq<Config>) returns (t: Net)
    requires LinearChain(cfgs) && DisjointRanges(cfgs) && |cfgs| >= 3
    ensures Settled(cfgs, t) && |t.sws| == |cfgs|
    ensures t.air == [Flight(1, 2, Relay(0, cfgs[2].ipLow)), Flight(2, 1, Relay(0, cfgs[0].ipLow))]
    ensures forall k | 0 <= k < |t.sws| :: |t.sws[k].admitted| <= 1
    ensures InLoop(t.sws[0], cfgs[0], 2) && InLoop(t.sws[1], cfgs[1], 1)
  {
    var s := TwoCanAsk(cfgs);
    BothCanSend(cfgs, s);
    var a := SendTo(cfgs, s, 0, 2);
    StillCanSend(cfgs, s, a);
    t := SendTo(cfgs, a, 1, 0);
  }

  lemma TwoFlights(q: Packet, r: Packet)
    ensures var air := [Flight(1, 2, q), Flight(2, 1, r)];
            Waiting(air, 2, 1) == [r] && Without(air, 2, 1, 1) == [Flight(1, 2, q)]
  {
    var air := [Flight(1, 2, q), Flight(2, 1, r)];
    assert air[1..] == [Flight(2, 1, r)] && air[1..][1..] == [];
    assert Waiting(air[1..], 2, 1) == [r];
    assert Without(air[1..], 2, 1, 1) == [];
  }

  /** ... which takes it. */
  lemma StartBouncing(cfgs: seq<Config>) returns (t: Net, q: Packet)
    requires LinearChain(cfgs) && DisjointRanges(cfgs) && |cfgs| >= 3
    ensures Bouncing(cfgs, t, q)
  {
    var b := BothSend(cfgs);
    var r := Relay(0, cfgs[0].ipLow);
    q := Relay(0, cfgs[2].ipLow);
    TwoFlights(q, r);
    t := RelayTakes(cfgs, b, 0, 2, 2, 1, r);
    TakesOwn(b.sws[0], cfgs[0], r, b.pipes);
    assert RangesApart(cfgs[0], cfgs[2]) && RangesApart(cfgs[1], cfgs[2]);
  }

  lemma TakesOwn(sw: SwitchState, cfg: Config, r: Packet, pipes: set<Pipe>)
    requires InLoop(sw, cfg, 2) && r.Relay? && cfg.Owns(r.relayDest)
    ensures var a := Receive(sw, 2, r, pipes); a.out == None && InLoop(a.sw, cfg, 2) && a.sw.admitted == sw.admitted
  {
  }

  /** Without sending anything new, switch 1 passes on as many RELAYs as one likes: exactly in a chain of
      three switches or more. */
  lemma BouncesExactly(cfgs: seq<Config>)
    requires LinearChain(cfgs) && DisjointRanges(cfgs)
    ensures (forall n: nat :: CanBounce(cfgs, n)) <==> |cfgs| >= 3
  {
    if |cfgs| >= 3 {
      var s, q := StartBouncing(cfgs);
      forall n: nat ensures CanBounce(cfgs, n) {
        var t := Around(cfgs, s, q, n);
        assert BouncedBy(t, n);
      }
    } else {
      if CanBounce(cfgs, 1) {
        var t :| CleanlyReachable(cfgs, t) && BouncedBy(t, 1);
        ReachableTwo(cfgs, t);
      }
    }
  }

  /** Switches that have admitted one packet each, at most, have passed on n RELAYs. */
  predicate BouncedBy(t: Net, n: nat) {
    (forall k | 0 <= k < |t.sws| :: |t.sws[k].admitted| <= 1) && exists k :: 0 <= k < |t.sws| && t.sws[k].reRelayed >= n
  }

  ghost predicate CanBounce(cfgs: seq<Config>, n: nat) { exists t :: CleanlyReachable(cfgs, t) && BouncedBy(t, n) }
}
