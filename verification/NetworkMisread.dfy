/** When packets are misread: a second packet read in one pass is followed by the end of the first one.
    When it cannot happen, a run in which it does, and what becomes of the switch concerned. */
module NetworkMisread {
  import opened CStrings
  import opened Decimal
  import opened Packets
  import opened PacketReader
  import opened Switch
  import opened Controller
  import opened Network
  import opened NetworkInvariant
  import opened NetworkResults
  import opened NetworkChain
  import opened NetworkRuns

  // ---------------------------------------------------------------- the buffers

  predicate Holds(r: Reader) { |r.left| < BUFFER_SIZE && NUL !in r.left }

  ghost predicate BuffersInv(net: Net) { Holds(net.ctlReader) && forall k | 0 <= k < |net.readers| :: Holds(net.readers[k]) }

  lemma ReadHolds(left: string, ps: seq<Packet>)
    requires |left| < BUFFER_SIZE && NUL !in left && ps != [] && |Text(ps)| < BUFFER_SIZE
    ensures var h := Read(left, ps); |h.left| < BUFFER_SIZE && NUL !in h.left
  {
    TextFits(ps);
    var text := Text(ps);
    assert forall c | c in Seen(left, text) :: c in text || c in left;
  }

  lemma HearsHolds(net: Net, k: nat, i: int32, h: Hearing)
    requires Shape(net) && k < |net.sws| && BuffersInv(net) && |h.left| < BUFFER_SIZE && NUL !in h.left
    ensures BuffersInv(SwitchHears(net, k, i, h)) && BuffersInv(ControllerHears(net, k, h))
  {
  }

  /** A message on a control connection comes alone. */
  lemma OneFits(ps: seq<Packet>)
    requires |ps| == 1
    ensures |Text(ps)| < BUFFER_SIZE
  {
    TextOfOne(ps[0]);
    assert ps == [ps[0]];
  }

  lemma ReactHolds(net: Net, k: nat, r: Reaction)
    requires Shape(net) && k < |net.sws| && BuffersInv(net)
    ensures BuffersInv(React(net, k, r))
  {
  }

  lemma StepHolds(net: Net, cfgs: seq<Config>, a: Action)
    requires Sound(net, cfgs) && BuffersInv(net) && Enabled(net, a)
    ensures BuffersInv(Apply(net, a))
  {
    match a
    case Start(k) => ReactHolds(net, k, SendOpen(net.sws[k]));
    case AdmitLine(k, srcIp, destIp) => ReactHolds(net, k, Admit(net.sws[k], srcIp, destIp, net.pipes));
    case ControllerReads(k) =>
      assert SoundAt(net, cfgs, k);
      OneFits(net.up[k]);
      ReadHolds(net.ctlReader.left, net.up[k]);
      HearsHolds(TakeUp(net, k), k, 0, HearingOf(net, a).value);
    case SwitchReads(k) =>
      assert SoundAt(net, cfgs, k);
      ControlHolds(net, a);
    case RelayArrives(k, port, n) => RelayHolds(net, a);
    case _ =>
  }

  lemma ControlHolds(net: Net, a: Action)
    requires BuffersInv(net) && Enabled(net, a) && a.SwitchReads? && |net.down[a.k]| <= 1
    ensures BuffersInv(Apply(net, a))
  {
    OneFits(net.down[a.k]);
    ReadHolds(net.readers[a.k].left, net.down[a.k]);
    HearsHolds(TakeDown(net, a.k), a.k, CONTROL, HearingOf(net, a).value);
  }

  lemma RelayHolds(net: Net, a: Action)
    requires BuffersInv(net) && Enabled(net, a) && a.RelayArrives?
    ensures BuffersInv(Apply(net, a))
  {
    var src, dst := net.sws[a.k].cfg.Neighbour(a.port), net.sws[a.k].cfg.id;
    ReadHolds(net.readers[a.k].left, Waiting(net.air, src, dst)[..a.n]);
    HearsHolds(TakeRelays(net, src, dst, a.n), a.k, a.port, HearingOf(net, a).value);
  }

  lemma {:induction false} RunHolds(s: Net, acts: seq<Action>, t: Net, cfgs: seq<Config>)
    requires Sound(s, cfgs) && BuffersInv(s) && Run(s, acts, t) && !t.overrun
    ensures BuffersInv(t)
    decreases |acts|
  {
    if acts != [] {
      var n := |acts| - 1;
      var m :| Run(s, acts[..n], m) && Step(m, acts[n], t);
      HistoryStays(m, acts[n]);
      RunSound(s, acts[..n], m, cfgs);
      RunHolds(s, acts[..n], m, cfgs);
      StepHolds(m, cfgs, acts[n]);
    }
  }

  /** Whatever piles up in a buffer during a pass, it is a C string shorter than the buffer: so the
      strings of the model are what the receivers' buffers hold. */
  lemma BuffersHold(cfgs: seq<Config>, t: Net)
    requires Reachable(cfgs, t) && !t.overrun
    ensures BuffersInv(t)
  {
    var acts :| Run(Init(cfgs), acts, t);
    InitSound(cfgs);
    RunHolds(Init(cfgs), acts, t, cfgs);
  }

  // ---------------------------------------------------------------- one descriptor at a time

  /** `poll` finds at most one descriptor ready. */
  predicate SinglePoll(a: Action) {
    match a
    case ControllerPolls(ready) => |ready| <= 1
    case SwitchPolls(_, ready) => |ready| <= 1
    case _ => true
  }

  /** The buffer is empty before the only read of a pass. */
  predicate Fresh(r: Reader) { r.ready != [] ==> r.left == "" && |r.ready| == 1 }

  lemma AfterFresh(r: Reader, left: string)
    requires Fresh(r)
    ensures Fresh(After(r, left))
  {
  }

  predicate ControllerFresh(net: Net) { !net.misread && Fresh(net.ctlReader) }

  lemma ControllerHearsFresh(net: Net, k: nat, h: Hearing)
    requires Shape(net) && k < |net.sws| && ControllerFresh(net) && h.clean
    ensures ControllerFresh(ControllerHears(net, k, h))
  {
    AfterFresh(net.ctlReader, h.left);
  }

  lemma StepControllerFresh(net: Net, a: Action)
    requires ControllerFresh(net) && Enabled(net, a) && (a.ControllerPolls? ==> |a.ready| <= 1)
    ensures ControllerFresh(Apply(net, a))
  {
    match a
    case ControllerReads(k) =>
      FirstIsClean(net.up[k]);
      ControllerHearsFresh(TakeUp(net, k), k, HearingOf(net, a).value);
    case _ =>
  }

  lemma {:induction false} RunControllerFresh(s: Net, acts: seq<Action>, t: Net)
    requires ControllerFresh(s) && Run(s, acts, t) && forall a | a in acts :: a.ControllerPolls? ==> |a.ready| <= 1
    ensures ControllerFresh(t)
    decreases |acts|
  {
    if acts != [] {
      var n := |acts| - 1;
      var m :| Run(s, acts[..n], m) && Step(m, acts[n], t);
      RunControllerFresh(s, acts[..n], m);
      StepControllerFresh(m, acts[n]);
    }
  }

  /** When no pass of the controller finds more than one connection ready, it misreads nothing,
      whatever happens at the switches. */
  lemma OneConnectionPerPass(cfgs: seq<Config>, acts: seq<Action>, t: Net)
    requires Run(Init(cfgs), acts, t) && forall a | a in acts :: a.ControllerPolls? ==> |a.ready| <= 1
    ensures !t.misread && (!t.overrun ==> CleanlyReachable(cfgs, t))
  {
    RunControllerFresh(Init(cfgs), acts, t);
  }

  ghost predicate FreshInv(net: Net) {
    && ControllerFresh(net) && !net.garbled && !net.overrun
    && forall k | 0 <= k < |net.readers| :: Fresh(net.readers[k])
  }

  lemma SwitchHearsFresh(net: Net, k: nat, i: int32, h: Hearing)
    requires Shape(net) && k < |net.sws| && FreshInv(net) && h.clean && h.packet.Some?
    ensures FreshInv(SwitchHears(net, k, i, h))
  {
    AfterFresh(net.readers[k], h.left);
  }

  lemma StepFresh(net: Net, a: Action)
    requires FreshInv(net) && Enabled(net, a) && SinglePoll(a)
    ensures FreshInv(Apply(net, a))
  {
    StepControllerFresh(net, a);
    match a
    case ControllerReads(k) => ControllerReadFresh(net, k);
    case SwitchReads(k) =>
      FirstIsClean(net.down[k]);
      SwitchHearsFresh(TakeDown(net, k), k, CONTROL, HearingOf(net, a).value);
    case RelayArrives(k, port, n) =>
      var src, dst := net.sws[k].cfg.Neighbour(port), net.sws[k].cfg.id;
      FirstIsClean(Waiting(net.air, src, dst)[..n]);
      SwitchHearsFresh(TakeRelays(net, src, dst, n), k, port, HearingOf(net, a).value);
    case _ =>
  }

  lemma ControllerReadFresh(net: Net, k: nat)
    requires FreshInv(net) && Enabled(net, ControllerReads(k))
    ensures FreshInv(Apply(net, ControllerReads(k)))
  {
    StepControllerFresh(net, ControllerReads(k));
    FirstIsClean(net.up[k]);
    ControllerRemembers(TakeUp(net, k), k, HearingOf(net, ControllerReads(k)).value);
    assert Apply(net, ControllerReads(k)).readers == net.readers;
  }

  lemma {:induction false} RunFresh(s: Net, acts: seq<Action>, t: Net)
    requires FreshInv(s) && Run(s, acts, t) && forall a | a in acts :: SinglePoll(a)
    ensures FreshInv(t)
    decreases |acts|
  {
    if acts != [] {
      var n := |acts| - 1;
      var m :| Run(s, acts[..n], m) && Step(m, acts[n], t);
      RunFresh(s, acts[..n], m);
      StepFresh(m, acts[n]);
    }
  }

  /** When no pass at all finds more than one descriptor ready, every packet comes through. */
  lemma OneReadPerPass(cfgs: seq<Config>, acts: seq<Action>, t: Net)
    requires Run(Init(cfgs), acts, t) && forall a | a in acts :: SinglePoll(a)
    ensures CleanlyReachable(cfgs, t) && !t.garbled
  {
    RunFresh(Init(cfgs), acts, t);
  }

  // ---------------------------------------------------------------- waiting for ever

  /** The controller has dropped a query of switch k, which is still running. */
  predicate Stalled(t: Net, k: nat) { k < |t.sws| && t.sws[k].Running() && k + 1 in t.ctl.unanswered }

  lemma DroppedStays(c: ControllerState, slot: nat, q: Packet, k: nat)
    requires k in c.unanswered
    ensures k in HandlePacket(c, slot, q).ctl.unanswered
  {
  }

  lemma ControllerHearsStalls(net: Net, k: nat, j: nat, h: Hearing)
    requires Shape(net) && Stalled(net, k) && j < |net.sws|
    ensures var t := ControllerHears(net, j, h); Stalled(t, k) && t.sws == net.sws
  {
    if h.packet.Some? { DroppedStays(net.ctl, j + 1, h.packet.value, k + 1); }
  }

  /** A stalled switch waits for an ADD, and nothing is on its way: it can only read RELAYs. */
  lemma StepStalls(net: Net, cfgs: seq<Config>, k: nat, a: Action)
    requires Sound(net, cfgs) && Stalled(net, k) && Enabled(net, a) && !Apply(net, a).overrun
    ensures var t := Apply(net, a); Stalled(t, k) && t.sws[k].counts.admit == net.sws[k].counts.admit
  {
    var q := HeardFits(net, a);
    StepChanges(net, a, q);
    assert SoundAt(net, cfgs, k);
    match a
    case ControllerReads(j) => ControllerHearsStalls(TakeUp(net, j), k, j, HearingOf(net, a).value);
    case RelayArrives(j, port, n) => if j == k { RelayStalls(net.sws[k], port, q, net.pipes); }
    case _ =>
  }

  lemma RelayStalls(sw: SwitchState, port: int32, q: Packet, pipes: set<Pipe>)
    requires q.Relay?
    ensures var t := Receive(sw, port, q, pipes).sw; t.exit == sw.exit && t.counts.admit == sw.counts.admit
  {
  }

  /** A switch whose query was dropped waits for ever, and never reads another traffic line. */
  lemma {:induction false} StalledForever(cfgs: seq<Config>, s: Net, acts: seq<Action>, t: Net, k: nat)
    requires Sound(s, cfgs) && Stalled(s, k) && Run(s, acts, t) && !t.overrun
    ensures Stalled(t, k) && t.sws[k].counts.admit == s.sws[k].counts.admit
    decreases |acts|
  {
    if acts != [] {
      var n := |acts| - 1;
      var m :| Run(s, acts[..n], m) && Step(m, acts[n], t);
      HistoryStays(m, acts[n]);
      RunSound(s, acts[..n], m, cfgs);
      StalledForever(cfgs, s, acts[..n], m, k);
      StepStalls(m, cfgs, k, acts[n]);
    }
  }

  // ---------------------------------------------------------------- a run in which a query is misread

  function Pair(): seq<Config> { [Config(1, NULL_PORT, 2, 0, 99), Config(2, 1, NULL_PORT, 100, 199)] }

  lemma NumbersInText()
    ensures Digits(1) == "1" && Digits(500) == "500" && Digits(1000) == "1000"
  {
    assert Digits(5) == "5" && Digits(50) == "50";
    assert Digits(10) == "10" && Digits(100) == "100";
  }

  lemma QueriesInText()
    ensures Print(Query(1000, 1000)) == "QUERY:1000,1000" && Print(Query(1, 500)) == "QUERY:1,500"
  {
    NumbersInText();
    assert Join([1000, 1000]) == "1000,1000";
    assert Join([1, 500]) == "1,500";
  }

  /** Read after "QUERY:1000,1000", "QUERY:1,500" is taken for a query about address 5001000. */
  lemma SecondQueryMisread()
    ensures var h := Read("QUERY:1000,1000", [Query(1, 500)]); !h.clean && h.packet == Some(Query(1, 5001000))
  {
    QueriesInText();
    var left, ps := "QUERY:1000,1000", [Query(1, 500)];
    assert Text(ps) == Print(ps[0]) + Text([]) == "QUERY:1,500";
    assert Behind(left, ps) == "1000";
    DigitsOfTail();
    SeenIsBehind(left, ps);
    ReadBehind(ps[0], "1000");
    ReadIs(left, ps);
  }

  lemma DigitsOfTail()
    ensures LeadingDigits("1000") == "1000" && Widen(500, "1000") == 5001000
  {
    assert DigitRun("1000") == 4 by {
      assert "1000"[1..] == "000" && "000"[1..] == "00" && "00"[1..] == "0" && "0"[1..] == "";
      assert DigitRun("0") == 1 && DigitRun("00") == 2 && DigitRun("000") == 3;
    }
    assert "1000"[..3] == "100" && "100"[..2] == "10" && "10"[..1] == "1" && "1"[..0] == "";
    assert Shift(500, "1") == 5001 && Shift(500, "10") == 50010 && Shift(500, "100") == 500100;
  }

  /** Each of the first two switches has sent a query. */
  lemma BothAsk(cfgs: seq<Config>, p: Packet, q: Packet) returns (t: Net)
    requires |cfgs| >= 2 && p.Query? && q.Query? && !cfgs[0].Owns(p.destIp) && !cfgs[1].Owns(q.destIp)
    requires ValidIp(p.srcIp) && ValidIp(p.destIp) && ValidIp(q.srcIp) && ValidIp(q.destIp)
    ensures Settled(cfgs, t) && |t.sws| == |cfgs| && t.up[0] == [p] && t.up[1] == [q] && t.sws[1].Running()
  {
    var s := ConnectUpTo(cfgs, |cfgs|);
    assert Member(cfgs, s, |cfgs|, 0) && Member(cfgs, s, |cfgs|, 1);
    var a := AskFor(cfgs, s, 0, p);
    t := AskFor(cfgs, a, 1, q);
  }

  lemma AskFor(cfgs: seq<Config>, s: Net, k: nat, p: Packet) returns (t: Net)
    requires Settled(cfgs, s) && k < |s.sws| == |cfgs| && s.sws[k] == Joined(cfgs[k]) && s.up[k] == []
    requires p.Query? && !cfgs[k].Owns(p.destIp) && ValidIp(p.srcIp) && ValidIp(p.destIp)
    ensures Settled(cfgs, t) && t.up == s.up[k := [p]] && |t.sws| == |s.sws| && t.sws[k].Running()
    ensures forall j: nat | j < |s.sws| && j != k :: t.sws[j] == s.sws[j]
  {
    NotOwned(cfgs[k], p.srcIp, p.destIp, s.pipes);
    t := GoAdmit(cfgs, s, k, p.srcIp, p.destIp);
    assert [] + [p] == [p];
  }

  lemma NotOwned(cfg: Config, srcIp: int32, ip: int32, pipes: set<Pipe>)
    requires !cfg.Owns(ip)
    ensures var r := Admit(Joined(cfg), srcIp, ip, pipes);
            r.out == Some(ToController(Query(srcIp, ip))) && r.sw.Running()
  {
    FirstMatchIs(Joined(cfg).flowTable, ip, 1);
  }

  /** The controller finds both slots ready, hears one query and then, in the same pass, the other. */
  lemma BothHeard(cfgs: seq<Config>, a: Net, p: Packet, q: Packet, second: Hearing) returns (t: Net)
    requires Settled(cfgs, a) && |a.sws| >= 2 && a.up[0] == [p] && a.up[1] == [q] && a.sws[1].Running()
    requires second == Read(Print(p), [q]) && second.packet.Some? && !second.clean
    ensures Reachable(cfgs, t) && t.misread && !t.overrun && |t.sws| == |a.sws| && t.sws[1].Running()
    ensures second.packet.value.Query? && !ValidIp(second.packet.value.destIp) ==> 2 in t.ctl.unanswered
  {
    var b := PollBoth(cfgs, a);
    var c := HearFirst(cfgs, b, p, q);
    t := HearSecond(cfgs, c, q, second);
  }

  lemma PollBoth(cfgs: seq<Config>, a: Net) returns (b: Net)
    requires Settled(cfgs, a) && |a.sws| >= 2 && a.up[0] != [] && a.up[1] != []
    ensures Reachable(cfgs, b) && b == a.(ctlReader := Reader("", [1, 2]))
  {
    BothReady(a);
    b := Go(cfgs, a, ControllerPolls([1, 2]));
  }

  lemma BothReady(a: Net)
    requires Shape(a) && Resting(a) && |a.sws| >= 2 && a.up[0] != [] && a.up[1] != []
    ensures Enabled(a, ControllerPolls([1, 2]))
  {
    forall i | i in [1, 2] ensures 1 <= i <= |a.up| && a.up[i - 1] != [] { assert i == 1 || i == 2; }
  }

  lemma GoHear(cfgs: seq<Config>, s: Net, k: nat, p: Packet, h: Hearing) returns (t: Net)
    requires Reachable(cfgs, s) && Shape(s) && k < |s.sws| && s.ctlReader.Due(k + 1) && s.up[k] == [p]
    requires h == Read(s.ctlReader.left, [p])
    ensures Reachable(cfgs, t) && t == ControllerHears(TakeUp(s, k), k, h)
  {
    t := Go(cfgs, s, ControllerReads(k));
  }

  lemma FirstLeaves(p: Packet)
    ensures var h := Read("", [p]); h.left == Print(p) && h.clean && h.packet == Some(p)
  {
    FirstIsClean([p]);
    TextOfOne(p);
  }

  lemma HearFirst(cfgs: seq<Config>, b: Net, p: Packet, q: Packet) returns (c: Net)
    requires Reachable(cfgs, b) && Shape(b) && |b.sws| >= 2 && b.ctlReader == Reader("", [1, 2])
    requires b.up[0] == [p] && b.up[1] == [q] && !b.overrun
    ensures Reachable(cfgs, c) && Shape(c) && c.sws == b.sws && c.up[1] == [q]
    ensures c.ctlReader == Reader(Print(p), [2]) && !c.overrun
  {
    FirstLeaves(p);
    FirstEffect(b, Read("", [p]));
    c := GoHear(cfgs, b, 0, p, Read("", [p]));
  }

  lemma FirstEffect(b: Net, h: Hearing)
    requires Shape(b) && |b.sws| >= 2 && b.ctlReader.ready == [1, 2] && h.packet.Some?
    ensures var c := ControllerHears(TakeUp(b, 0), 0, h);
            && Shape(c) && c.sws == b.sws && c.up[1] == b.up[1] && c.ctlReader == Reader(h.left, [2])
            && c.overrun == b.overrun
  {
  }

  lemma HearSecond(cfgs: seq<Config>, c: Net, q: Packet, h: Hearing) returns (t: Net)
    requires Reachable(cfgs, c) && Shape(c) && |c.sws| >= 2 && c.up[1] == [q]
    requires c.ctlReader.ready == [2] && !c.overrun
    requires h == Read(c.ctlReader.left, [q]) && h.packet.Some? && !h.clean
    ensures Reachable(cfgs, t) && !t.overrun && t.misread && t.sws == c.sws
    ensures h.packet.value.Query? && !ValidIp(h.packet.value.destIp) ==> 2 in t.ctl.unanswered
  {
    SecondEffect(c, h);
    t := GoHear(cfgs, c, 1, q, h);
  }

  lemma SecondEffect(c: Net, h: Hearing)
    requires Shape(c) && |c.sws| >= 2 && h.packet.Some? && !h.clean
    ensures var t := ControllerHears(TakeUp(c, 1), 1, h);
            && t.sws == c.sws && t.misread && t.overrun == c.overrun
            && (h.packet.value.Query? && !ValidIp(h.packet.value.destIp) ==> 2 in t.ctl.unanswered)
  {
  }

  lemma MisreadRun() returns (t: Net)
    ensures Reachable(Pair(), t) && !t.overrun && t.misread && Stalled(t, 1)
  {
    var p, q := Query(1000, 1000), Query(1, 500);
    var a := BothAsk(Pair(), p, q);
    QueriesInText();
    SecondQueryMisread();
    t := BothHeard(Pair(), a, p, q, Read("QUERY:1000,1000", [q]));
  }

  lemma PairIsChain()
    ensures LinearChain(Pair()) && DisjointRanges(Pair())
  {
    assert HasId(Pair(), 1) by { assert Pair()[0].id == 1; }
    assert HasId(Pair(), 2) by { assert Pair()[1].id == 2; }
  }

  /** Two switches with disjoint ranges, each on its own slot, all OPENs handled first: and yet a query
      is dropped as invalid when it is read in the same pass as a longer one, and its switch waits for ever. */
  lemma MisreadStalls()
    ensures LinearChain(Pair()) && DisjointRanges(Pair())
    ensures exists s :: Reachable(Pair(), s) && !s.overrun && Stalled(s, 1) &&
                        forall acts, t :: Run(s, acts, t) && !t.overrun ==>
                          Stalled(t, 1) && t.sws[1].counts.admit == s.sws[1].counts.admit
  {
    PairIsChain();
    var s := MisreadRun();
    ReachableSound(Pair(), s);
    forall acts, t | Run(s, acts, t) && !t.overrun
      ensures Stalled(t, 1) && t.sws[1].counts.admit == s.sws[1].counts.admit
    {
      StalledForever(Pair(), s, acts, t, 1);
    }
  }

  // ---------------------------------------------------------------- which networks can misread

  lemma {:induction false} DigitsStart(n: nat)
    requires n > 0
    ensures Digits(n)[0] != '0'
  {
    if n >= 10 { DigitsStart(n / 10); }
  }

  lemma ShortNumbers(n: nat)
    requires n < 1000
    ensures |Digits(n)| == if n < 10 then 1 else if n < 100 then 2 else 3
  {
  }

  /** What is behind a query read over a query from address 1000 whose text is longer. */
  lemma BehindQuery(d1: int32, q: Packet)
    requires q.Query? && d1 >= 0
    ensures Print(Query(1000, d1)) == "QUERY:1000," + ToString(d1)
    ensures Behind(Print(Query(1000, d1)), [q]) == Tail(Print(Query(1000, d1)), |Print(q)|)
    ensures |Print(q)| == 7 + |ToString(q.srcIp)| + |ToString(q.destIp)|
  {
    NumbersInText();
    TextOfOne(q);
    assert [q][1..] == [];
    assert Fields(q)[1..] == [q.destIp];
    assert Fields(Query(1000, d1))[1..] == [d1];
    assert Join([d1]) == ToString(d1) && Join([q.destIp]) == ToString(q.destIp);
    assert Join(Fields(Query(1000, d1))) == "1000" + ("," + ToString(d1));
    assert Join(Fields(q)) == ToString(q.srcIp) + ("," + ToString(q.destIp));
  }

  /** A query about d2, from an address chosen for its length, read over one about d1. */
  lemma MisreadShort(d1: int32, d2: int32) returns (q: Packet)
    requires ValidIp(d1) && 0 <= d2 < 1000 && d1 != d2
    ensures q.Query? && ValidIp(q.srcIp) && q.destIp == d2 && !Clean(Print(Query(1000, d1)), [q])
  {
    q := Query(if d2 < 10 then 100 else if d2 < 100 then 10 else 1, d2);
    ElevenLetters(q);
    BehindQuery(d1, q);
    var left := Print(Query(1000, d1));
    assert left[11..] == Digits(d1);
    if d1 > 0 { DigitsStart(d1); }
  }

  lemma ElevenLetters(q: Packet)
    requires q.Query? && 0 <= q.destIp < 1000
    requires q.srcIp == if q.destIp < 10 then 100 else if q.destIp < 100 then 10 else 1
    ensures |ToString(q.srcIp)| + |ToString(q.destIp)| == 4
  {
    ShortNumbers(q.srcIp);
    ShortNumbers(q.destIp);
  }

  lemma MisreadLong() returns (q: Packet)
    ensures q == Query(1, 1000) && !Clean(Print(Query(1000, 10)), [q])
  {
    q := Query(1, 1000);
    NumbersInText();
    BehindQuery(10, q);
    assert Digits(10) == "10";
    assert ("QUERY:1000," + "10")[12..] == "0";
  }

  /** With two switches, the controller can misread the query of the second. */
  lemma CanMisread(cfgs: seq<Config>) returns (t: Net)
    requires DisjointRanges(cfgs) && |cfgs| >= 2
    ensures Reachable(cfgs, t) && t.misread
  {
    assert RangesApart(cfgs[0], cfgs[1]);
    var d2 := cfgs[0].ipLow;
    var d1 := if d2 == 1000 then 10 else cfgs[1].ipLow;
    var q;
    if d2 == 1000 { q := MisreadLong(); } else { q := MisreadShort(d1, d2); }
    var a := BothAsk(cfgs, Query(1000, d1), q);
    t := MisreadBoth(cfgs, a, Query(1000, d1), q);
  }

  lemma MisreadBoth(cfgs: seq<Config>, a: Net, p: Packet, q: Packet) returns (t: Net)
    requires Settled(cfgs, a) && |a.sws| >= 2 && a.up[0] == [p] && a.up[1] == [q] && !Clean(Print(p), [q])
    ensures Reachable(cfgs, t) && t.misread
  {
    var b := PollBoth(cfgs, a);
    var c := HearFirst(cfgs, b, p, q);
    t := GoHear(cfgs, c, 1, q, Read(Print(p), [q]));
    ControllerRemembers(TakeUp(c, 1), 1, Read(Print(p), [q]));
  }

  /** A lone switch has nobody to forward to, and one descriptor to read. */
  ghost predicate AloneInv(net: Net, cfgs: seq<Config>) { Inv(net, cfgs) && FreshInv(net) && net.air == [] }

  lemma TwoReady(ready: seq<int>)
    requires Ascending(ready) && |ready| >= 2
    ensures ready[0] in ready && ready[1] in ready && ready[0] < ready[1]
  {
  }

  lemma AlonePollsOne(net: Net, cfgs: seq<Config>, a: Action)
    requires |cfgs| <= 1 && AloneInv(net, cfgs) && Enabled(net, a)
    ensures SinglePoll(a)
  {
    match a
    case ControllerPolls(ready) => if |ready| >= 2 { TwoReady(ready); }
    case SwitchPolls(k, ready) => if |ready| >= 2 { TwoReady(ready); }
    case _ =>
  }

  lemma AloneWritesNothing(net: Net, cfgs: seq<Config>, a: Action)
    requires |cfgs| <= 1 && AloneInv(net, cfgs) && Enabled(net, a) && !Apply(net, a).overrun
    ensures Apply(net, a).air == []
  {
    match a
    case AdmitLine(k, srcIp, destIp) => var m, rule, counted := AdmitForwards(net, cfgs, k, srcIp, destIp);
    case SwitchReads(k) => AloneReads(net, cfgs, k);
    case ControllerReads(k) => ControllerTouchesNot(TakeUp(net, k), k, HearingOf(net, a).value);
    case _ =>
  }

  lemma AloneReads(net: Net, cfgs: seq<Config>, k: nat)
    requires |cfgs| <= 1 && AloneInv(net, cfgs) && Enabled(net, SwitchReads(k)) && !Apply(net, SwitchReads(k)).overrun
    ensures Apply(net, SwitchReads(k)).air == []
  {
    var q := HeardFits(net, SwitchReads(k));
    var m := AddForwards(net, cfgs, k, q);
    AloneControl(TakeDown(net, k), k, HearingOf(net, SwitchReads(k)).value, q);
  }

  lemma AloneControl(net: Net, k: nat, h: Hearing, q: Packet)
    requires Shape(net) && k < |net.sws| && net.air == [] && h.packet == Some(q) && (q.Ack? || (q.Add? && q.action == 0))
    ensures SwitchHears(net, k, CONTROL, h).air == []
  {
  }

  lemma {:induction false} RunAlone(s: Net, acts: seq<Action>, t: Net, cfgs: seq<Config>)
    requires |cfgs| <= 1 && AloneInv(s, cfgs) && Run(s, acts, t)
    ensures AloneInv(t, cfgs)
    decreases |acts|
  {
    if acts != [] {
      var n := |acts| - 1;
      var m :| Run(s, acts[..n], m) && Step(m, acts[n], t);
      RunAlone(s, acts[..n], m, cfgs);
      AlonePollsOne(m, cfgs, acts[n]);
      StepFresh(m, acts[n]);
      AloneWritesNothing(m, cfgs, acts[n]);
      StepKeepsInv(m, cfgs, acts[n]);
    }
  }

  /** For disjoint ranges, a packet can be misread, and one can be misread by the controller, exactly
      when there are two switches or more. */
  lemma MisreadExactly(cfgs: seq<Config>)
    requires DisjointRanges(cfgs)
    ensures (exists t :: Reachable(cfgs, t) && t.misread) <==> |cfgs| >= 2
    ensures (exists t :: Reachable(cfgs, t) && (t.misread || t.garbled || t.overrun)) <==> |cfgs| >= 2
  {
    if |cfgs| >= 2 {
      var t := CanMisread(cfgs);
    } else {
      forall t | Reachable(cfgs, t) ensures !t.misread && !t.garbled && !t.overrun {
        var acts :| Run(Init(cfgs), acts, t);
        InitInv(cfgs);
        RunAlone(Init(cfgs), acts, t, cfgs);
      }
    }
  }
}
