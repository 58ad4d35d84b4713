/** The variables of `switchLoop` in test2/switch.cpp, updated in place. */
module SwitchProcess {
  import opened Decimal
  import opened Packets
  import opened Switch

  lemma AdmitBooks(sw: SwitchState, srcIp: int32, destIp: int32, pipes: set<Pipe>)
    ensures var t := Admit(sw, srcIp, destIp, pipes).sw;
            Accounted(sw) && sw.addReceived && sw.Running() && t.Running() ==> Accounted(t)
  {
    if Accounted(sw) && sw.addReceived && sw.Running() { AdmitAccounted(sw, srcIp, destIp, pipes); }
  }

  lemma AddBooks(sw: SwitchState, action: int32, low: int32, high: int32, port: int32, srcIp: int32, pipes: set<Pipe>)
    ensures var t := HandleAdd(sw, action, low, high, port, srcIp, pipes).sw;
            Accounted(sw) && !sw.addReceived && sw.Running() && t.Running() ==>
              (Accounted(t) <==> action == 0 || (action == 1 && port != 3))
  {
    if Accounted(sw) && !sw.addReceived && sw.Running() { AddAccounted(sw, action, low, high, port, srcIp, pipes); }
  }

  lemma ReceiveBooks(sw: SwitchState, i: int32, p: Packet, pipes: set<Pipe>)
    requires sw.Running()
    ensures var t := Receive(sw, i, p, pipes).sw;
            Accounted(sw) && t.Running() && (p.Add? ==> !sw.addReceived) ==>
              (Accounted(t) <==> p.Add? ==> p.action == 0 || (p.action == 1 && p.relayPort != 3))
  {
    if Accounted(sw) && (p.Add? ==> !sw.addReceived) {
      match p
      case Ack => SameBooks(sw, HandleAck(sw));
      case Add(action, low, high, port, srcIp) => AddAccounted(sw, action, low, high, port, srcIp, pipes);
      case Relay(srcIp, destIp) => RelayAccounted(sw, i, srcIp, destIp);
      case _ =>
    }
  }

  class SwitchLoop {
    const cfg: Config
    var flowTable: seq<FlowRule>
    var counts: Counts
    var portToFd: map<int32, Descriptor>
    var ackReceived: bool
    var addReceived: bool
    var pipesMade: nat
    var exit: Option<Exit>
    ghost var admitted: seq<Header>
    ghost var queried: seq<int32>
    ghost var reRelayed: nat

    ghost function View(): SwitchState
      reads this
    {
      SwitchState(cfg, flowTable, counts, portToFd, ackReceived, addReceived, pipesMade, exit, admitted, queried, reRelayed)
    }

    constructor (c: Config)
      ensures View() == Boot(c) && Accounted(View())
    {
      cfg := c;
      flowTable := [FlowRule(0, MAX_IP, c.ipLow, c.ipHigh, Forward, 3, MIN_PRI, 0)];
      counts := Counts(0, 0, 0, 0, 0, 0, 0);
      portToFd := map[0 := ControllerSocket];
      ackReceived, addReceived, pipesMade, exit := false, true, 0, None;
      admitted, queried, reRelayed := [], [], 0;
      new;
      BootAccounted(c);
    }

    method TransmitOpen() returns (out: Option<Output>)
      modifies this
      ensures Reaction(View(), out) == SendOpen(old(View()))
      ensures Accounted(old(View())) ==> Accounted(View())
    {
      out := Some(ToController(Open(cfg.id, cfg.port1Id, cfg.port2Id, cfg.ipLow, cfg.ipHigh)));
      counts := counts.(open := counts.open + 1);
    }

    /** Port 1's reading FIFO is created and opened, or port 2's; `made` is the FIFO that now has a reader. */
    method CreateFifo() returns (made: set<Pipe>)
      requires pipesMade < 2
      modifies this
      ensures View() == MakePipe(old(View())) && made == PipeMade(old(View()))
      ensures Accounted(old(View())) ==> Accounted(View())
    {
      made := {};
      if pipesMade == 0 {
        if cfg.port1Id != NULL_PORT { made := {Pipe(cfg.port1Id, cfg.id)}; }
      } else {
        if cfg.port2Id != NULL_PORT { made := {Pipe(cfg.port2Id, cfg.id)}; }
      }
      pipesMade := pipesMade + 1;
    }

    method Transmit(port: int32, packet: Packet) returns (out: Option<Output>)
      requires port in portToFd
      ensures out == Write(View(), port, packet)
    {
      match portToFd[port] {
        case Fifo => out := Some(ToPort(port, packet));
        case Zero => out := Some(ToDescriptorZero(packet));
        case ControllerSocket => out := Some(ToController(packet));
      }
    }

    /** Forwarding out of a port, shared by a table hit and an ADD; `pipes` are the FIFOs that have a reader. */
    method SendRelay(port: int32, packet: Packet, pipes: set<Pipe>) returns (out: Option<Output>)
      modifies this
      ensures Reaction(View(), out) == ForwardOut(old(View()), port, packet, pipes)
    {
      if port !in portToFd {
        if cfg.Neighbour(port) == NULL_PORT {
          exit := Some(OnNullPort);
          return None;
        }
        if Pipe(cfg.id, cfg.Neighbour(port)) !in pipes {
          exit := Some(OnMissingReader);
          return None;
        }
        portToFd := portToFd[port := Fifo];
      }
      out := Transmit(port, packet);
      counts := counts.(relayOut := counts.relayOut + 1);
    }

    /** The packet matches rule `k`. */
    method Hit(k: nat, srcIp: int32, destIp: int32, pipes: set<Pipe>) returns (out: Option<Output>)
      requires k < |flowTable| && FirstMatch(flowTable, destIp) == k
      modifies this
      ensures var rule := old(flowTable)[k];
              var counted := old(View()).(flowTable := old(flowTable)[k := rule.(pktCount := rule.pktCount + 1)]);
              Reaction(View(), out) == if rule.Remote() then ForwardOut(counted, rule.actionVal, Relay(srcIp, destIp), pipes)
                                       else Reaction(counted, None)
    {
      out := None;
      var rule := flowTable[k];
      flowTable := flowTable[k := rule.(pktCount := rule.pktCount + 1)];
      if rule.actionType.Forward? && rule.actionVal != 3 {
        out := SendRelay(rule.actionVal, Relay(srcIp, destIp), pipes);
      }
    }

    /** The packet matches no rule: ask the controller and wait for its ADD. */
    method Miss(srcIp: int32, destIp: int32) returns (out: Option<Output>)
      modifies this
      ensures View() == old(View()).(addReceived := false, queried := old(queried) + [destIp],
                                     counts := old(counts).(query := old(counts).query + 1))
      ensures out == Some(ToController(Query(srcIp, destIp)))
    {
      out := Some(ToController(Query(srcIp, destIp)));
      addReceived := false;
      counts := counts.(query := counts.query + 1);
      queried := queried + [destIp];
    }

    /** The traffic step: scan the flow table in order, act on the first rule that matches, and
        query the controller when none does. */
    method AdmitPacket(srcIp: int32, destIp: int32, pipes: set<Pipe>) returns (out: Option<Output>)
      modifies this
      ensures Reaction(View(), out) == Admit(old(View()), srcIp, destIp, pipes)
    {
      counts := counts.(admit := counts.admit + 1);
      admitted := admitted + [Header(srcIp, destIp)];
      out := None;
      var found := false;
      var k := 0;
      while k < |flowTable|
        invariant 0 <= k <= |flowTable| && !found && out == None
        invariant View() == WithHeader(old(View()), Header(srcIp, destIp))
        invariant forall i | 0 <= i < k :: !flowTable[i].Matches(destIp)
      {
        var rule := flowTable[k];
        if destIp >= rule.destIpLow && destIp <= rule.destIpHigh {
          FirstMatchIs(flowTable, destIp, k);
          found := true;
          out := Hit(k, srcIp, destIp, pipes);
          break;
        }
        k := k + 1;
      }
      if !found {
        assert FirstMatch(flowTable, destIp) == |flowTable|;
        out := Miss(srcIp, destIp);
      }
    }

    /** A packet line of the traffic file, read while the switch waits for nothing; lines for other
        switches are skipped. */
    method HandlePacketLine(trafficId: int32, srcIp: int32, destIp: int32, pipes: set<Pipe>)
      returns (out: Option<Output>)
      requires exit.None? && ackReceived && addReceived
      modifies this
      ensures Reaction(View(), out) ==
              if cfg.id == trafficId then Admit(old(View()), srcIp, destIp, pipes) else Reaction(old(View()), None)
      ensures Accounted(old(View())) && exit.None? ==> Accounted(View())
    {
      out := None;
      if cfg.id == trafficId {
        AdmitBooks(View(), srcIp, destIp, pipes);
        out := AdmitPacket(srcIp, destIp, pipes);
      }
    }

    method ReceiveAck()
      modifies this
      ensures View() == HandleAck(old(View()))
      ensures Accounted(old(View())) ==> Accounted(View())
    {
      ackReceived := true;
      counts := counts.(ack := counts.ack + 1);
    }

    method ReceiveAdd(action: int32, low: int32, high: int32, port: int32, srcIp: int32, pipes: set<Pipe>)
      returns (out: Option<Output>)
      requires exit.None?
      modifies this
      ensures Reaction(View(), out) == HandleAdd(old(View()), action, low, high, port, srcIp, pipes)
      ensures Accounted(old(View())) && old(!addReceived) && exit.None? ==>
                (Accounted(View()) <==> action == 0 || (action == 1 && port != 3))
    {
      AddBooks(View(), action, low, high, port, srcIp, pipes);
      addReceived := true;
      out := None;
      if action == 1 {
        out := SendRelay(port, Relay(srcIp, low), pipes);
        if exit.Some? { return; }
      } else if action != 0 {
        return;
      }
      flowTable := flowTable + [FlowRule(0, MAX_IP, low, high, if action == 0 then Drop else Forward, port, MIN_PRI, 1)];
      counts := counts.(add := counts.add + 1);
    }

    method ReceiveRelay(port: int32, srcIp: int32, destIp: int32) returns (out: Option<Output>)
      modifies this
      ensures Reaction(View(), out) == HandleRelay(old(View()), port, srcIp, destIp)
      ensures !cfg.Owns(destIp) && cfg.id > port ==> out == Some(PassedTo(1, srcIp, destIp, old(portToFd)))
      ensures !cfg.Owns(destIp) && cfg.id < port ==> out == Some(PassedTo(2, srcIp, destIp, old(portToFd)))
      ensures cfg.Owns(destIp) || cfg.id == port ==> out == None
    {
      counts := counts.(relayIn := counts.relayIn + 1);
      out := None;
      if (destIp < cfg.ipLow || destIp > cfg.ipHigh) && cfg.id != port {
        out := PassOnRelay(if cfg.id > port then 1 else 2, srcIp, destIp);
      }
    }

    method PassOnRelay(port: int32, srcIp: int32, destIp: int32) returns (out: Option<Output>)
      modifies this
      ensures Reaction(View(), out) == PassOn(old(View()), port, srcIp, destIp)
    {
      if port !in portToFd {
        portToFd := portToFd[port := Zero];
      }
      out := Transmit(port, Relay(srcIp, destIp));
      counts := counts.(relayOut := counts.relayOut + 1);
      reRelayed := reRelayed + 1;
    }

    /** A packet read from descriptor `i`, by its type. */
    method ReceivePacket(i: int32, p: Packet, pipes: set<Pipe>) returns (out: Option<Output>)
      requires exit.None?
      modifies this
      ensures Reaction(View(), out) == Receive(old(View()), i, p, pipes)
      ensures Accounted(old(View())) && exit.None? && (p.Add? ==> !old(addReceived)) ==>
                (Accounted(View()) <==> p.Add? ==> p.action == 0 || (p.action == 1 && p.relayPort != 3))
    {
      out := None;
      ReceiveBooks(View(), i, p, pipes);
      match p {
        case Ack => ReceiveAck();
        case Add(action, low, high, port, srcIp) => out := ReceiveAdd(action, low, high, port, srcIp, pipes);
        case Relay(srcIp, destIp) => out := ReceiveRelay(i, srcIp, destIp);
        case _ =>
      }
    }
  }
}
