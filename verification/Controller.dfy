/** The controller of test2/controller.cpp: OPEN registration, QUERY lookup and relay-port choice. */
module Controller {
  import opened Decimal
  import opened Packets
  import opened Switch

  datatype ControllerCounts = ControllerCounts(open: nat, query: nat, add: nat, ack: nat)

  datatype ControllerState = ControllerState(
    infoTable: seq<Config>, idToFd: set<nat>, counts: ControllerCounts,
    slots: seq<nat>, // history: which connection registered each entry of the table
    lateOpen: bool,  // history: an OPEN was handled after a QUERY
    unanswered: set<nat>) // history: connections on which a QUERY was dropped as invalid

  /** What the controller tells a switch to do with a destination. */
  datatype Decision = DropIt | ForwardTo(port: int32, low: int32, high: int32)

  datatype Answer = Answer(ctl: ControllerState, out: Option<Packet>)

  function ControllerBoot(): ControllerState {
    ControllerState([], {}, ControllerCounts(0, 0, 0, 0), [], false, {})
  }

  /** Index of the first registered range that holds `ip`, or the length of the table. */
  function FirstOwner(table: seq<Config>, ip: int32): (k: nat)
    ensures k <= |table|
    ensures k < |table| ==> table[k].Owns(ip)
    ensures forall i | 0 <= i < k :: !table[i].Owns(ip)
  {
    if table == [] || table[0].Owns(ip) then 0 else 1 + FirstOwner(table[1..], ip)
  }

  /** Towards higher ids by port 2, otherwise by port 1. */
  function RelayPort(ownerId: int32, slot: nat): int32 { if ownerId > slot then 2 else 1 }

  function Decide(table: seq<Config>, slot: nat, destIp: int32): Decision {
    var k := FirstOwner(table, destIp);
    if k < |table| then ForwardTo(RelayPort(table[k].id, slot), table[k].ipLow, table[k].ipHigh)
    else DropIt
  }

  function HandleOpen(c: ControllerState, slot: nat, info: Config): Answer {
    Answer(c.(infoTable := c.infoTable + [info], idToFd := c.idToFd + {slot},
              counts := c.counts.(open := c.counts.open + 1, ack := c.counts.ack + 1),
              slots := c.slots + [slot], lateOpen := c.lateOpen || c.counts.query > 0),
           Some(Ack))
  }

  predicate ValidIp(ip: int) { 0 <= ip <= MAX_IP }

  function AddFor(d: Decision, srcIp: int32, destIp: int32): Packet {
    match d
    case DropIt => Add(0, destIp, destIp, 0, srcIp)
    case ForwardTo(port, low, high) => Add(1, low, high, port, srcIp)
  }

  /** A QUERY with an address out of range is counted and left unanswered.  An answer goes to the
      descriptor registered for the slot, if there is one. */
  function HandleQuery(c: ControllerState, slot: nat, srcIp: int32, destIp: int32): Answer {
    var counted := c.(counts := c.counts.(query := c.counts.query + 1));
    if !ValidIp(srcIp) || !ValidIp(destIp) then Answer(counted.(unanswered := c.unanswered + {slot}), None)
    else
      Answer(counted.(counts := counted.counts.(add := c.counts.add + 1)),
             if slot in c.idToFd then Some(AddFor(Decide(c.infoTable, slot, destIp), srcIp, destIp)) else None)
  }

  /** Every other packet type is ignored. */
  function HandlePacket(c: ControllerState, slot: nat, p: Packet): Answer {
    match p
    case Open(id, port1Id, port2Id, ipLow, ipHigh) => HandleOpen(c, slot, Config(id, port1Id, port2Id, ipLow, ipHigh))
    case Query(srcIp, destIp) => HandleQuery(c, slot, srcIp, destIp)
    case _ => Answer(c, None)
  }

  /** Whatever the controller answers to a QUERY covers the address that was asked for. */
  lemma AnswerCovers(c: ControllerState, slot: nat, srcIp: int32, destIp: int32)
    requires ValidIp(srcIp) && ValidIp(destIp) && slot in c.idToFd
    ensures var p := HandleQuery(c, slot, srcIp, destIp).out;
            p.Some? && p.value.Add? && p.value.addLow <= destIp <= p.value.addHigh && p.value.addSrc == srcIp
  {
  }

  /** Registering another switch leaves every forwarding decision as it was. */
  lemma {:induction false} DecisionStays(table: seq<Config>, more: Config, slot: nat, destIp: int32)
    requires Decide(table, slot, destIp).ForwardTo?
    ensures Decide(table + [more], slot, destIp) == Decide(table, slot, destIp)
  {
    FirstOwnerIs(table + [more], destIp, FirstOwner(table, destIp));
  }

  lemma FirstOwnerIs(table: seq<Config>, ip: int32, k: nat)
    requires k <= |table| && (k < |table| ==> table[k].Owns(ip))
    requires forall i | 0 <= i < k :: !table[i].Owns(ip)
    ensures FirstOwner(table, ip) == k
  {
  }

  /** The variables of `controllerLoop`, updated in place. */
  class ControllerLoop {
    var switchInfoTable: seq<Config>
    var idToFd: set<nat>
    var counts: ControllerCounts
    ghost var slots: seq<nat>
    ghost var lateOpen: bool
    ghost var unanswered: set<nat>

    ghost function View(): ControllerState
      reads this
    {
      ControllerState(switchInfoTable, idToFd, counts, slots, lateOpen, unanswered)
    }

    constructor ()
      ensures View() == ControllerBoot()
    {
      switchInfoTable, idToFd, counts := [], {}, ControllerCounts(0, 0, 0, 0);
      slots, lateOpen, unanswered := [], false, {};
    }

    method ReceiveOpen(slot: nat, info: Config) returns (out: Option<Packet>)
      modifies this
      ensures Answer(View(), out) == HandleOpen(old(View()), slot, info)
    {
      counts := counts.(open := counts.open + 1);
      lateOpen := lateOpen || counts.query > 0;
      switchInfoTable := switchInfoTable + [info];
      slots := slots + [slot];
      idToFd := idToFd + {slot};
      out := Some(Ack);
      counts := counts.(ack := counts.ack + 1);
    }

    method ReceiveQuery(slot: nat, srcIp: int32, destIp: int32) returns (out: Option<Packet>)
      modifies this
      ensures Answer(View(), out) == HandleQuery(old(View()), slot, srcIp, destIp)
    {
      counts := counts.(query := counts.query + 1);
      out := None;
      if srcIp > MAX_IP || srcIp < 0 {
        unanswered := unanswered + {slot};
        return;
      }
      if destIp > MAX_IP || destIp < 0 {
        unanswered := unanswered + {slot};
        return;
      }
      var found := false;
      var k := 0;
      while k < |switchInfoTable|
        invariant 0 <= k <= |switchInfoTable| && !found && out == None
        invariant forall i | 0 <= i < k :: !switchInfoTable[i].Owns(destIp)
      {
        var info := switchInfoTable[k];
        if destIp >= info.ipLow && destIp <= info.ipHigh {
          FirstOwnerIs(switchInfoTable, destIp, k);
          found := true;
          var relayPort := 0;
          if info.id > slot {
            relayPort := 2;
          } else {
            relayPort := 1;
          }
          if slot in idToFd {
            out := Some(Add(1, info.ipLow, info.ipHigh, relayPort, srcIp));
          }
          break;
        }
        k := k + 1;
      }
      if !found && slot in idToFd {
        out := Some(Add(0, destIp, destIp, 0, srcIp));
      }
      counts := counts.(add := counts.add + 1);
    }
  }
}
