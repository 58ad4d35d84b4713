/** Any number of stop-and-wait clients (Assignment_3/client.cpp) and the transaction server as one
    transition system.  Which client is served next is up to `select` and the order of the slots,
    so every order is allowed. */
module TransactionSystem {
  import opened CStrings
  import opened Decimal
  import opened TransactionServer

  datatype ClientPc = NotConnected | Reading | Waiting | Closed

  /** The server's end of a connection.  A connection accepted while all slots are taken is dropped:
      its descriptor stays open but the server never looks at it again. */
  datatype Side = Unaccepted | Held(fd: int) | Dropped(fd: int) | Released

  datatype Client = Client(
    name: string, // host name and pid
    pc: ClientPc, input: seq<string>, total: nat,
    received: seq<int>, // history: the numbers in the replies received
    requests: seq<string>, replies: seq<string>, side: Side)

  /** A transaction: who asked, the number given, the line sent and the command the server saw. */
  datatype Entry = Entry(client: nat, number: nat, line: string, command: string)

  datatype System = System(clients: seq<Client>, server: ServerState, log: seq<Entry>)

  datatype Action =
    | Connect(c: nat)
    | Accept(c: nat, fd: int)
    | ReadLine(c: nat)
    | ServeClient(c: nat)
    | Receive(c: nat)
    | Close(c: nat)
    | Hangup(c: nat)

  function Init(master: int, names: seq<string>, inputs: seq<seq<string>>): System
    requires |names| == |inputs|
  {
    System(seq(|names|, c requires 0 <= c < |names| =>
             Client(names[c], NotConnected, inputs[c], 0, [], [], [], Unaccepted)),
           ServerState(master, seq(MAX_CLIENTS, _ => 0), 0, map[], Cleared("")), [])
  }

  /** The kernel hands out a descriptor that no open connection has. */
  predicate Fresh(sys: System, fd: int) {
    && fd > 0 && fd != sys.server.master
    && forall d | 0 <= d < |sys.clients| && (sys.clients[d].side.Held? || sys.clients[d].side.Dropped?) ::
         sys.clients[d].side.fd != fd
  }

  predicate Enabled(sys: System, a: Action) {
    && a.c < |sys.clients|
    && var cl := sys.clients[a.c];
       match a
       case Connect(_) => cl.pc == NotConnected
       case Accept(_, fd) => cl.pc != NotConnected && cl.side == Unaccepted && Fresh(sys, fd)
       case ReadLine(_) => cl.pc == Reading && cl.input != []
       case ServeClient(_) =>
         && cl.side.Held? && cl.requests != []
         && |sys.server.buffer| == BUFFER_SIZE && |cl.requests[0]| <= BUFFER_SIZE
         && IsInt32(sys.server.transactionCount + 1)
       case Receive(_) => cl.pc == Waiting && cl.replies != [] && ReadInt(cl.replies[0]).Some?
       case Close(_) => cl.pc == Reading && cl.input == []
       case Hangup(_) => cl.pc == Closed && cl.requests == [] && cl.side.Held? && cl.side.fd in sys.server.slots
  }

  function Request(name: string, line: string): string { name + "," + line }

  /** One turn of the client's loop: a T line is counted and sent, and the client waits for the reply. */
  function ReadNext(cl: Client): Client
    requires cl.input != []
  {
    var line := cl.input[0];
    var rest := cl.(input := cl.input[1..]);
    if IsTransaction(line) then
      rest.(total := cl.total + 1, requests := cl.requests + [Request(cl.name, line)], pc := Waiting)
    else rest
  }

  function TakeReply(cl: Client): Client
    requires cl.replies != [] && ReadInt(cl.replies[0]).Some?
  {
    cl.(replies := cl.replies[1..], pc := Reading, received := cl.received + [ReadInt(cl.replies[0]).value.0])
  }

  function Apply(sys: System, a: Action): System
    requires Enabled(sys, a)
  {
    var cl := sys.clients[a.c];
    match a
    case Connect(c) => sys.(clients := sys.clients[c := cl.(pc := Reading)])
    case Accept(c, fd) =>
      var stored := Store(sys.server.slots, fd);
      sys.(clients := sys.clients[c := cl.(side := if 0 in sys.server.slots then Held(fd) else Dropped(fd))],
           server := sys.server.(slots := stored))
    case ReadLine(c) => sys.(clients := sys.clients[c := ReadNext(cl)])
    case ServeClient(c) =>
      var msg := cl.requests[0];
      var served := Serve(sys.server, msg);
      var replies := if served.reply.Some? then cl.replies + [served.reply.value] else cl.replies;
      System(sys.clients[c := cl.(requests := cl.requests[1..], replies := replies)], served.server,
             sys.log + [Entry(c, served.server.transactionCount, CommandPart(msg), served.command)])
    case Receive(c) => sys.(clients := sys.clients[c := TakeReply(cl)])
    case Close(c) => sys.(clients := sys.clients[c := cl.(pc := Closed)])
    case Hangup(c) =>
      sys.(clients := sys.clients[c := cl.(side := Released)],
           server := sys.server.(slots := sys.server.slots[FirstSlot(sys.server.slots, cl.side.fd) := 0]))
  }

  predicate Run(s: System, acts: seq<Action>, t: System)
    decreases |acts|
  {
    if acts == [] then s == t
    else Enabled(s, acts[0]) && Run(Apply(s, acts[0]), acts[1..], t)
  }

  ghost predicate Reachable(master: int, names: seq<string>, inputs: seq<seq<string>>, t: System)
    requires |names| == |inputs|
  {
    exists acts :: Run(Init(master, names, inputs), acts, t)
  }

  // ---------------------------------------------------------------- what the clients bring

  /** A request fits the client's message buffer and holds no NUL. */
  predicate LineOk(name: string, line: string) {
    IsTransaction(line) ==> NUL !in line && |Request(name, line)| < BUFFER_SIZE
  }

  /** Host names hold no comma, and no two clients share host name and pid. */
  ghost predicate WellFormed(names: seq<string>, inputs: seq<seq<string>>) {
    && |names| == |inputs|
    && (forall c | 0 <= c < |names| :: ',' !in names[c] && NUL !in names[c])
    && (forall c, d | 0 <= c < d < |names| :: names[c] != names[d])
    && (forall c | 0 <= c < |names| :: forall line | line in inputs[c] :: LineOk(names[c], line))
  }

  // ---------------------------------------------------------------- the invariant

  /** The numbers given to client `c`, in order. */
  function NumbersOf(log: seq<Entry>, c: nat): seq<int> {
    if log == [] then []
    else NumbersOf(log[..|log| - 1], c) + (if log[|log| - 1].client == c then [log[|log| - 1].number] else [])
  }

  ghost predicate ClientInv(cl: Client, c: nat, name: string, log: seq<Entry>, tally: map<string, nat>) {
    && cl.name == name
    && (forall line | line in cl.input :: LineOk(name, line))
    && (cl.pc != Waiting ==> cl.requests == [] && cl.replies == [])
    && (cl.pc == Waiting ==> |cl.requests| + |cl.replies| == 1)
    && (cl.requests != [] ==>
          exists line :: cl.requests[0] == Request(name, line) && IsTransaction(line) && LineOk(name, line))
    && (cl.pc == Closed ==> cl.input == [])
    && cl.total == |NumbersOf(log, c)| + |cl.requests|
    && Tally(tally, name) == |NumbersOf(log, c)|
    && (if cl.replies == [] then cl.received == NumbersOf(log, c)
        else NumbersOf(log, c) != [] &&
             var number := NumbersOf(log, c)[|NumbersOf(log, c)| - 1];
             IsInt32(number) && cl.replies[0] == ToString(number) && cl.received + [number] == NumbersOf(log, c))
  }

  /** The reply the buffer held when transaction `number` was read. */
  function ReplyBefore(number: nat): string { if number <= 1 then "" else ToString(number - 1) }

  ghost predicate LogInv(sys: System, names: seq<string>) {
    && |sys.log| == sys.server.transactionCount
    && IsInt32(sys.server.transactionCount)
    && |ReplyBefore(sys.server.transactionCount + 1)| < BUFFER_SIZE
    && sys.server.buffer == Cleared(ReplyBefore(sys.server.transactionCount + 1))
    && SumValues(sys.server.tally) == sys.server.transactionCount
    && (forall j | 0 <= j < |sys.log| :: EntryOk(sys.log[j], j, names))
  }

  /** The entry at position `j` of the log. */
  predicate EntryOk(e: Entry, j: nat, names: seq<string>) {
    && e.client < |names| && e.number == j + 1
    && IsTransaction(e.line)
    && e.command == e.line + Tail(ReplyBefore(j + 1), |Request(names[e.client], e.line)|)
  }

  lemma BufferFits(number: nat)
    requires IsInt32(number)
    ensures |ReplyBefore(number + 1)| < BUFFER_SIZE && NUL !in ReplyBefore(number + 1)
  {
    Int32Length(number);
  }

  ghost predicate SlotInv(sys: System) {
    var slots := sys.server.slots;
    && |slots| == MAX_CLIENTS
    && (forall i, j | 0 <= i < j < |slots| :: slots[i] == 0 || slots[i] != slots[j])
    && (forall i | 0 <= i < |slots| && slots[i] != 0 :: OwnedSlot(sys, slots[i]))
    && (forall c: nat | c < |sys.clients| && sys.clients[c].side.Held? ::
          sys.clients[c].side.fd in slots && sys.clients[c].side.fd > 0 && sys.clients[c].side.fd != sys.server.master)
    && (forall c: nat, d: nat | c < d < |sys.clients| && Open(sys.clients[c]) && Open(sys.clients[d]) ::
          sys.clients[c].side.fd != sys.clients[d].side.fd)
  }

  predicate Open(cl: Client) { cl.side.Held? || cl.side.Dropped? }

  ghost predicate OwnedSlot(sys: System, fd: int) {
    exists c: nat :: c < |sys.clients| && sys.clients[c].side == Held(fd)
  }

  ghost predicate ClientsInv(sys: System, names: seq<string>) {
    && |sys.clients| == |names|
    && forall c: nat | c < |names| :: ClientAt(sys, names, c)
  }

  ghost predicate ClientAt(sys: System, names: seq<string>, c: nat)
    requires c < |sys.clients| == |names|
  {
    ClientInv(sys.clients[c], c, names[c], sys.log, sys.server.tally)
  }

  ghost predicate NamesOk(names: seq<string>) {
    && (forall c | 0 <= c < |names| :: ',' !in names[c] && NUL !in names[c])
    && (forall c, d | 0 <= c < d < |names| :: names[c] != names[d])
  }

  // ---------------------------------------------------------------- serving one request

  /** Whatever the buffer held, the request is attributed to its sender and answered with the next
      number; the command may carry the end of the previous reply. */
  lemma ServedIs(s: ServerState, name: string, line: string)
    requires IsInt32(s.transactionCount + 1)
    requires |ReplyBefore(s.transactionCount + 1)| < BUFFER_SIZE
    requires s.buffer == Cleared(ReplyBefore(s.transactionCount + 1))
    requires ',' !in name && NUL !in name && IsTransaction(line) && LineOk(name, line)
    ensures |s.buffer| == BUFFER_SIZE
    ensures var r := Serve(s, Request(name, line)); var number := s.transactionCount + 1;
            && r.name == name && r.reply == Some(ToString(number))
            && r.command == line + Tail(ReplyBefore(number), |Request(name, line)|)
            && r.server.transactionCount == number
            && |ToString(number)| <= BUFFER_SIZE && r.server.buffer == Cleared(ToString(number))
            && r.server.tally == CountFor(s.tally, name)
            && r.server.slots == s.slots && r.server.master == s.master
  {
    var msg := Request(name, line);
    var tail := Tail(ReplyBefore(s.transactionCount + 1), |msg|);
    BufferFits(s.transactionCount);
    StaleTail(ReplyBefore(s.transactionCount + 1), msg);
    assert msg + tail == name + "," + (line + tail);
    SplitRequest(name, line + tail);
    Int32Length(s.transactionCount + 1);
  }

  lemma NumbersAfter(log: seq<Entry>, e: Entry, c: nat)
    ensures NumbersOf(log + [e], c) == NumbersOf(log, c) + (if e.client == c then [e.number] else [])
  {
    assert (log + [e])[..|log|] == log;
  }

  // ---------------------------------------------------------------- the invariant is inductive

  lemma InitKeeps(master: int, names: seq<string>, inputs: seq<seq<string>>)
    requires WellFormed(names, inputs)
    ensures var s := Init(master, names, inputs); ClientsInv(s, names) && LogInv(s, names) && SlotInv(s)
  {
  }

  /** A step of client `c` that is no server step. */
  lemma LocalStepKeepsClients(sys: System, a: Action, names: seq<string>)
    requires ClientsInv(sys, names) && Enabled(sys, a) && !a.ServeClient?
    ensures ClientsInv(Apply(sys, a), names)
  {
    var t := Apply(sys, a);
    forall d: nat | d < |names| ensures ClientAt(t, names, d) {
      assert ClientAt(sys, names, d);
      if d == a.c {
        LocalStepKeepsClient(sys, a, names);
      } else {
        assert t.clients[d] == sys.clients[d];
      }
    }
  }

  lemma LocalStepKeepsClient(sys: System, a: Action, names: seq<string>)
    requires |sys.clients| == |names| && a.c < |names| && ClientAt(sys, names, a.c) && Enabled(sys, a) && !a.ServeClient?
    ensures ClientAt(Apply(sys, a), names, a.c)
  {
    var cl := sys.clients[a.c];
    match a
    case Receive(_) => ReceiveKeepsClient(sys, a, names);
    case ReadLine(_) => assert LineOk(cl.name, cl.input[0]);
    case _ =>
  }

  lemma ReceiveKeepsClient(sys: System, a: Action, names: seq<string>)
    requires |sys.clients| == |names| && a.c < |names| && ClientAt(sys, names, a.c) && Enabled(sys, a) && a.Receive?
    ensures ClientAt(Apply(sys, a), names, a.c)
  {
    var replies, numbers := sys.clients[a.c].replies, NumbersOf(sys.log, a.c);
    ReadIntOfToString(numbers[|numbers| - 1], "");
    assert replies[0] + "" == replies[0];
  }

  /** The step of serving client `c`, spelt out. */
  ghost predicate ServedStep(sys: System, c: nat, line: string, t: System, names: seq<string>)
    requires c < |sys.clients| == |names|
  {
    var number := sys.server.transactionCount + 1;
    var cl := sys.clients[c];
    && IsTransaction(line) && IsInt32(number)
    && t.clients == sys.clients[c := cl.(requests := [], replies := [ToString(number)])]
    && t.log == sys.log + [Entry(c, number, line, line + Tail(ReplyBefore(number), |Request(names[c], line)|))]
    && t.server.tally == CountFor(sys.server.tally, names[c])
    && t.server.transactionCount == number
    && |ToString(number)| < BUFFER_SIZE && t.server.buffer == Cleared(ToString(number))
    && t.server.slots == sys.server.slots && t.server.master == sys.server.master
  }

  /** Serving the one request of client `c`, given what `Serve` makes of it. */
  lemma ServeShape(sys: System, c: nat, msg: string, r: Served)
    requires Enabled(sys, ServeClient(c)) && sys.clients[c].requests == [msg] && sys.clients[c].replies == []
    requires r == Serve(sys.server, msg) && r.reply.Some?
    ensures Apply(sys, ServeClient(c)) ==
            System(sys.clients[c := sys.clients[c].(requests := [], replies := [r.reply.value])], r.server,
                   sys.log + [Entry(c, r.server.transactionCount, CommandPart(msg), r.command)])
  {
    assert sys.clients[c].requests[1..] == [];
    assert sys.clients[c].replies + [r.reply.value] == [r.reply.value];
  }

  lemma ServeIsServedStep(sys: System, c: nat, line: string, names: seq<string>)
    requires c < |sys.clients| == |names| && ',' !in names[c] && NUL !in names[c]
    requires IsTransaction(line) && LineOk(names[c], line)
    requires sys.clients[c].requests == [Request(names[c], line)] && sys.clients[c].replies == []
    requires |ReplyBefore(sys.server.transactionCount + 1)| < BUFFER_SIZE
    requires sys.server.buffer == Cleared(ReplyBefore(sys.server.transactionCount + 1))
    requires Enabled(sys, ServeClient(c))
    ensures ServedStep(sys, c, line, Apply(sys, ServeClient(c)), names)
  {
    var r := Serve(sys.server, Request(names[c], line));
    ServedIs(sys.server, names[c], line);
    SplitRequest(names[c], line);
    ServeShape(sys, c, Request(names[c], line), r);
    ServedStepFrom(sys, c, line, names, r, Apply(sys, ServeClient(c)));
  }

  lemma ServedStepFrom(sys: System, c: nat, line: string, names: seq<string>, r: Served, t: System)
    requires c < |sys.clients| == |names| && IsTransaction(line) && IsInt32(sys.server.transactionCount + 1)
    requires r.reply == Some(ToString(sys.server.transactionCount + 1))
    requires r.command == line + Tail(ReplyBefore(sys.server.transactionCount + 1), |Request(names[c], line)|)
    requires r.server.transactionCount == sys.server.transactionCount + 1
    requires |r.reply.value| <= BUFFER_SIZE && r.server.buffer == Cleared(r.reply.value)
    requires r.server.tally == CountFor(sys.server.tally, names[c])
    requires r.server.slots == sys.server.slots && r.server.master == sys.server.master
    requires t == System(sys.clients[c := sys.clients[c].(requests := [], replies := [r.reply.value])], r.server,
                         sys.log + [Entry(c, r.server.transactionCount, line, r.command)])
    ensures ServedStep(sys, c, line, t, names)
  {
    Int32Length(sys.server.transactionCount + 1);
  }

  lemma ServedKeepsLog(sys: System, c: nat, line: string, t: System, names: seq<string>)
    requires c < |sys.clients| == |names| && LogInv(sys, names) && ServedStep(sys, c, line, t, names)
    ensures LogInv(t, names)
  {
    SumAfterCount(sys.server.tally, names[c]);
    BufferFits(t.server.transactionCount);
    assert ReplyBefore(t.server.transactionCount + 1) == ToString(t.server.transactionCount);
    forall j | 0 <= j < |t.log| ensures EntryOk(t.log[j], j, names) {
      assert j < |sys.log| ==> t.log[j] == sys.log[j] && EntryOk(sys.log[j], j, names);
    }
  }

  lemma ServedKeepsClients(sys: System, c: nat, line: string, t: System, names: seq<string>)
    requires c < |sys.clients| == |names| && NamesOk(names) && ClientsInv(sys, names)
    requires ServedStep(sys, c, line, t, names) && sys.clients[c].requests != []
    ensures ClientsInv(t, names)
  {
    var e := t.log[|sys.log|];
    forall d: nat | d < |names| ensures ClientAt(t, names, d) {
      assert ClientAt(sys, names, d);
      NumbersAfter(sys.log, e, d);
      if d != c {
        assert names[d] != names[c];
        assert t.clients[d] == sys.clients[d];
      }
    }
  }

  lemma ServeKeeps(sys: System, c: nat, names: seq<string>)
    requires NamesOk(names) && ClientsInv(sys, names) && LogInv(sys, names) && Enabled(sys, ServeClient(c))
    ensures var t := Apply(sys, ServeClient(c)); ClientsInv(t, names) && LogInv(t, names)
  {
    assert ClientAt(sys, names, c);
    var cl := sys.clients[c];
    var line :| cl.requests[0] == Request(cl.name, line) && IsTransaction(line) && LineOk(cl.name, line);
    assert cl.requests == [Request(cl.name, line)];
    ServeIsServedStep(sys, c, line, names);
    var t := Apply(sys, ServeClient(c));
    ServedKeepsLog(sys, c, line, t, names);
    ServedKeepsClients(sys, c, line, t, names);
  }

  lemma AcceptKeepsSlots(sys: System, c: nat, fd: int)
    requires SlotInv(sys) && Enabled(sys, Accept(c, fd))
    ensures SlotInv(Apply(sys, Accept(c, fd)))
  {
    var t := Apply(sys, Accept(c, fd));
    var k := FirstSlot(sys.server.slots, 0);
    assert 0 in sys.server.slots <==> k < |sys.server.slots|;
    forall i | 0 <= i < |sys.server.slots| && sys.server.slots[i] != 0
      ensures OwnedSlot(t, sys.server.slots[i]) && sys.server.slots[i] != fd
    {
      var d: nat :| d < |sys.clients| && sys.clients[d].side == Held(sys.server.slots[i]);
      assert t.clients[d].side == Held(sys.server.slots[i]);
    }
    if k < |sys.server.slots| {
      assert t.clients[c].side == Held(fd);
      assert t.server.slots[k] == fd;
      forall d: nat | d < |t.clients| && t.clients[d].side.Held? ensures t.clients[d].side.fd in t.server.slots {
        if d != c {
          var i :| 0 <= i < |sys.server.slots| && sys.server.slots[i] == sys.clients[d].side.fd;
          assert t.server.slots[i] == sys.server.slots[i];
        }
      }
    }
  }

  lemma HangupKeepsSlots(sys: System, c: nat)
    requires SlotInv(sys) && Enabled(sys, Hangup(c))
    ensures SlotInv(Apply(sys, Hangup(c)))
  {
    var t := Apply(sys, Hangup(c));
    var fd := sys.clients[c].side.fd;
    var slots := sys.server.slots;
    var k := FirstSlot(slots, fd);
    assert k < |slots|;
    assert t.server.slots == slots[k := 0];
    forall i | 0 <= i < |slots| && t.server.slots[i] != 0 ensures OwnedSlot(t, t.server.slots[i]) {
      assert slots[i] != fd by { assert i != k; }
      var d: nat :| d < |sys.clients| && sys.clients[d].side == Held(slots[i]);
      assert t.clients[d].side == Held(slots[i]);
    }
    forall d: nat | d < |t.clients| && t.clients[d].side.Held? ensures t.clients[d].side.fd in t.server.slots {
      var i :| 0 <= i < |slots| && slots[i] == sys.clients[d].side.fd;
      assert i != k;
      assert t.server.slots[i] == slots[i];
    }
  }

  lemma OtherStepKeepsSlots(sys: System, t: System)
    requires SlotInv(sys) && |t.clients| == |sys.clients|
    requires t.server.slots == sys.server.slots && t.server.master == sys.server.master
    requires forall c: nat | c < |sys.clients| :: t.clients[c].side == sys.clients[c].side
    ensures SlotInv(t)
  {
    forall i | 0 <= i < |t.server.slots| && t.server.slots[i] != 0 ensures OwnedSlot(t, t.server.slots[i]) {
      var d: nat :| d < |sys.clients| && sys.clients[d].side == Held(sys.server.slots[i]);
      assert t.clients[d].side == Held(t.server.slots[i]);
    }
  }

  lemma LocalStepKeepsLog(sys: System, a: Action, names: seq<string>)
    requires LogInv(sys, names) && Enabled(sys, a) && !a.ServeClient?
    ensures LogInv(Apply(sys, a), names)
  {
    var t := Apply(sys, a);
    assert t.log == sys.log && t.server.transactionCount == sys.server.transactionCount;
    assert t.server.buffer == sys.server.buffer && t.server.tally == sys.server.tally;
  }

  lemma StepKeepsSlots(sys: System, a: Action)
    requires SlotInv(sys) && Enabled(sys, a)
    ensures SlotInv(Apply(sys, a))
  {
    match a
    case Accept(c, fd) => AcceptKeepsSlots(sys, c, fd);
    case Hangup(c) => HangupKeepsSlots(sys, c);
    case ServeClient(c) =>
      var t := Apply(sys, a);
      assert t.server.slots == sys.server.slots && t.server.master == sys.server.master;
      OtherStepKeepsSlots(sys, t);
    case _ => OtherStepKeepsSlots(sys, Apply(sys, a));
  }

  lemma StepKeeps(sys: System, a: Action, names: seq<string>)
    requires NamesOk(names) && ClientsInv(sys, names) && LogInv(sys, names) && SlotInv(sys) && Enabled(sys, a)
    ensures var t := Apply(sys, a); ClientsInv(t, names) && LogInv(t, names) && SlotInv(t)
  {
    StepKeepsSlots(sys, a);
    if a.ServeClient? {
      ServeKeeps(sys, a.c, names);
    } else {
      LocalStepKeepsClients(sys, a, names);
      LocalStepKeepsLog(sys, a, names);
    }
  }

  lemma {:induction false} RunKeeps(s: System, acts: seq<Action>, t: System, names: seq<string>)
    requires NamesOk(names) && ClientsInv(s, names) && LogInv(s, names) && SlotInv(s) && Run(s, acts, t)
    ensures ClientsInv(t, names) && LogInv(t, names) && SlotInv(t)
    decreases |acts|
  {
    if acts != [] {
      StepKeeps(s, acts[0], names);
      RunKeeps(Apply(s, acts[0]), acts[1..], t, names);
    }
  }

  lemma ReachableInv(master: int, names: seq<string>, inputs: seq<seq<string>>, t: System)
    requires WellFormed(names, inputs) && Reachable(master, names, inputs, t)
    ensures ClientsInv(t, names) && LogInv(t, names) && SlotInv(t)
  {
    var acts :| Run(Init(master, names, inputs), acts, t);
    InitKeeps(master, names, inputs);
    RunKeeps(Init(master, names, inputs), acts, t, names);
  }

  // ---------------------------------------------------------------- main results

  /** Transaction numbers are 1, 2, 3, ... in the order of service, each given once; the tally of
      all clients adds up to the counter, and each client's entry counts its own transactions. */
  lemma Numbering(master: int, names: seq<string>, inputs: seq<seq<string>>, t: System)
    requires WellFormed(names, inputs) && Reachable(master, names, inputs, t)
    ensures |t.log| == t.server.transactionCount == SumValues(t.server.tally)
    ensures forall j | 0 <= j < |t.log| :: t.log[j].number == j + 1 && t.log[j].client < |names|
    ensures forall c | 0 <= c < |names| :: Tally(t.server.tally, names[c]) == |NumbersOf(t.log, c)|
  {
    ReachableInv(master, names, inputs, t);
    assert forall j | 0 <= j < |t.log| :: EntryOk(t.log[j], j, names);
    forall c | 0 <= c < |names| ensures Tally(t.server.tally, names[c]) == |NumbersOf(t.log, c)| {
      assert ClientAt(t, names, c);
    }
  }

  lemma {:induction false} NumbersIncrease(log: seq<Entry>, c: nat)
    requires forall j | 0 <= j < |log| :: log[j].number == j + 1
    ensures forall i, j | 0 <= i < j < |NumbersOf(log, c)| :: NumbersOf(log, c)[i] < NumbersOf(log, c)[j]
    ensures forall n | n in NumbersOf(log, c) :: 1 <= n <= |log| && log[n - 1].client == c
  {
    if log != [] {
      var m := |log| - 1;
      NumbersIncrease(log[..m], c);
      var earlier := NumbersOf(log[..m], c);
      forall i | 0 <= i < |earlier| ensures earlier[i] < log[m].number {
        assert earlier[i] in earlier;
      }
    }
  }

  /** What a client receives are the numbers given to it, strictly increasing; when it has finished,
      the server's tally for it is the total it counted itself. */
  lemma ClientView(master: int, names: seq<string>, inputs: seq<seq<string>>, t: System, c: nat)
    requires WellFormed(names, inputs) && Reachable(master, names, inputs, t)
    requires c < |names| && c < |t.clients|
    ensures t.clients[c].received <= NumbersOf(t.log, c)
    ensures forall i, j | 0 <= i < j < |t.clients[c].received| :: t.clients[c].received[i] < t.clients[c].received[j]
    ensures t.clients[c].pc != Waiting ==> t.clients[c].received == NumbersOf(t.log, c)
    ensures t.clients[c].pc == Closed ==>
              Tally(t.server.tally, names[c]) == t.clients[c].total == |t.clients[c].received|
  {
    ReachableInv(master, names, inputs, t);
    assert ClientAt(t, names, c);
    assert forall j | 0 <= j < |t.log| :: EntryOk(t.log[j], j, names);
    NumbersIncrease(t.log, c);
  }

  /** Each connection carries one request or one reply exactly while its client waits, and nothing
      otherwise, so a read never finds two requests. */
  lemma StopAndWait(master: int, names: seq<string>, inputs: seq<seq<string>>, t: System, c: nat)
    requires WellFormed(names, inputs) && Reachable(master, names, inputs, t)
    requires c < |names| && c < |t.clients|
    ensures |t.clients[c].requests| + |t.clients[c].replies| == if t.clients[c].pc == Waiting then 1 else 0
    ensures t.clients[c].requests != [] ==> NamePart(t.clients[c].requests[0]) == names[c]
                                            && IsTransaction(CommandPart(t.clients[c].requests[0]))
    ensures t.clients[c].replies != [] ==> ReadInt(t.clients[c].replies[0]).Some?
  {
    ReachableInv(master, names, inputs, t);
    assert ClientAt(t, names, c);
    var cl := t.clients[c];
    if cl.requests != [] {
      var line :| cl.requests[0] == Request(cl.name, line) && IsTransaction(line) && LineOk(cl.name, line);
      SplitRequest(cl.name, line);
    }
    if cl.replies != [] {
      var numbers := NumbersOf(t.log, c);
      ReadIntOfToString(numbers[|numbers| - 1], "");
      assert cl.replies[0] + "" == cl.replies[0];
    }
  }

  /** The server works on the command that was sent exactly when the request is at least as long as
      the reply sent before it; a shorter one is read with the end of that reply attached. */
  lemma CommandRecovered(master: int, names: seq<string>, inputs: seq<seq<string>>, t: System, j: nat)
    requires WellFormed(names, inputs) && Reachable(master, names, inputs, t)
    requires j < |t.log|
    ensures t.log[j].client < |names|
    ensures t.log[j].command == t.log[j].line <==>
            |ReplyBefore(j + 1)| <= |Request(names[t.log[j].client], t.log[j].line)|
  {
    ReachableInv(master, names, inputs, t);
    assert EntryOk(t.log[j], j, names);
    var line := t.log[j].line;
    var tail := Tail(ReplyBefore(j + 1), |Request(names[t.log[j].client], line)|);
    assert |line + tail| == |line| + |tail|;
    assert tail == [] ==> line + tail == line;
  }

  /** A request of ten characters or more is always long enough. */
  lemma TenCharactersSuffice(number: nat)
    requires IsInt32(number)
    ensures |ReplyBefore(number)| <= 10
  {
    if number > 1 {
      assert PowerOfTen(10) == 10_000_000_000 by {
        assert PowerOfTen(5) == 100_000;
        assert PowerOfTen(8) == 100_000_000;
      }
      DigitsLength(number - 1, 10, PowerOfTen(10));
    }
  }

  // ---------------------------------------------------------------- slots

  /** The connections the server serves. */
  function HeldBy(sys: System): set<nat> {
    set c: nat | c < |sys.clients| && sys.clients[c].side.Held?
  }

  /** The nonzero slots are pairwise distinct, and are exactly the connections that are held; the
      select set is those and the master. */
  lemma SlotsAreConnections(master: int, names: seq<string>, inputs: seq<seq<string>>, t: System)
    requires WellFormed(names, inputs) && Reachable(master, names, inputs, t)
    ensures forall i, j | 0 <= i < j < |t.server.slots| :: t.server.slots[i] == 0 || t.server.slots[i] != t.server.slots[j]
    ensures forall fd :: fd != 0 ==> (fd in t.server.slots <==> OwnedSlot(t, fd))
    ensures forall fd :: fd in SelectSet(t.server.master, t.server.slots) <==> fd == t.server.master || OwnedSlot(t, fd)
    ensures |HeldBy(t)| == NonZero(t.server.slots) <= MAX_CLIENTS
  {
    ReachableInv(master, names, inputs, t);
    forall fd | fd != 0 ensures fd in t.server.slots <==> OwnedSlot(t, fd) {
      if fd in t.server.slots {
        var i :| 0 <= i < |t.server.slots| && t.server.slots[i] == fd;
      }
    }
    forall fd ensures fd > 0 && fd in t.server.slots <==> OwnedSlot(t, fd) { }
    HeldCount(t);
  }

  function NonZero(slots: seq<int>): nat {
    if slots == [] then 0 else NonZero(slots[..|slots| - 1]) + (if slots[|slots| - 1] != 0 then 1 else 0)
  }

  lemma {:induction false} NonZeroBound(slots: seq<int>)
    ensures NonZero(slots) <= |slots|
    ensures NonZero(slots) == |slots| <==> 0 !in slots
  {
    if slots != [] {
      var m := |slots| - 1;
      NonZeroBound(slots[..m]);
      assert slots == slots[..m] + [slots[m]];
    }
  }

  lemma {:induction false} NonZeroSet(slots: seq<int>)
    requires forall i, j | 0 <= i < j < |slots| :: slots[i] == 0 || slots[i] != slots[j]
    ensures |set fd | fd in slots && fd != 0| == NonZero(slots)
  {
    if slots != [] {
      var m := |slots| - 1;
      var fd := slots[m];
      NonZeroSet(slots[..m]);
      assert slots == slots[..m] + [fd];
      if fd != 0 {
        assert (set f | f in slots && f != 0) == (set f | f in slots[..m] && f != 0) + {fd};
      } else {
        assert (set f | f in slots && f != 0) == (set f | f in slots[..m] && f != 0);
      }
    }
  }

  lemma {:induction false} ImageSize(cs: set<nat>, f: nat -> int)
    requires forall c, d | c in cs && d in cs && c != d :: f(c) != f(d)
    ensures |set c | c in cs :: f(c)| == |cs|
  {
    if cs != {} {
      var c :| c in cs;
      ImageSize(cs - {c}, f);
      assert (set d | d in cs :: f(d)) == (set d | d in cs - {c} :: f(d)) + {f(c)};
    }
  }

  lemma HeldCount(t: System)
    requires SlotInv(t)
    ensures |HeldBy(t)| == NonZero(t.server.slots) <= MAX_CLIENTS
  {
    var slots := t.server.slots;
    NonZeroBound(slots);
    NonZeroSet(slots);
    var fds := set fd | fd in slots && fd != 0;
    var f := (c: nat) => if c < |t.clients| && t.clients[c].side.Held? then t.clients[c].side.fd else 0;
    forall fd | fd in fds ensures exists c :: c in HeldBy(t) && f(c) == fd {
      var i :| 0 <= i < |slots| && slots[i] == fd;
      var c: nat :| c < |t.clients| && t.clients[c].side == Held(slots[i]);
      assert c in HeldBy(t) && f(c) == fd;
    }
    assert fds == set c | c in HeldBy(t) :: f(c);
    ImageSize(HeldBy(t), f);
  }

  /** A new connection is dropped exactly when thirty are already held; so with at most thirty
      clients at a time every connection gets a slot. */
  lemma DroppedExactly(master: int, names: seq<string>, inputs: seq<seq<string>>, t: System, c: nat, fd: int)
    requires WellFormed(names, inputs) && Reachable(master, names, inputs, t) && Enabled(t, Accept(c, fd))
    ensures Apply(t, Accept(c, fd)).clients[c].side == (if |HeldBy(t)| == MAX_CLIENTS then Dropped(fd) else Held(fd))
  {
    ReachableInv(master, names, inputs, t);
    HeldCount(t);
    NonZeroBound(t.server.slots);
  }

  /** The variables of the client's loop, changed in place; what it sends and receives goes through
      the two queues of its connection. */
  class ClientLoop {
    const name: string
    var pc: ClientPc
    var input: seq<string>
    var totalTransactions: nat
    var sent: seq<string>
    var incoming: seq<string>
    ghost var received: seq<int>

    ghost function View(side: Side): Client
      reads this
    {
      Client(name, pc, input, totalTransactions, received, sent, incoming, side)
    }

    constructor (hostnamePid: string, lines: seq<string>)
      ensures View(Unaccepted) == Client(hostnamePid, Reading, lines, 0, [], [], [], Unaccepted)
    {
      name, pc, input, totalTransactions := hostnamePid, Reading, lines, 0;
      sent, incoming, received := [], [], [];
    }

    method NextLine()
      requires pc == Reading && input != []
      modifies this
      ensures forall side :: View(side) == ReadNext(old(View(side)))
    {
      var data := input[0];
      input := input[1..];
      if data != "" && data[0] == 'T' {
        totalTransactions := totalTransactions + 1;
        sent := sent + [name + "," + data];
        pc := Waiting;
      }
    }

    method ReceiveReply() returns (number: int)
      requires pc == Waiting && incoming != [] && ReadInt(incoming[0]).Some?
      modifies this
      ensures forall side :: View(side) == TakeReply(old(View(side)))
      ensures number == ReadInt(old(incoming)[0]).value.0
    {
      number := ReadInt(incoming[0]).value.0;
      incoming := incoming[1..];
      received := received + [number];
      pc := Reading;
    }
  }
}
