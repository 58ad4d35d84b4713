/** The transaction server of Assignment_3/server.cpp: the slot array, the select set, transaction
    numbers and the per-client tally. */
module TransactionServer {
  import opened CStrings
  import opened Decimal

  const MAX_CLIENTS := 30

  // ---------------------------------------------------------------- one request

  /** Everything before the first comma; all of it when there is none. */
  function NamePart(s: string): string { s[..Find(s, ',')] }

  /** Everything after the first comma.  Without a comma `find` gives -1 as an int, and -1 + 1 is 0. */
  function CommandPart(s: string): string {
    var k := Find(s, ',');
    if k == |s| then s else s[k + 1..]
  }

  lemma SplitRequest(name: string, command: string)
    requires ',' !in name
    ensures NamePart(name + "," + command) == name && CommandPart(name + "," + command) == command
  {
    var s := name + "," + command;
    assert s[..|name|] == name;
    FindIs(s, ',', |name|);
    assert s[|name| + 1..] == command;
  }

  datatype ServerState = ServerState(
    master: int, slots: seq<int>, transactionCount: nat, tally: map<string, nat>, buffer: seq<char>)

  function Tally(tally: map<string, nat>, name: string): nat { if name in tally then tally[name] else 0 }

  /** One more transaction for `name`. */
  function CountFor(tally: map<string, nat>, name: string): map<string, nat> { tally[name := Tally(tally, name) + 1] }

  predicate IsTransaction(command: string) { command != "" && command[0] == 'T' }

  datatype Served = Served(server: ServerState, name: string, command: string, reply: Option<string>)

  /** Only a command that starts with T is answered, with its transaction number; the counter is a
      32-bit int. */
  function Serve(s: ServerState, msg: string): Served
    requires |s.buffer| == BUFFER_SIZE && |msg| <= BUFFER_SIZE && IsInt32(s.transactionCount + 1)
  {
    var buffer := Overwrite(s.buffer, msg);
    var text := CString(buffer);
    var name := NamePart(text);
    var command := CommandPart(text);
    var counted := s.(transactionCount := s.transactionCount + 1, buffer := buffer,
                      tally := CountFor(s.tally, name));
    var reply := ToString(s.transactionCount + 1);
    Int32Length(s.transactionCount + 1);
    if IsTransaction(command) then
      Served(counted.(buffer := Cleared(reply)), name, command, Some(reply))
    else Served(counted, name, command, None)
  }

  /** Every request is counted, in all and for the name it begins with, and given the next number;
      exactly those with a command that begins with T are answered. */
  lemma RequestCounted(s: ServerState, msg: string)
    requires |s.buffer| == BUFFER_SIZE && |msg| <= BUFFER_SIZE && IsInt32(s.transactionCount + 1)
    ensures var r := Serve(s, msg);
            && r.server.transactionCount == s.transactionCount + 1
            && SumValues(r.server.tally) == SumValues(s.tally) + 1
            && Tally(r.server.tally, r.name) == Tally(s.tally, r.name) + 1
            && (forall name | name != r.name :: Tally(r.server.tally, name) == Tally(s.tally, name))
            && r.reply == (if "T" <= r.command then Some(ToString(s.transactionCount + 1)) else None)
  {
    var r := Serve(s, msg);
    SumAfterCount(s.tally, r.name);
  }

  // ---------------------------------------------------------------- slots

  /** Index of the first entry equal to `v`, or the length of the array. */
  function FirstSlot(slots: seq<int>, v: int): (k: nat)
    ensures k <= |slots| && forall i | 0 <= i < k :: slots[i] != v
    ensures k < |slots| ==> slots[k] == v
  {
    if slots == [] || slots[0] == v then 0 else 1 + FirstSlot(slots[1..], v)
  }

  lemma FirstSlotIs(slots: seq<int>, v: int, k: nat)
    requires k <= |slots| && (k < |slots| ==> slots[k] == v)
    requires forall i | 0 <= i < k :: slots[i] != v
    ensures FirstSlot(slots, v) == k
  {
  }

  /** A new descriptor goes to the first free slot; when all are taken it is dropped. */
  function Store(slots: seq<int>, fd: int): seq<int> {
    var k := FirstSlot(slots, 0);
    if k < |slots| then slots[k := fd] else slots
  }

  function SelectSet(master: int, slots: seq<int>): set<int> {
    {master} + (set fd | fd in slots && fd > 0)
  }

  // ---------------------------------------------------------------- the sum of the tally

  ghost function SumValues(m: map<string, nat>): nat
  {
    if m.Keys == {} then 0
    else
      var k :| k in m.Keys;
      m[k] + SumValues(m - {k})
  }

  /** The sum does not depend on the order of the keys. */
  lemma {:induction false} SumWithout(m: map<string, nat>, k: string)
    requires k in m
    ensures SumValues(m) == m[k] + SumValues(m - {k})
    decreases |m|
  {
    var first: string :| first in m.Keys && SumValues(m) == m[first] + SumValues(m - {first});
    if first != k {
      SumWithout(m - {first}, k);
      SumWithout(m - {k}, first);
      assert m - {first} - {k} == m - {k} - {first};
    }
  }

  lemma SumAfterCount(m: map<string, nat>, name: string)
    ensures SumValues(CountFor(m, name)) == SumValues(m) + 1
  {
    var n := CountFor(m, name);
    SumWithout(n, name);
    if name in m {
      SumWithout(m, name);
      assert n - {name} == m - {name};
    } else {
      assert n - {name} == m;
    }
  }

  /** The variables of the server loop, changed in place. */
  class Server {
    const masterSocket: int
    const clientSocket: array<int>
    const buffer: array<char>
    var transactionCount: nat
    var completedTasks: map<string, nat>

    ghost predicate Valid()
      reads this
    {
      clientSocket.Length == MAX_CLIENTS && buffer.Length == BUFFER_SIZE
    }

    ghost function View(): ServerState
      reads this, clientSocket, buffer
    {
      ServerState(masterSocket, clientSocket[..], transactionCount, completedTasks, buffer[..])
    }

    constructor (master: int)
      ensures Valid() && fresh(clientSocket) && fresh(buffer)
      ensures View() == ServerState(master, seq(MAX_CLIENTS, _ => 0), 0, map[], Zeros(BUFFER_SIZE))
    {
      masterSocket := master;
      clientSocket := new int[MAX_CLIENTS](_ => 0);
      buffer := new char[BUFFER_SIZE](_ => NUL);
      transactionCount, completedTasks := 0, map[];
      new;
      assert clientSocket[..] == seq(MAX_CLIENTS, _ => 0);
      assert buffer[..] == Zeros(BUFFER_SIZE);
    }

    /** The set handed to `select` holds the master and every connection, and `maxSd` is its maximum. */
    method BuildSelectSet() returns (readfds: set<int>, maxSd: int)
      requires Valid()
      ensures readfds == SelectSet(masterSocket, clientSocket[..])
      ensures masterSocket >= 0 ==> maxSd in readfds
      ensures forall fd | fd in readfds :: fd <= maxSd
    {
      readfds := {masterSocket};
      maxSd := masterSocket;
      var i := 0;
      while i < clientSocket.Length
        invariant 0 <= i <= clientSocket.Length
        invariant readfds == SelectSet(masterSocket, clientSocket[..i])
        invariant masterSocket <= maxSd && (maxSd == masterSocket || maxSd in clientSocket[..i])
        invariant forall fd | fd in clientSocket[..i] :: fd <= maxSd
      {
        var sd := clientSocket[i];
        assert clientSocket[..i + 1] == clientSocket[..i] + [sd];
        if sd > 0 {
          readfds := readfds + {sd};
        }
        if sd > maxSd {
          maxSd := sd;
        }
        i := i + 1;
      }
      assert clientSocket[..clientSocket.Length] == clientSocket[..];
    }

    method Accept(newSocket: int)
      requires Valid()
      modifies clientSocket
      ensures Valid() && View() == old(View()).(slots := Store(old(clientSocket[..]), newSocket))
    {
      ghost var before := clientSocket[..];
      var i := 0;
      while i < clientSocket.Length
        invariant 0 <= i <= clientSocket.Length && clientSocket[..] == before
        invariant forall j | 0 <= j < i :: before[j] != 0
      {
        if clientSocket[i] == 0 {
          FirstSlotIs(before, 0, i);
          clientSocket[i] := newSocket;
          assert clientSocket[..] == before[i := newSocket];
          return;
        }
        i := i + 1;
      }
      FirstSlotIs(before, 0, i);
    }

    /** A readable slot whose peer has hung up. */
    method Hangup(i: nat)
      requires Valid() && i < MAX_CLIENTS
      modifies clientSocket
      ensures Valid() && View() == old(View()).(slots := old(clientSocket[..])[i := 0])
    {
      clientSocket[i] := 0;
    }

    method ReadInto(msg: string)
      requires Valid() && |msg| <= BUFFER_SIZE
      modifies buffer
      ensures buffer[..] == Overwrite(old(buffer[..]), msg)
    {
      forall i | 0 <= i < |msg| {
        buffer[i] := msg[i];
      }
    }

    method ClearAndCopy(text: string)
      requires Valid() && |text| <= BUFFER_SIZE
      modifies buffer
      ensures buffer[..] == Cleared(text)
    {
      forall i | 0 <= i < buffer.Length {
        buffer[i] := if i < |text| then text[i] else NUL;
      }
    }

    /** A readable slot with a request. */
    method HandleRequest(msg: string) returns (name: string, command: string, reply: Option<string>)
      requires Valid() && |msg| <= BUFFER_SIZE && IsInt32(transactionCount + 1)
      modifies this, buffer
      ensures Valid() && Served(View(), name, command, reply) == Serve(old(View()), msg)
    {
      ReadInto(msg);
      transactionCount := transactionCount + 1;
      var text := CString(buffer[..]);
      name := NamePart(text);
      command := CommandPart(text);
      completedTasks := completedTasks[name := Tally(completedTasks, name) + 1];
      reply := None;
      if IsTransaction(command) {
        var number := ToString(transactionCount);
        Int32Length(transactionCount);
        ClearAndCopy(number);
        reply := Some(number);
      }
    }
  }
}
