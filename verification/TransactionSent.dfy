/** What the clients send, in terms of the lines they are given: nothing is left out, added or changed. */
module TransactionSent {
  import opened TransactionServer
  import opened TransactionSystem

  /** The lines that start with T, in order. */
  function Transactions(lines: seq<string>): seq<string> {
    if lines == [] then []
    else
      var n := |lines| - 1;
      Transactions(lines[..n]) + (if "T" <= lines[n] then [lines[n]] else [])
  }

  /** The lines of client `c` that the server has worked on, in order. */
  function LinesOf(log: seq<Entry>, c: nat): seq<string> {
    if log == [] then []
    else
      var n := |log| - 1;
      LinesOf(log[..n], c) + (if log[n].client == c then [log[n].line] else [])
  }

  /** The client has read its first `n` lines; those of them that are transactions are the ones the server
      has worked on, and `pending`, which is on its way. */
  ghost predicate SentUpTo(cl: Client, name: string, input: seq<string>, lines: seq<string>, n: nat, pending: seq<string>) {
    && cl.name == name
    && n <= |input| && cl.input == input[n..]
    && Transactions(input[..n]) == lines + pending
    && cl.total == |lines + pending|
    && |pending| <= 1
    && cl.requests == if pending == [] then [] else [name + "," + pending[0]]
  }

  ghost predicate SentAt(t: System, names: seq<string>, inputs: seq<seq<string>>, c: nat)
    requires c < |t.clients| == |names| == |inputs|
  {
    exists n: nat, pending :: SentUpTo(t.clients[c], names[c], inputs[c], LinesOf(t.log, c), n, pending)
  }

  ghost predicate SentInv(t: System, names: seq<string>, inputs: seq<seq<string>>) {
    && |t.clients| == |names| == |inputs|
    && forall c: nat | c < |names| :: SentAt(t, names, inputs, c)
  }

  lemma TransactionsNext(input: seq<string>, n: nat)
    requires n < |input|
    ensures Transactions(input[..n + 1]) == Transactions(input[..n]) + (if "T" <= input[n] then [input[n]] else [])
  {
    assert input[..n + 1][..n] == input[..n];
  }

  lemma LinesAfter(log: seq<Entry>, e: Entry, c: nat)
    ensures LinesOf(log + [e], c) == LinesOf(log, c) + (if e.client == c then [e.line] else [])
  {
    assert (log + [e])[..|log|] == log;
  }

  /** One turn of the client's loop sends the line it reads, if that is a transaction. */
  lemma ReadNextSends(cl: Client, name: string, input: seq<string>, lines: seq<string>, n: nat)
    requires SentUpTo(cl, name, input, lines, n, []) && n < |input|
    ensures SentUpTo(ReadNext(cl), name, input, lines, n + 1, if "T" <= input[n] then [input[n]] else [])
  {
    TransactionsNext(input, n);
    assert cl.input[0] == input[n] && cl.input[1..] == input[n + 1..];
    assert lines + [] == lines;
    assert "T" <= input[n] <==> IsTransaction(input[n]);
  }

  /** ... and serving it moves the line to the log. */
  lemma ServedIsLogged(t: System, name: string, input: seq<string>, c: nat, lines: seq<string>, n: nat, pending: seq<string>)
    requires Enabled(t, ServeClient(c)) && ',' !in name && SentUpTo(t.clients[c], name, input, lines, n, pending)
    ensures var u := Apply(t, ServeClient(c));
            |u.log| == |t.log| + 1 && SentUpTo(u.clients[c], name, input, lines + [u.log[|t.log|].line], n, [])
  {
    SplitRequest(name, pending[0]);
    assert pending == [pending[0]];
    assert lines + pending == (lines + [pending[0]]) + [];
  }

  /** Serving one client leaves the others as they are, and adds one entry to the log. */
  lemma ServingTouches(t: System, c: nat)
    requires Enabled(t, ServeClient(c))
    ensures var u := Apply(t, ServeClient(c));
            && |u.clients| == |t.clients| && (forall d: nat | d < |t.clients| && d != c :: u.clients[d] == t.clients[d])
            && |u.log| == |t.log| + 1 && u.log == t.log + [u.log[|t.log|]] && u.log[|t.log|].client == c
  {
  }

  lemma ServingLogs(t: System, names: seq<string>, inputs: seq<seq<string>>, c: nat, d: nat)
    requires SentInv(t, names, inputs) && Enabled(t, ServeClient(c)) && ',' !in names[c] && d < |names|
    ensures |Apply(t, ServeClient(c)).clients| == |names| && SentAt(Apply(t, ServeClient(c)), names, inputs, d)
  {
    var u := Apply(t, ServeClient(c));
    ServingTouches(t, c);
    assert SentAt(t, names, inputs, d);
    var lines := LinesOf(t.log, d);
    var n: nat, pending :| SentUpTo(t.clients[d], names[d], inputs[d], lines, n, pending);
    LinesAfter(t.log, u.log[|t.log|], d);
    if d == c {
      ServedIsLogged(t, names[c], inputs[c], c, lines, n, pending);
    } else {
      assert u.clients[d] == t.clients[d] && LinesOf(u.log, d) == lines;
    }
  }

  /** A step that is no server step, seen from client `d`. */
  lemma LocalStepSends(t: System, a: Action, names: seq<string>, inputs: seq<seq<string>>, d: nat)
    requires SentInv(t, names, inputs) && d < |names| && ClientAt(t, names, d) && Enabled(t, a) && !a.ServeClient?
    ensures |Apply(t, a).clients| == |names| && SentAt(Apply(t, a), names, inputs, d)
  {
    var u := Apply(t, a);
    assert SentAt(t, names, inputs, d);
    var cl, lines := t.clients[d], LinesOf(t.log, d);
    var n: nat, pending :| SentUpTo(cl, names[d], inputs[d], lines, n, pending);
    if a == ReadLine(d) {
      assert pending == [] && u.clients[d] == ReadNext(cl) && u.log == t.log;
      ReadNextSends(cl, names[d], inputs[d], lines, n);
    } else {
      OtherStepQuiet(t, a, d);
      assert SentUpTo(u.clients[d], names[d], inputs[d], lines, n, pending);
    }
  }

  /** A client sends only when it reads a line. */
  lemma OtherStepQuiet(t: System, a: Action, d: nat)
    requires d < |t.clients| && Enabled(t, a) && !a.ServeClient? && a != ReadLine(d)
    ensures var cl, other := t.clients[d], Apply(t, a).clients[d];
            && other.name == cl.name && other.input == cl.input && other.total == cl.total && other.requests == cl.requests
    ensures Apply(t, a).log == t.log
  {
  }

  lemma StepSends(t: System, a: Action, names: seq<string>, inputs: seq<seq<string>>)
    requires SentInv(t, names, inputs) && ClientsInv(t, names) && NamesOk(names) && Enabled(t, a)
    ensures SentInv(Apply(t, a), names, inputs)
  {
    forall d: nat | d < |names| ensures SentAt(Apply(t, a), names, inputs, d) {
      assert ClientAt(t, names, d);
      if a.ServeClient? {
        ServingLogs(t, names, inputs, a.c, d);
      } else {
        LocalStepSends(t, a, names, inputs, d);
      }
    }
  }

  lemma {:induction false} RunSends(s: System, acts: seq<Action>, t: System, names: seq<string>, inputs: seq<seq<string>>)
    requires NamesOk(names) && ClientsInv(s, names) && LogInv(s, names) && SlotInv(s) && SentInv(s, names, inputs)
    requires Run(s, acts, t)
    ensures SentInv(t, names, inputs)
    decreases |acts|
  {
    if acts != [] {
      StepKeeps(s, acts[0], names);
      StepSends(s, acts[0], names, inputs);
      RunSends(Apply(s, acts[0]), acts[1..], t, names, inputs);
    }
  }

  lemma InitSends(master: int, names: seq<string>, inputs: seq<seq<string>>)
    requires |names| == |inputs|
    ensures SentInv(Init(master, names, inputs), names, inputs)
  {
    var s := Init(master, names, inputs);
    forall c: nat | c < |names| ensures SentAt(s, names, inputs, c) {
      assert inputs[c][0..] == inputs[c] && inputs[c][..0] == [];
      assert SentUpTo(s.clients[c], names[c], inputs[c], LinesOf(s.log, c), 0, []);
    }
  }

  /** In every reachable state, the lines of a client that the server has worked on, and the one on its
      way if there is one, are the transactions among the lines the client has read, in order and
      unchanged; when it has finished they are those of its whole input, and its total is their number. */
  lemma SentExactly(master: int, names: seq<string>, inputs: seq<seq<string>>, t: System, c: nat)
    requires WellFormed(names, inputs) && Reachable(master, names, inputs, t)
    requires c < |names| && c < |t.clients|
    ensures exists n: nat, pending :: SentUpTo(t.clients[c], names[c], inputs[c], LinesOf(t.log, c), n, pending)
    ensures t.clients[c].pc == Closed ==>
              LinesOf(t.log, c) == Transactions(inputs[c]) && t.clients[c].total == |Transactions(inputs[c])|
  {
    var acts :| Run(Init(master, names, inputs), acts, t);
    InitKeeps(master, names, inputs);
    InitSends(master, names, inputs);
    RunSends(Init(master, names, inputs), acts, t, names, inputs);
    ReachableInv(master, names, inputs, t);
    assert SentAt(t, names, inputs, c) && ClientAt(t, names, c);
    if t.clients[c].pc == Closed { AllSent(t.clients[c], names[c], inputs[c], LinesOf(t.log, c)); }
  }

  lemma AllSent(cl: Client, name: string, input: seq<string>, lines: seq<string>)
    requires cl.input == [] && cl.requests == [] && exists n: nat, pending :: SentUpTo(cl, name, input, lines, n, pending)
    ensures lines == Transactions(input) && cl.total == |Transactions(input)|
  {
    var n: nat, pending :| SentUpTo(cl, name, input, lines, n, pending);
    assert input[..n] == input && lines + pending == lines;
  }
}
