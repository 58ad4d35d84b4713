/** The descendant walk of Assignment_1/msh379.cpp: `get_c_processes` lists the processes below a
    pid from a flat table of (pid, parent pid) rows, recursing into each child as it is printed. */
module ProcessTree {
  import opened Sets

  datatype Process = Process(pid: string, ppid: string, line: string)

  type Table = seq<Process>

  // ---------------------------------------------------------------- reference: transitive closure

  /** Row path[0] is a child of `target`, and each row of the path is a child of the one before. */
  ghost predicate Path(ps: Table, target: string, path: seq<nat>) {
    && path != []
    && (forall k | 0 <= k < |path| :: path[k] < |ps|)
    && ps[path[0]].ppid == target
    && (forall j, k | 0 <= j < k < |path| && k == j + 1 :: ps[path[k]].ppid == ps[path[j]].pid)
  }

  ghost predicate Descends(ps: Table, i: nat, target: string) {
    exists path :: Path(ps, target, path) && path[|path| - 1] == i
  }

  ghost function Descendants(ps: Table, target: string): set<nat> {
    set i: nat | i < |ps| && Descends(ps, i, target)
  }

  /** No process below `target` is its own descendant. */
  ghost predicate AcyclicBelow(ps: Table, target: string) {
    forall i: nat {:trigger Descends(ps, i, target)} | i < |ps| && Descends(ps, i, target) :: !Descends(ps, i, ps[i].pid)
  }

  predicate DistinctPids(ps: Table) {
    forall i, j | 0 <= i < j < |ps| :: ps[i].pid != ps[j].pid
  }

  lemma ChildDescends(ps: Table, c: nat, target: string)
    requires c < |ps| && ps[c].ppid == target
    ensures Descends(ps, c, target)
  {
    assert Path(ps, target, [c]);
  }

  lemma BelowChild(ps: Table, i: nat, c: nat, target: string)
    requires c < |ps| && ps[c].ppid == target && Descends(ps, i, ps[c].pid)
    ensures i < |ps| && Descends(ps, i, target)
  {
    var path :| Path(ps, ps[c].pid, path) && path[|path| - 1] == i;
    assert Path(ps, target, [c] + path);
  }

  lemma FirstStep(ps: Table, i: nat, target: string) returns (c: nat)
    requires Descends(ps, i, target)
    ensures c < |ps| && ps[c].ppid == target && (i == c || Descends(ps, i, ps[c].pid))
  {
    var path :| Path(ps, target, path) && path[|path| - 1] == i;
    c := path[0];
    if |path| > 1 {
      assert Path(ps, ps[c].pid, path[1..]);
    }
  }

  /** The termination measure: a child has strictly fewer descendants than its parent. */
  lemma ChildHasFewer(ps: Table, c: nat, target: string)
    requires c < |ps| && ps[c].ppid == target && AcyclicBelow(ps, target)
    ensures AcyclicBelow(ps, ps[c].pid)
    ensures |Descendants(ps, ps[c].pid)| < |Descendants(ps, target)|
  {
    ChildDescends(ps, c, target);
    forall i: nat | i < |ps| && Descends(ps, i, ps[c].pid)
      ensures Descends(ps, i, target) { BelowChild(ps, i, c, target); }
    var below := Descendants(ps, ps[c].pid);
    assert below <= Descendants(ps, target) - {c};
    SubsetSize(below, Descendants(ps, target) - {c});
  }

  // ---------------------------------------------------------------- the walk

  /** A child, everything below it, and what follows. */
  function Nested(k: nat, below: seq<nat>, rest: seq<nat>): seq<nat> { [k] + below + rest }

  /** The rows printed for `target`, scanning the table from row `k`. */
  ghost function Walk(ps: Table, target: string, k: nat): seq<nat>
    requires AcyclicBelow(ps, target) && k <= |ps|
    decreases |Descendants(ps, target)|, |ps| - k
  {
    if k == |ps| then []
    else if ps[k].ppid == target then
      ChildHasFewer(ps, k, target);
      Nested(k, Walk(ps, ps[k].pid, 0), Walk(ps, target, k + 1))
    else Walk(ps, target, k + 1)
  }

  predicate InTable(ps: Table, rows: seq<nat>) { forall n | 0 <= n < |rows| :: rows[n] < |ps| }

  function Lines(ps: Table, rows: seq<nat>): seq<Process>
    requires InTable(ps, rows)
  {
    seq(|rows|, k requires 0 <= k < |rows| => ps[rows[k]])
  }

  class Shell {
    var processes: Table
    var printed: seq<Process>

    constructor (ps: Table)
      ensures processes == ps && printed == []
    {
      processes, printed := ps, [];
    }

    method GetChildProcesses(targetPid: string)
      requires AcyclicBelow(processes, targetPid)
      modifies this`printed
      ensures InTable(processes, Walk(processes, targetPid, 0))
      ensures printed == old(printed) + Lines(processes, Walk(processes, targetPid, 0))
      decreases |Descendants(processes, targetPid)|
    {
      ghost var ps, prior := processes, printed;
      ghost var done: seq<nat> := [];
      var k := 0;
      while k < |processes|
        invariant processes == ps && 0 <= k <= |ps|
        invariant Walk(ps, targetPid, 0) == done + Walk(ps, targetPid, k)
        invariant InTable(ps, done)
        invariant printed == prior + Lines(ps, done)
      {
        var current := processes[k];
        if current.ppid == targetPid {
          ChildHasFewer(ps, k, targetPid);
          WalkChild(ps, targetPid, k, done);
          printed := printed + [current];
          GetChildProcesses(current.pid);
          LinesNested(ps, prior, done, k, Walk(ps, current.pid, 0));
          done := Extend(done, k, Walk(ps, current.pid, 0));
        } else {
          WalkOther(ps, targetPid, k);
        }
        k := k + 1;
      }
    }
  }

  /** The listing after a child and everything below it. */
  function Extend(done: seq<nat>, k: nat, below: seq<nat>): seq<nat> { done + ([k] + below) }

  lemma WalkChild(ps: Table, target: string, k: nat, done: seq<nat>)
    requires AcyclicBelow(ps, target) && k < |ps| && ps[k].ppid == target && AcyclicBelow(ps, ps[k].pid)
    ensures done + Walk(ps, target, k) == Extend(done, k, Walk(ps, ps[k].pid, 0)) + Walk(ps, target, k + 1)
  {
  }

  lemma WalkOther(ps: Table, target: string, k: nat)
    requires AcyclicBelow(ps, target) && k < |ps| && ps[k].ppid != target
    ensures Walk(ps, target, k) == Walk(ps, target, k + 1)
  {
  }

  lemma LinesNested(ps: Table, prior: seq<Process>, done: seq<nat>, k: nat, below: seq<nat>)
    requires InTable(ps, done) && k < |ps| && InTable(ps, below)
    ensures InTable(ps, Extend(done, k, below))
    ensures prior + Lines(ps, Extend(done, k, below)) == prior + Lines(ps, done) + [ps[k]] + Lines(ps, below)
  {
    assert Lines(ps, Extend(done, k, below)) == (Lines(ps, done) + [ps[k]]) + Lines(ps, below);
  }

  // ---------------------------------------------------------------- when the recursion ends

  datatype Outcome = Ends(rows: seq<nat>) | TooDeep

  /** The walk with a limit on the depth of the recursion, for any table at all. */
  function WalkWithin(ps: Table, target: string, k: nat, depth: nat): Outcome
    requires k <= |ps|
    decreases depth, |ps| - k
  {
    if depth == 0 then TooDeep
    else if k == |ps| then Ends([])
    else if ps[k].ppid != target then WalkWithin(ps, target, k + 1, depth)
    else
      var below := WalkWithin(ps, ps[k].pid, 0, depth - 1);
      var rest := WalkWithin(ps, target, k + 1, depth);
      if below.Ends? && rest.Ends? then Ends(Nested(k, below.rows, rest.rows)) else TooDeep
  }

  lemma EnoughDepthHere(ps: Table, target: string, k: nat, depth: nat)
    requires AcyclicBelow(ps, target) && k < |ps| && depth > 0 && ps[k].ppid == target && AcyclicBelow(ps, ps[k].pid)
    requires WalkWithin(ps, ps[k].pid, 0, depth - 1) == Ends(Walk(ps, ps[k].pid, 0))
    requires WalkWithin(ps, target, k + 1, depth) == Ends(Walk(ps, target, k + 1))
    ensures WalkWithin(ps, target, k, depth) == Ends(Walk(ps, target, k))
  {
  }

  lemma {:induction false} EnoughDepth(ps: Table, target: string, k: nat, depth: nat)
    requires AcyclicBelow(ps, target) && k <= |ps| && |Descendants(ps, target)| < depth
    ensures WalkWithin(ps, target, k, depth) == Ends(Walk(ps, target, k))
    decreases |Descendants(ps, target)|, |ps| - k
  {
    if k < |ps| {
      EnoughDepth(ps, target, k + 1, depth);
      if ps[k].ppid == target {
        ChildHasFewer(ps, k, target);
        EnoughDepth(ps, ps[k].pid, 0, depth - 1);
        EnoughDepthHere(ps, target, k, depth);
      } else {
        WalkOther(ps, target, k);
      }
    }
  }

  // ---------------------------------------------------------------- exactness

  lemma WalkSkips(ps: Table, target: string, k: nat, i: nat)
    requires AcyclicBelow(ps, target) && k < |ps| && i in Walk(ps, target, k + 1)
    ensures i in Walk(ps, target, k)
  {
  }

  lemma WalkVisits(ps: Table, target: string, c: nat, i: nat)
    requires AcyclicBelow(ps, target) && c < |ps| && ps[c].ppid == target
    requires AcyclicBelow(ps, ps[c].pid) && (i == c || i in Walk(ps, ps[c].pid, 0))
    ensures i in Walk(ps, target, c)
  {
  }

  lemma {:induction false} WalkComplete(ps: Table, target: string, k: nat, c: nat, i: nat)
    requires AcyclicBelow(ps, target) && k <= c < |ps| && ps[c].ppid == target
    requires i == c || Descends(ps, i, ps[c].pid)
    ensures i in Walk(ps, target, k)
    decreases |Descendants(ps, target)|, |ps| - k
  {
    if k < c {
      WalkComplete(ps, target, k + 1, c, i);
      WalkSkips(ps, target, k, i);
    } else {
      ChildHasFewer(ps, c, target);
      if i != c {
        var d := FirstStep(ps, i, ps[c].pid);
        WalkComplete(ps, ps[c].pid, 0, d, i);
      }
      WalkVisits(ps, target, c, i);
    }
  }

  /** With distinct pids a row determines the path above it: of two paths to the same row, the
      shorter is the end of the longer. */
  lemma {:induction false} PathsAgree(ps: Table, s: string, p: seq<nat>, t: string, q: seq<nat>)
    requires DistinctPids(ps) && Path(ps, s, p) && Path(ps, t, q) && p[|p| - 1] == q[|q| - 1] && |p| <= |q|
    ensures q[|q| - |p|..] == p
    decreases |p|
  {
    if |p| > 1 {
      var p', q' := p[..|p| - 1], q[..|q| - 1];
      assert ps[p'[|p'| - 1]].pid == ps[p[|p| - 1]].ppid;
      assert ps[q'[|q'| - 1]].pid == ps[q[|q| - 1]].ppid;
      assert p'[|p'| - 1] == q'[|q'| - 1];
      PathsAgree(ps, s, p', t, q');
      assert q[|q| - |p|..] == q'[|q'| - |p'|..] + [q[|q| - 1]];
      assert p == p' + [p[|p| - 1]];
    }
  }

  /** Nothing is below two different children of the same process. */
  lemma SubtreesApart(ps: Table, target: string, a: nat, b: nat, i: nat)
    requires DistinctPids(ps) && AcyclicBelow(ps, target)
    requires a < |ps| && b < |ps| && ps[a].ppid == target && ps[b].ppid == target
    requires i == a || Descends(ps, i, ps[a].pid)
    requires i == b || Descends(ps, i, ps[b].pid)
    ensures a == b
  {
    var p := PathThrough(ps, target, a, i);
    var q := PathThrough(ps, target, b, i);
    if |p| <= |q| {
      MeetAtTarget(ps, target, p, q);
    } else {
      MeetAtTarget(ps, target, q, p);
    }
  }

  lemma PathThrough(ps: Table, target: string, c: nat, i: nat) returns (path: seq<nat>)
    requires c < |ps| && ps[c].ppid == target && (i == c || Descends(ps, i, ps[c].pid))
    ensures Path(ps, target, path) && path[0] == c && path[|path| - 1] == i
  {
    if i == c {
      path := [c];
    } else {
      var rest :| Path(ps, ps[c].pid, rest) && rest[|rest| - 1] == i;
      path := [c] + rest;
    }
  }

  lemma MeetAtTarget(ps: Table, target: string, p: seq<nat>, q: seq<nat>)
    requires DistinctPids(ps) && AcyclicBelow(ps, target) && |p| <= |q|
    requires Path(ps, target, p) && Path(ps, target, q) && p[|p| - 1] == q[|q| - 1]
    ensures p[0] == q[0]
  {
    PathsAgree(ps, target, p, target, q);
    var d := |q| - |p|;
    assert q[d..][0] == p[0];
    if d > 0 { NeverBack(ps, target, q, d); }
  }

  /** A path never comes back to the pid it started from. */
  lemma NeverBack(ps: Table, target: string, q: seq<nat>, d: nat)
    requires AcyclicBelow(ps, target) && Path(ps, target, q) && 0 < d <= |q|
    ensures ps[q[d - 1]].pid != target
  {
    assert Path(ps, target, q[..d]);
    assert Descends(ps, q[..d][d - 1], target);
  }

  predicate NoRepeats(s: seq<nat>) { forall i, j | 0 <= i < j < |s| :: s[i] != s[j] }

  /** Row `i` is a child of the target at or after row `k`, or below such a child. */
  ghost predicate UnderFrom(ps: Table, target: string, k: nat, i: nat) {
    exists c: nat :: k <= c < |ps| && ps[c].ppid == target && (i == c || Descends(ps, i, ps[c].pid))
  }

  lemma NestNoRepeats(ps: Table, target: string, k: nat, below: seq<nat>, rest: seq<nat>)
    requires DistinctPids(ps) && AcyclicBelow(ps, target) && k < |ps| && ps[k].ppid == target
    requires NoRepeats(below) && forall i | i in below :: Descends(ps, i, ps[k].pid)
    requires NoRepeats(rest) && forall i | i in rest :: UnderFrom(ps, target, k + 1, i)
    ensures NoRepeats(Nested(k, below, rest))
  {
    ChildDescends(ps, k, target);
    forall x, y | x in [k] + below && y in rest ensures x != y {
      if x == y {
        var c: nat :| k + 1 <= c < |ps| && ps[c].ppid == target && (y == c || Descends(ps, y, ps[c].pid));
        SubtreesApart(ps, target, k, c, y);
      }
    }
    assert k !in below;
    AppendNoRepeats([k], below);
    AppendNoRepeats([k] + below, rest);
  }

  lemma UnderNested(ps: Table, target: string, k: nat, below: seq<nat>, rest: seq<nat>)
    requires k < |ps| && ps[k].ppid == target
    requires forall i | i in below :: Descends(ps, i, ps[k].pid)
    requires forall i | i in rest :: UnderFrom(ps, target, k + 1, i)
    ensures forall i | i in Nested(k, below, rest) :: UnderFrom(ps, target, k, i)
  {
  }

  lemma UnderDescends(ps: Table, target: string, k: nat, i: nat)
    requires UnderFrom(ps, target, k, i)
    ensures i < |ps| && Descends(ps, i, target)
  {
    var c: nat :| k <= c < |ps| && ps[c].ppid == target && (i == c || Descends(ps, i, ps[c].pid));
    ChildDescends(ps, c, target);
    if i != c { BelowChild(ps, i, c, target); }
  }

  lemma {:induction false} RowsUnder(ps: Table, target: string, k: nat, depth: nat)
    requires k <= |ps| && WalkWithin(ps, target, k, depth).Ends?
    ensures forall i | i in WalkWithin(ps, target, k, depth).rows :: UnderFrom(ps, target, k, i)
    decreases depth, |ps| - k
  {
    if k < |ps| {
      RowsUnder(ps, target, k + 1, depth);
      if ps[k].ppid == target {
        RowsUnder(ps, ps[k].pid, 0, depth - 1);
        var below := WalkWithin(ps, ps[k].pid, 0, depth - 1).rows;
        forall i | i in below ensures Descends(ps, i, ps[k].pid) { UnderDescends(ps, ps[k].pid, 0, i); }
        UnderNested(ps, target, k, below, WalkWithin(ps, target, k + 1, depth).rows);
      }
    }
  }

  lemma ListsNoRepeats(ps: Table, target: string, k: nat, below: seq<nat>, rest: seq<nat>)
    requires DistinctPids(ps) && AcyclicBelow(ps, target) && k < |ps| && ps[k].ppid == target
    requires NoRepeats(below) && forall i | i in below :: UnderFrom(ps, ps[k].pid, 0, i)
    requires NoRepeats(rest) && forall i | i in rest :: UnderFrom(ps, target, k + 1, i)
    ensures NoRepeats(Nested(k, below, rest))
  {
    forall i | i in below ensures Descends(ps, i, ps[k].pid) { UnderDescends(ps, ps[k].pid, 0, i); }
    NestNoRepeats(ps, target, k, below, rest);
  }

  lemma {:induction false} RowsNoRepeats(ps: Table, target: string, k: nat, depth: nat, rows: seq<nat>)
    requires DistinctPids(ps) && AcyclicBelow(ps, target)
    requires k <= |ps| && WalkWithin(ps, target, k, depth) == Ends(rows)
    ensures NoRepeats(rows)
    decreases depth, |ps| - k
  {
    if k < |ps| && ps[k].ppid == target {
      var below := WalkWithin(ps, ps[k].pid, 0, depth - 1).rows;
      var rest := WalkWithin(ps, target, k + 1, depth).rows;
      ChildHasFewer(ps, k, target);
      RowsNoRepeats(ps, ps[k].pid, 0, depth - 1, below);
      RowsNoRepeats(ps, target, k + 1, depth, rest);
      RowsUnder(ps, ps[k].pid, 0, depth - 1);
      RowsUnder(ps, target, k + 1, depth);
      ListsNoRepeats(ps, target, k, below, rest);
    } else if k < |ps| {
      RowsNoRepeats(ps, target, k + 1, depth, rows);
    }
  }

  lemma AppendNoRepeats(a: seq<nat>, b: seq<nat>)
    requires NoRepeats(a) && NoRepeats(b) && forall x, y | x in a && y in b :: x != y
    ensures NoRepeats(a + b)
  {
    forall i, j | 0 <= i < j < |a + b| ensures (a + b)[i] != (a + b)[j] {
      if i < |a| <= j {
        assert a[i] in a && b[j - |a|] in b;
      }
    }
  }

  /** Position `n` of a listing has its parent row before it, unless it is a child of the target. */
  predicate ParentFirst(ps: Table, target: string, rows: seq<nat>)
    requires InTable(ps, rows)
  {
    forall n | 0 <= n < |rows| ::
      ps[rows[n]].ppid == target || exists m :: 0 <= m < n && ps[rows[m]].pid == ps[rows[n]].ppid
  }

  lemma {:induction false} RowsParentFirst(ps: Table, target: string, k: nat, depth: nat)
    requires k <= |ps| && WalkWithin(ps, target, k, depth).Ends?
    ensures InTable(ps, WalkWithin(ps, target, k, depth).rows)
    ensures ParentFirst(ps, target, WalkWithin(ps, target, k, depth).rows)
    decreases depth, |ps| - k
  {
    if k < |ps| {
      RowsParentFirst(ps, target, k + 1, depth);
      if ps[k].ppid == target {
        RowsParentFirst(ps, ps[k].pid, 0, depth - 1);
        NestParentFirst(ps, target, k, WalkWithin(ps, ps[k].pid, 0, depth - 1).rows, WalkWithin(ps, target, k + 1, depth).rows);
      }
    }
  }

  lemma NestParentFirst(ps: Table, target: string, k: nat, below: seq<nat>, rest: seq<nat>)
    requires k < |ps| && ps[k].ppid == target
    requires InTable(ps, below)
    requires InTable(ps, rest)
    requires ParentFirst(ps, ps[k].pid, below) && ParentFirst(ps, target, rest)
    ensures InTable(ps, Nested(k, below, rest))
    ensures ParentFirst(ps, target, Nested(k, below, rest))
  {
    var rows := [k] + below + rest;
    forall n | 0 <= n < |rows|
      ensures ps[rows[n]].ppid == target || exists m :: 0 <= m < n && ps[rows[m]].pid == ps[rows[n]].ppid
    {
      if 1 <= n <= |below| {
        assert rows[n] == below[n - 1];
        if ps[rows[n]].ppid == ps[k].pid {
          assert rows[0] == k;
        } else {
          var m :| 0 <= m < n - 1 && ps[below[m]].pid == ps[below[n - 1]].ppid;
          assert rows[m + 1] == below[m];
        }
      } else if n > |below| {
        var d := 1 + |below|;
        assert rows[n] == rest[n - d];
        if ps[rows[n]].ppid != target {
          var m :| 0 <= m < n - d && ps[rest[m]].pid == ps[rest[n - d]].ppid;
          assert rows[m + d] == rest[m];
        }
      }
    }
  }

  /** The walk is exact: it lists every transitive descendant of the target, each once and nothing
      else, and each parent before its children. */
  lemma WalkExact(ps: Table, target: string)
    requires DistinctPids(ps) && AcyclicBelow(ps, target)
    ensures forall i: nat :: i in Walk(ps, target, 0) <==> i < |ps| && Descends(ps, i, target)
    ensures NoRepeats(Walk(ps, target, 0))
    ensures InTable(ps, Walk(ps, target, 0)) && ParentFirst(ps, target, Walk(ps, target, 0))
  {
    var depth := |Descendants(ps, target)| + 1;
    EnoughDepth(ps, target, 0, depth);
    RowsUnder(ps, target, 0, depth);
    RowsNoRepeats(ps, target, 0, depth, Walk(ps, target, 0));
    RowsParentFirst(ps, target, 0, depth);
    forall i | i in Walk(ps, target, 0) ensures i < |ps| && Descends(ps, i, target) {
      UnderDescends(ps, target, 0, i);
    }
    forall i: nat | i < |ps| && Descends(ps, i, target) ensures i in Walk(ps, target, 0) {
      var c := FirstStep(ps, i, target);
      WalkComplete(ps, target, 0, c, i);
    }
  }

  /** A walk that ends within a depth has followed every path below the target to its end. */
  lemma {:induction false} PathsWithin(ps: Table, target: string, k: nat, depth: nat, path: seq<nat>)
    requires k <= |ps| && WalkWithin(ps, target, k, depth).Ends?
    requires Path(ps, target, path) && k <= path[0]
    ensures |path| < depth
    decreases |path|, |ps| - k
  {
    if k < path[0] {
      PathsWithin(ps, target, k + 1, depth, path);
    } else if |path| > 1 {
      assert Path(ps, ps[k].pid, path[1..]);
      PathsWithin(ps, ps[k].pid, 0, depth - 1, path[1..]);
    } else {
      assert WalkWithin(ps, ps[k].pid, 0, depth - 1).Ends?;
    }
  }

  /** Going round a cycle makes paths of any length. */
  lemma {:induction false} RoundAndRound(ps: Table, target: string, i: nat, n: nat) returns (path: seq<nat>)
    requires i < |ps| && Descends(ps, i, target) && Descends(ps, i, ps[i].pid)
    ensures Path(ps, target, path) && path[|path| - 1] == i && |path| >= n
  {
    if n == 0 {
      path :| Path(ps, target, path) && path[|path| - 1] == i;
    } else {
      var once := RoundAndRound(ps, target, i, n - 1);
      var loop :| Path(ps, ps[i].pid, loop) && loop[|loop| - 1] == i;
      path := once + loop;
    }
  }

  /** The recursion of `get_c_processes` ends exactly when no process below the target is its own
      descendant; and then it prints the walk. */
  lemma EndsExactly(ps: Table, target: string)
    ensures (exists depth :: WalkWithin(ps, target, 0, depth).Ends?) <==> AcyclicBelow(ps, target)
    ensures AcyclicBelow(ps, target) ==>
              WalkWithin(ps, target, 0, |Descendants(ps, target)| + 1) == Ends(Walk(ps, target, 0))
  {
    if depth :| WalkWithin(ps, target, 0, depth).Ends? {
      forall i: nat | i < |ps| && Descends(ps, i, target) ensures !Descends(ps, i, ps[i].pid) {
        if Descends(ps, i, ps[i].pid) {
          var path := RoundAndRound(ps, target, i, depth);
          PathsWithin(ps, target, 0, depth, path);
        }
      }
    }
    if AcyclicBelow(ps, target) {
      EnoughDepth(ps, target, 0, |Descendants(ps, target)| + 1);
    }
  }
}
