/**
 Requests of td-service that mark duplicates at the same time. Each checks its edge on the edges committed so far,
 and commits it later; nothing is locked in between.
 */
module DuplicateRaces {
  import opened Options
  import opened Chains
  import opened DuplicateChains

  // An edge that has passed its check. Stale: another edge of the project was committed since.
  datatype Pending = Pending(project: Uuid, duplicate: Uuid, master: Uuid, stale: bool)

  datatype State = State(dups: map<Uuid, DupRow>, pending: map<nat, Pending>)

  // Masters are visible: defects are never removed.
  datatype Action =
    | Check(request: nat, project: Uuid, duplicate: Uuid, master: Uuid)
    | Write(request: nat)

  ghost predicate Passes(dups: map<Uuid, DupRow>, e: Pending) {
    EdgeError(dups, true, e.project, e.duplicate, e.master).None?
  }

  // A request whose check fails, or whose defect is a duplicate already, ends there.
  ghost predicate Enabled(g: State, a: Action) {
    match a
    case Check(r, project, duplicate, master) =>
      r !in g.pending && duplicate !in g.dups && Passes(g.dups, Pending(project, duplicate, master, false))
    case Write(r) => r in g.pending
  }

  function Aged(e: Pending, project: Uuid): Pending { e.(stale := e.stale || e.project == project) }

  ghost function Next(g: State, a: Action): State
    requires Enabled(g, a)
  {
    match a
    case Check(r, project, duplicate, master) =>
      g.(pending := g.pending[r := Pending(project, duplicate, master, false)])
    case Write(r) =>
      var e := g.pending[r];
      if e.duplicate in g.dups then g.(pending := g.pending - {r})   // the row exists: refused
      else
        State(g.dups[e.duplicate := DupRow(e.project, e.master)],
              map q | q in g.pending && q != r :: Aged(g.pending[q], e.project))
  }

  ghost function After(g: State, run: seq<Action>, n: nat): State
    requires n <= |run|
    decreases n
  {
    if n == 0 then g
    else
      var h := After(g, run, n - 1);
      if Enabled(h, run[n - 1]) then Next(h, run[n - 1]) else h
  }

  ghost predicate Acyclic(dups: map<Uuid, DupRow>) {
    forall project {:trigger RowMasters(dups, project)} :: Forest(RowMasters(dups, project))
  }

  // The step writes an edge that has come to close a cycle.
  ghost predicate ClosesCycle(g: State, a: Action) {
    a.Write? && a.request in g.pending && g.pending[a.request].duplicate !in g.dups && !Passes(g.dups, g.pending[a.request])
  }

  lemma OneEdge(dups: map<Uuid, DupRow>, e: Pending, project: Uuid)
    requires e.duplicate !in dups
    ensures RowMasters(dups[e.duplicate := DupRow(e.project, e.master)], project) ==
            if project == e.project then RowMasters(dups, project)[e.duplicate := e.master] else RowMasters(dups, project)
  {
  }

  /** One step keeps the relation free of cycles exactly when it does not write an edge that fails the check by now. */
  lemma StepAcyclicIff(g: State, a: Action)
    requires Acyclic(g.dups) && Enabled(g, a)
    ensures Acyclic(Next(g, a).dups) <==> !ClosesCycle(g, a)
  {
    if a.Write? && g.pending[a.request].duplicate !in g.dups {
      var e := g.pending[a.request];
      var p: map<Uuid, Uuid> := RowMasters(g.dups, e.project);
      RelinkIff(p, e.duplicate, e.master);
      OneEdge(g.dups, e, e.project);
      assert Forest(RowMasters(Next(g, a).dups, e.project)) <==> Passes(g.dups, e);
      forall project | project != e.project
        ensures Forest(RowMasters(Next(g, a).dups, project))
      {
        OneEdge(g.dups, e, project);
        assert Forest(RowMasters(g.dups, project));
      }
    }
  }

  ghost predicate AcyclicUpTo(g: State, run: seq<Action>, n: nat)
    requires n <= |run|
  {
    forall i: nat {:trigger After(g, run, i)} | i <= n :: Acyclic(After(g, run, i).dups)
  }

  ghost predicate NoneCloses(g: State, run: seq<Action>, n: nat)
    requires n <= |run|
  {
    forall i: nat {:trigger After(g, run, i)} | i < n :: !ClosesCycle(After(g, run, i), run[i])
  }

  /** A whole run keeps it so exactly when no write closes a cycle. */
  lemma {:induction false} RunAcyclicIff(g: State, run: seq<Action>, n: nat)
    requires Acyclic(g.dups) && n <= |run|
    ensures AcyclicUpTo(g, run, n) <==> NoneCloses(g, run, n)
    decreases n
  {
    if n > 0 {
      RunAcyclicIff(g, run, n - 1);
      var h, a := After(g, run, n - 1), run[n - 1];
      if Acyclic(h.dups) && Enabled(h, a) {
        StepAcyclicIff(h, a);
      }
      assert AcyclicUpTo(g, run, n) <==> AcyclicUpTo(g, run, n - 1) && Acyclic(After(g, run, n).dups);
      assert NoneCloses(g, run, n) <==> NoneCloses(g, run, n - 1) && !ClosesCycle(h, a);
      assert AcyclicUpTo(g, run, n - 1) ==> Acyclic(h.dups);
    }
  }

  // ---------------------------------------------------------------------
  // Requests that do not overlap
  // ---------------------------------------------------------------------

  // What was checked and is not stale would pass again.
  ghost predicate FreshPasses(g: State) {
    forall r {:trigger g.pending[r]} | r in g.pending && !g.pending[r].stale :: Passes(g.dups, g.pending[r])
  }

  ghost predicate WritesFresh(g: State, a: Action) { a.Write? && a.request in g.pending ==> !g.pending[a.request].stale }

  lemma StepKeepsFresh(g: State, a: Action)
    requires FreshPasses(g) && Enabled(g, a)
    ensures FreshPasses(Next(g, a))
  {
    if a.Write? && g.pending[a.request].duplicate !in g.dups {
      var e, h := g.pending[a.request], Next(g, a);
      forall r | r in h.pending && !h.pending[r].stale
        ensures Passes(h.dups, h.pending[r])
      {
        assert Passes(g.dups, g.pending[r]);
        OneEdge(g.dups, e, h.pending[r].project);
      }
    }
  }

  /** When no edge of a project is committed between the check and the commit of another, no run makes a cycle. */
  lemma {:induction false} ApartKeepsAcyclic(g: State, run: seq<Action>, n: nat)
    requires Acyclic(g.dups) && g.pending == map[] && n <= |run|
    requires forall i: nat {:trigger After(g, run, i)} | i < n :: WritesFresh(After(g, run, i), run[i])
    ensures Acyclic(After(g, run, n).dups) && FreshPasses(After(g, run, n))
    decreases n
  {
    if n > 0 {
      ApartKeepsAcyclic(g, run, n - 1);
      var h, a := After(g, run, n - 1), run[n - 1];
      assert WritesFresh(h, a);
      if Enabled(h, a) {
        StepKeepsFresh(h, a);
        StepAcyclicIff(h, a);
      }
    }
  }

  // ---------------------------------------------------------------------
  // Two requests that overlap
  // ---------------------------------------------------------------------

  /** In the relation with one edge more, a chain goes on through the new edge. */
  lemma AncestorThrough(p: map<Uuid, Uuid>, a: Uuid, m: Uuid, x: Uuid, y: Uuid)
    requires Forest(p) && m != a && !IsAncestor(p, a, m)
    requires !InChain(p, y, x)
    ensures InChain(p[a := m], y, x) <==> InChain(p, y, a) && InChain(p, m, x)
  {
    var q: map<Uuid, Uuid> := p[a := m];
    if InChain(p, y, a) {
      var k: nat :| Up(p, y, k) == Some(a);
      EndsAll(p, y);
      var n: nat :| Ends(p, y, n);
      UpToMoved(p, q, a, y, k, n);
      forall j: nat
        ensures Up(q, y, k + 1 + j) == Up(p, m, j)
      {
        UpAdd(q, y, k, 1 + j);
        assert Up(q, a, 1 + j) == Up(q, q[a], j);
        UpElsewhere(p, q, a, m, j);
      }
      forall j: nat | j <= k
        ensures Up(q, y, j) == Up(p, y, j)
      {
        BelowMoved(p, q, a, y, k, j);
      }
      if InChain(p, m, x) {
        var j: nat :| Up(p, m, j) == Some(x);
        assert Up(q, y, k + 1 + j) == Some(x);
      }
      if InChain(q, y, x) {
        var i: nat :| Up(q, y, i) == Some(x);
        assert i > k ==> Up(q, y, k + 1 + (i - k - 1)) == Up(p, m, i - k - 1);
      }
    } else {
      InChainIff(p, y, a);
      forall i: nat
        ensures Up(q, y, i) == Up(p, y, i)
      {
        UpElsewhere(p, q, a, y, i);
      }
    }
  }

  // On the way to a nothing changes.
  lemma {:induction false} BelowMoved(p: map<Uuid, Uuid>, q: map<Uuid, Uuid>, a: Uuid, y: Uuid, k: nat, j: nat)
    requires Forest(p) && Up(p, y, k) == Some(a) && j <= k
    requires forall z :: z != a ==> (z in p <==> z in q) && (z in p ==> p[z] == q[z])
    ensures Up(q, y, j) == Up(p, y, j)
    decreases j
  {
    if j > 0 {
      if y == a {
        EndsAll(p, y);
        var n: nat :| Ends(p, y, n);
        NoReturn(p, y, n, k);
      } else {
        BelowMoved(p, q, a, p[y], k - 1, j - 1);
      }
    }
  }

  /** Two edges that pass the check on the same relation go together unless each leads to the other's duplicate. */
  lemma TogetherIff(p: map<Uuid, Uuid>, a: Uuid, m: Uuid, b: Uuid, n: Uuid)
    requires Forest(p) && a != b && m != a && n != b && !IsAncestor(p, a, m) && !IsAncestor(p, b, n)
    ensures Forest<Uuid>(p[a := m][b := n]) <==> !(InChain(p, m, b) && InChain(p, n, a))
  {
    var q: map<Uuid, Uuid> := p[a := m];
    RelinkIff(p, a, m);
    RelinkIff(q, b, n);
    InChainIff(p, n, b);
    InChainIff(q, n, b);
    AncestorThrough(p, a, m, b, n);
  }

  /**
   Two requests of one project check their edges before either commits: both are committed, and the relation stays
   free of cycles exactly when not each of the masters leads up to the other's duplicate.
   */
  lemma OverlapIff(g: State, project: Uuid, a: Uuid, m: Uuid, b: Uuid, n: Uuid)
    requires Acyclic(g.dups) && g.pending == map[] && a != b
    requires Enabled(g, Check(0, project, a, m)) && Enabled(g, Check(1, project, b, n))
    ensures var run := [Check(0, project, a, m), Check(1, project, b, n), Write(0), Write(1)];
            var p: map<Uuid, Uuid> := RowMasters(g.dups, project);
            && After(g, run, 4).dups == g.dups[a := DupRow(project, m)][b := DupRow(project, n)]
            && (Acyclic(After(g, run, 4).dups) <==> !(InChain(p, m, b) && InChain(p, n, a)))
  {
    var run := [Check(0, project, a, m), Check(1, project, b, n), Write(0), Write(1)];
    var e, f := Pending(project, a, m, false), Pending(project, b, n, false);
    assert After(g, run, 0) == g;
    assert After(g, run, 1) == State(g.dups, map[0 := e]);
    assert After(g, run, 2) == State(g.dups, map[0 := e, 1 := f]);
    var dups1 := g.dups[a := DupRow(project, m)];
    assert After(g, run, 3) == State(dups1, map[1 := Aged(f, project)]);
    var dups2 := dups1[b := DupRow(project, n)];
    assert After(g, run, 4) == State(dups2, map[]);
    var p: map<Uuid, Uuid> := RowMasters(g.dups, project);
    OneEdge(g.dups, e, project);
    OneEdge(dups1, f, project);
    TogetherIff(p, a, m, b, n);
    forall other | other != project
      ensures Forest(RowMasters(dups2, other))
    {
      OneEdge(g.dups, e, other);
      OneEdge(dups1, f, other);
      assert Forest(RowMasters(g.dups, other));
    }
  }

  // ---------------------------------------------------------------------
  // The recursive query on a cycle
  // ---------------------------------------------------------------------

  // The working table after k rounds.
  function Round(dups: map<Uuid, DupRow>, project: Uuid, master: Uuid, k: nat): seq<Uuid> {
    if k == 0 then [master] else Join(dups, project, Round(dups, project, master, k - 1))
  }

  ghost predicate RunsDry(dups: map<Uuid, DupRow>, project: Uuid, master: Uuid) {
    exists k: nat :: Round(dups, project, master, k) == []
  }

  lemma {:induction false} RoundIsUp(dups: map<Uuid, DupRow>, project: Uuid, master: Uuid, k: nat)
    ensures HoldsUp(Round(dups, project, master, k), Up(RowMasters(dups, project), master, k))
  {
    if k > 0 {
      RoundIsUp(dups, project, master, k - 1);
      JoinIsUp(dups, project, master, k - 1, Round(dups, project, master, k - 1));
    }
  }

  /** The query runs out of rows exactly when the master's chain ends. */
  lemma QueryEndsIff(dups: map<Uuid, DupRow>, project: Uuid, master: Uuid)
    ensures RunsDry(dups, project, master) <==> Terminates(RowMasters(dups, project), master)
  {
    var p: map<Uuid, Uuid> := RowMasters(dups, project);
    if RunsDry(dups, project, master) {
      var k: nat :| Round(dups, project, master, k) == [];
      RoundIsUp(dups, project, master, k);
      NoneEnds(p, master, k);
    }
    if Terminates(p, master) {
      var n: nat :| Ends(p, master, n);
      if Up(p, master, n + 1).Some? {
        EndsAbove(p, master, n, n + 1);
      }
      RoundIsUp(dups, project, master, n + 1);
      assert Round(dups, project, master, n + 1) == [];
    }
  }

  lemma {:induction false} NoneEnds(p: map<Uuid, Uuid>, x: Uuid, k: nat)
    requires Up(p, x, k).None?
    ensures Ends(p, x, k)
    decreases k
  {
    if x in p {
      NoneEnds(p, p[x], k - 1);
    }
  }

  /**
   Each of two defects is marked as a duplicate of the other, and both requests succeed. The query that checks a
   third duplicate of either never runs dry.
   */
  lemma CycleHappens(project: Uuid, a: Uuid, b: Uuid)
    requires a != b
    ensures var g := State(map[], map[]);
            var run := [Check(0, project, a, b), Check(1, project, b, a), Write(0), Write(1)];
            !Acyclic(After(g, run, 4).dups) && !RunsDry(After(g, run, 4).dups, project, a)
  {
    var g := State(map[], map[]);
    forall q
      ensures RowMasters(g.dups, q) == map[]
    {
    }
    assert !IsAncestor(RowMasters(g.dups, project), a, b) by {
      NoAncestors(a, b);
    }
    assert !IsAncestor(RowMasters(g.dups, project), b, a) by {
      NoAncestors(b, a);
    }
    OverlapIff(g, project, a, b, b, a);
    InChainIff(RowMasters(g.dups, project), b, b);
    InChainIff(RowMasters(g.dups, project), a, a);
    TwoCycle(g.dups[a := DupRow(project, b)][b := DupRow(project, a)], project, a, b);
  }

  lemma NoAncestors(a: Uuid, x: Uuid)
    ensures !IsAncestor(map[], a, x)
  {
    var p: map<Uuid, Uuid> := map[];
    forall k: nat | k > 0
      ensures Up(p, x, k) != Some(a)
    {
    }
  }

  lemma TwoCycle(dups: map<Uuid, DupRow>, project: Uuid, a: Uuid, b: Uuid)
    requires a in dups && dups[a] == DupRow(project, b) && b in dups && dups[b] == DupRow(project, a)
    ensures !RunsDry(dups, project, a)
  {
    var p: map<Uuid, Uuid> := RowMasters(dups, project);
    QueryEndsIff(dups, project, a);
    assert Up(p, a, 2) == Up(p, b, 1) == Up(p, a, 0);
    if Terminates(p, a) {
      var n: nat :| Ends(p, a, n);
      NoReturn(p, a, n, 2);
    }
  }
}
