/**
 Duplicate defects and their masters in td-service. Three pieces of code decide whether a new
 edge would close a cycle: a walk over the aggregates, a walk over the rows, and a recursive query.
 */
module DuplicateChains {
  import opened Options
  import opened Chains
  import opened DefectWorkflow

  datatype DupRow = DupRow(project: Uuid, master: Uuid)

  /** Duplicate to master, as the loaded aggregates of a project have it. */
  function Masters(defects: map<Uuid, Value>, project: Uuid): map<Uuid, Uuid> {
    map id | id in defects && defects[id].project == project && defects[id].duplicateOf.Some? ::
      defects[id].duplicateOf.value
  }

  /** Duplicate to master, as the rows of a project have it. */
  function RowMasters(dups: map<Uuid, DupRow>, project: Uuid): map<Uuid, Uuid> {
    map id | id in dups && dups[id].project == project :: dups[id].master
  }

  /** x is the master itself or a master further up. */
  ghost predicate InChain(p: map<Uuid, Uuid>, master: Uuid, x: Uuid) {
    exists k: nat :: Up(p, master, k) == Some(x)
  }

  lemma InChainIff(p: map<Uuid, Uuid>, master: Uuid, x: Uuid)
    ensures InChain(p, master, x) <==> x == master || IsAncestor(p, x, master)
  {
    assert Up(p, master, 0) == Some(master);
  }

  // What a walk has seen after i steps.
  ghost predicate SeenBy(p: map<Uuid, Uuid>, master: Uuid, i: nat, x: Uuid) {
    exists k: nat :: k < i && Up(p, master, k) == Some(x)
  }

  /** A walk that meets a seen element again has seen the whole chain. */
  lemma {:induction false} Circular(p: map<Uuid, Uuid>, master: Uuid, i: nat, k: nat)
    requires Up(p, master, i).Some? && SeenBy(p, master, i, Up(p, master, i).value)
    requires Up(p, master, k).Some?
    ensures SeenBy(p, master, i, Up(p, master, k).value)
    decreases k
  {
    if k >= i {
      var j: nat :| j < i && Up(p, master, j) == Up(p, master, i);
      UpAdd(p, master, i, k - i);
      UpAdd(p, master, j, k - i);
      assert i + (k - i) == k;
      Circular(p, master, i, j + (k - i));
    }
  }

  lemma WalkEnds(p: map<Uuid, Uuid>, master: Uuid, i: nat, seen: set<Uuid>)
    requires forall x :: x in seen <==> SeenBy(p, master, i, x)
    requires Up(p, master, i).None? || Up(p, master, i).value in seen
    ensures forall x :: x in seen <==> InChain(p, master, x)
  {
    forall x | InChain(p, master, x)
      ensures x in seen
    {
      var k: nat :| Up(p, master, k) == Some(x);
      if Up(p, master, i).Some? {
        Circular(p, master, i, k);
      } else if k >= i {
        UpPrefix(p, master, i, k);
      }
    }
  }

  lemma SeenNext(p: map<Uuid, Uuid>, master: Uuid, i: nat, seen: set<Uuid>)
    requires forall x :: x in seen <==> SeenBy(p, master, i, x)
    requires Up(p, master, i).Some?
    ensures forall x :: x in seen + {Up(p, master, i).value} <==> SeenBy(p, master, i + 1, x)
    ensures Up(p, master, i + 1) ==
            if Up(p, master, i).value in p then Some(p[Up(p, master, i).value]) else None
  {
    UpSucc(p, master, i);
    assert SeenBy(p, master, i + 1, Up(p, master, i).value);
  }

  /** The walk over the aggregates. It ends on every store, and finds exactly the master's chain. */
  method MemoryAncestors(defects: map<Uuid, Value>, project: Uuid, master: Uuid) returns (ancestors: set<Uuid>)
    ensures forall x :: x in ancestors <==> InChain(Masters(defects, project), master, x)
  {
    ghost var p := Masters(defects, project);
    ghost var i: nat := 0;
    ghost var all := p.Values + {master};
    ancestors := {};
    var current := Some(master);
    while current.Some?
      invariant Up(p, master, i) == current
      invariant forall x :: x in ancestors <==> SeenBy(p, master, i, x)
      invariant current.Some? ==> current.value in all
      decreases all - ancestors, if current.Some? then 1 else 0
    {
      if current.value in ancestors {
        break;
      }
      SeenNext(p, master, i, ancestors);
      ancestors := ancestors + {current.value};
      i := i + 1;
      current := if current.value in defects && defects[current.value].project == project
                 then defects[current.value].duplicateOf else None;
    }
    WalkEnds(p, master, i, ancestors);
  }

  /** The walk over the duplicate rows. */
  method RowAncestors(dups: map<Uuid, DupRow>, project: Uuid, master: Uuid) returns (ancestors: set<Uuid>)
    ensures forall x :: x in ancestors <==> InChain(RowMasters(dups, project), master, x)
  {
    ghost var p := RowMasters(dups, project);
    ghost var i: nat := 0;
    ghost var all := p.Values + {master};
    ancestors := {};
    var current := Some(master);
    while current.Some? && current.value !in ancestors
      invariant Up(p, master, i) == current
      invariant forall x :: x in ancestors <==> SeenBy(p, master, i, x)
      invariant current.Some? ==> current.value in all
      decreases all - ancestors, if current.Some? then 1 else 0
    {
      SeenNext(p, master, i, ancestors);
      ancestors := ancestors + {current.value};
      i := i + 1;
      current := if current.value in dups && dups[current.value].project == project
                 then Some(dups[current.value].master) else None;
    }
    WalkEnds(p, master, i, ancestors);
  }

  /** When an edge is refused, in terms of the relation. */
  ghost function EdgeError(dups: map<Uuid, DupRow>, masterStored: bool, project: Uuid, duplicate: Uuid, master: Uuid)
    : Option<string>
  {
    if duplicate == master then Some("DUPLICATE_CYCLE")
    else if !masterStored then Some("RESOURCE_NOT_FOUND")
    else if IsAncestor(RowMasters(dups, project), duplicate, master) then Some("DUPLICATE_CYCLE")
    else None
  }

  /** One round of the recursive query: the masters of the working table's defects, with repetitions. */
  function Join(dups: map<Uuid, DupRow>, project: Uuid, working: seq<Uuid>): seq<Uuid> {
    if working == [] then []
    else
      Join(dups, project, working[..|working| - 1])
      + var x := working[|working| - 1]; if x in dups && dups[x].project == project then [dups[x].master] else []
  }

  // The working table after k rounds is the one element k steps up, if there is one.
  predicate HoldsUp(working: seq<Uuid>, up: Option<Uuid>) { working == if up.Some? then [up.value] else [] }

  lemma JoinIsUp(dups: map<Uuid, DupRow>, project: Uuid, master: Uuid, k: nat, working: seq<Uuid>)
    requires HoldsUp(working, Up(RowMasters(dups, project), master, k))
    ensures HoldsUp(Join(dups, project, working), Up(RowMasters(dups, project), master, k + 1))
  {
    UpSucc(RowMasters(dups, project), master, k);
    if working != [] {
      assert working[..|working| - 1] == [];
    }
  }

  /**
   The recursive query, round by round, until the working table is empty: the masters above the
   proposed one. It keeps repetitions, so it would not end on a cycle.
   */
  method QueryChain(dups: map<Uuid, DupRow>, project: Uuid, master: Uuid) returns (chain: seq<Uuid>)
    requires Forest(RowMasters(dups, project))
    ensures forall x :: x in chain <==> IsAncestor(RowMasters(dups, project), x, master)
  {
    ghost var p := RowMasters(dups, project);
    EndsAll(p, master);
    ghost var n: nat :| Ends(p, master, n);
    JoinIsUp(dups, project, master, 0, [master]);
    var working := Join(dups, project, [master]);
    chain := working;
    assert forall x :: x in chain <==> Up(p, master, 1) == Some(x);
    ghost var k: nat := 1;
    while working != []
      invariant k > 0 && HoldsUp(working, Up(p, master, k))
      invariant forall x :: x in chain <==> exists j: nat :: 0 < j <= k && Up(p, master, j) == Some(x)
      invariant working != [] ==> k <= n
      decreases n - k + if working == [] then 0 else 1
    {
      JoinIsUp(dups, project, master, k, working);
      ghost var before := chain;
      working := Join(dups, project, working);
      chain := chain + working;
      assert forall x :: x in chain <==> x in before || Up(p, master, k + 1) == Some(x);
      k := k + 1;
      if Up(p, master, k).Some? {
        EndsAbove(p, master, n, k);
      }
    }
    forall x | IsAncestor(p, x, master)
      ensures x in chain
    {
      var j: nat :| j > 0 && Up(p, master, j) == Some(x);
      if j > k {
        UpPrefix(p, master, k, j);
      }
    }
  }

  /** The check before an edge is inserted. */
  method CheckEdge(dups: map<Uuid, DupRow>, masterStored: bool, project: Uuid, duplicate: Uuid, master: Uuid)
    returns (error: Option<string>)
    requires Forest(RowMasters(dups, project))
    ensures error == EdgeError(dups, masterStored, project, duplicate, master)
  {
    if duplicate == master {
      return Some("DUPLICATE_CYCLE");
    }
    if !masterStored {
      return Some("RESOURCE_NOT_FOUND");
    }
    var chain := QueryChain(dups, project, master);
    return if duplicate in chain then Some("DUPLICATE_CYCLE") else None;
  }

  /**
   The three computations, given by what they found, accept the same edges, and those are exactly
   the edges that keep the relation free of cycles.
   */
  lemma ChecksAgree(defects: map<Uuid, Value>, dups: map<Uuid, DupRow>, project: Uuid, duplicate: Uuid, master: Uuid,
                    inMemory: set<Uuid>, inRows: set<Uuid>, inQuery: seq<Uuid>)
    requires Masters(defects, project) == RowMasters(dups, project)
    requires Forest(RowMasters(dups, project))
    requires forall x :: x in inMemory <==> InChain(Masters(defects, project), master, x)
    requires forall x :: x in inRows <==> InChain(RowMasters(dups, project), master, x)
    requires forall x :: x in inQuery <==> IsAncestor(RowMasters(dups, project), x, master)
    ensures (duplicate != master && duplicate !in inMemory) <==> (duplicate != master && duplicate !in inQuery)
    ensures (duplicate != master && duplicate !in inRows) <==> (duplicate != master && duplicate !in inQuery)
    ensures (duplicate != master && duplicate !in inQuery) <==> EdgeError(dups, true, project, duplicate, master).None?
    ensures (duplicate != master && duplicate !in inQuery) <==> Forest(RowMasters(dups, project)[duplicate := master])
  {
    InChainIff(RowMasters(dups, project), master, duplicate);
    RelinkIff(RowMasters(dups, project), duplicate, master);
  }
}
