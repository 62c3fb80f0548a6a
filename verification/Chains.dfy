/**
 Finite parent relations: each element has at most one parent, given by a map.
 Folders below folders and duplicate defects below their masters are both such relations.
 */
module Chains {
  import opened Options

  /** The chain of parents that starts at x runs out within n steps. */
  ghost predicate Ends<T>(p: map<T, T>, x: T, n: nat)
    decreases n
  {
    x !in p || (n > 0 && Ends(p, p[x], n - 1))
  }

  /** Every chain runs out: the relation is a forest. */
  ghost predicate Forest<T>(p: map<T, T>) {
    forall x {:trigger Terminates(p, x)} | x in p :: Terminates(p, x)
  }

  ghost predicate Terminates<T>(p: map<T, T>, x: T) {
    exists n: nat :: Ends(p, x, n)
  }

  /** The element k steps above x. */
  ghost function Up<T>(p: map<T, T>, x: T, k: nat): Option<T>
    decreases k
  {
    if k == 0 then Some(x)
    else if x in p then Up(p, p[x], k - 1)
    else None
  }

  ghost predicate IsAncestor<T>(p: map<T, T>, a: T, x: T) {
    exists k: nat :: k > 0 && Up(p, x, k) == Some(a)
  }

  /** The ancestors of x, nearest first. */
  ghost function Line<T>(p: map<T, T>, x: T, n: nat): seq<T>
    requires Ends(p, x, n)
    decreases n
  {
    if x in p then [p[x]] + Line(p, p[x], n - 1) else []
  }

  lemma {:induction false} EndsMore<T>(p: map<T, T>, x: T, n: nat, m: nat)
    requires Ends(p, x, n) && n <= m
    ensures Ends(p, x, m)
    decreases n
  {
    if x in p {
      EndsMore(p, p[x], n - 1, m - 1);
    }
  }

  lemma {:induction false} UpAdd<T>(p: map<T, T>, x: T, i: nat, j: nat)
    requires Up(p, x, i).Some?
    ensures Up(p, x, i + j) == Up(p, Up(p, x, i).value, j)
    decreases i
  {
    if i > 0 {
      UpAdd(p, p[x], i - 1, j);
    }
  }

  /** A step back from the top: Up is also the parent of the element one step lower. */
  lemma UpSucc<T>(p: map<T, T>, x: T, k: nat)
    ensures Up(p, x, k + 1) ==
            if Up(p, x, k).Some? && Up(p, x, k).value in p then Some(p[Up(p, x, k).value]) else None
  {
    if Up(p, x, k).Some? {
      UpAdd(p, x, k, 1);
      assert Up(p, Up(p, x, k).value, 1) ==
             if Up(p, x, k).value in p then Up(p, p[Up(p, x, k).value], 0) else None;
    } else {
      UpNone(p, x, k);
    }
  }

  lemma {:induction false} UpNone<T>(p: map<T, T>, x: T, k: nat)
    requires Up(p, x, k).None?
    ensures Up(p, x, k + 1).None?
    decreases k
  {
    if x in p {
      UpNone(p, p[x], k - 1);
    }
  }

  lemma {:induction false} UpPrefix<T>(p: map<T, T>, x: T, i: nat, k: nat)
    requires i <= k && Up(p, x, k).Some?
    ensures Up(p, x, i).Some?
    decreases i
  {
    if i > 0 {
      UpPrefix(p, p[x], i - 1, k - 1);
    }
  }

  /** Walking up never returns to the start of a chain that runs out. */
  lemma {:induction false} NoReturn<T>(p: map<T, T>, x: T, n: nat, k: nat)
    requires Ends(p, x, n)
    requires Up(p, x, k) == Some(x)
    ensures k == 0
    decreases n
  {
    if k > 0 {
      EndsAbove(p, x, n, k);
      NoReturn(p, x, n - k, k);
    }
  }

  lemma {:induction false} EndsAbove<T>(p: map<T, T>, x: T, n: nat, k: nat)
    requires Ends(p, x, n)
    requires Up(p, x, k).Some?
    ensures k <= n && Ends(p, Up(p, x, k).value, n - k)
    decreases k
  {
    if k > 0 {
      EndsAbove(p, p[x], n - 1, k - 1);
    }
  }

  /** An element is at one distance only from each of its ancestors. */
  lemma UniqueLevel<T>(p: map<T, T>, x: T, n: nat, i: nat, j: nat)
    requires Ends(p, x, n)
    requires Up(p, x, i).Some? && Up(p, x, i) == Up(p, x, j)
    ensures i == j
  {
    var lo, hi := if i < j then i else j, if i < j then j else i;
    UpAdd(p, x, lo, hi - lo);
    EndsAbove(p, x, n, lo);
    NoReturn(p, Up(p, x, lo).value, n - lo, hi - lo);
  }

  /** The line of ancestors lists exactly the elements above x, each at its distance. */
  lemma {:induction false} LineIsUp<T>(p: map<T, T>, x: T, n: nat)
    requires Ends(p, x, n)
    ensures |Line(p, x, n)| <= n
    ensures forall k: nat :: k < |Line(p, x, n)| ==> Up(p, x, k + 1) == Some(Line(p, x, n)[k])
    ensures forall k: nat :: k > |Line(p, x, n)| ==> Up(p, x, k) == None
    decreases n
  {
    if x in p {
      var rest := Line(p, p[x], n - 1);
      LineIsUp(p, p[x], n - 1);
      forall k: nat | k < |Line(p, x, n)|
        ensures Up(p, x, k + 1) == Some(Line(p, x, n)[k])
      {
        if k > 0 {
          assert Up(p, p[x], (k - 1) + 1) == Some(rest[k - 1]);
        }
      }
    }
  }

  lemma LineIsAncestors<T>(p: map<T, T>, x: T, n: nat)
    requires Ends(p, x, n)
    ensures forall a :: a in Line(p, x, n) <==> IsAncestor(p, a, x)
  {
    LineIsUp(p, x, n);
    var line := Line(p, x, n);
    forall a | a in line
      ensures IsAncestor(p, a, x)
    {
      var k :| 0 <= k < |line| && line[k] == a;
      assert Up(p, x, k + 1) == Some(a);
    }
    forall a | IsAncestor(p, a, x)
      ensures a in line
    {
      var k: nat :| k > 0 && Up(p, x, k) == Some(a);
      assert k <= |line|;
      assert Up(p, x, (k - 1) + 1) == Some(line[k - 1]);
    }
  }

  lemma ParentIsAbove<T>(p: map<T, T>, y: T, a: T)
    requires y in p
    ensures p[y] == a || IsAncestor(p, a, p[y]) ==> IsAncestor(p, a, y)
  {
    if p[y] == a {
      assert Up(p, y, 1) == Up(p, p[y], 0);
    } else if IsAncestor(p, a, p[y]) {
      var k: nat :| k > 0 && Up(p, p[y], k) == Some(a);
      assert Up(p, y, k + 1) == Some(a);
    }
  }

  lemma {:induction false} UpInMore<T>(p: map<T, T>, q: map<T, T>, x: T, k: nat)
    requires (forall z | z in p :: z in q && p[z] == q[z]) && Up(p, x, k).Some?
    ensures Up(q, x, k) == Up(p, x, k)
    decreases k
  {
    if k > 0 {
      UpInMore(p, q, p[x], k - 1);
    }
  }

  /** A relation with more pairs has the same ancestors and more. */
  lemma AncestorInMore<T>(p: map<T, T>, q: map<T, T>, a: T, x: T)
    requires (forall z | z in p :: z in q && p[z] == q[z]) && IsAncestor(p, a, x)
    ensures IsAncestor(q, a, x)
  {
    var k: nat :| k > 0 && Up(p, x, k) == Some(a);
    UpInMore(p, q, x, k);
  }

  /** A finite relation is a forest exactly when no element is above itself. */
  lemma ForestIffNoCycle<T>(p: map<T, T>)
    ensures Forest(p) <==> forall x | x in p :: !IsAncestor(p, x, x)
  {
    if Forest(p) {
      forall x | x in p
        ensures !IsAncestor(p, x, x)
      {
        assert Terminates(p, x);
        var n: nat :| Ends(p, x, n);
        if IsAncestor(p, x, x) {
          var k: nat :| k > 0 && Up(p, x, k) == Some(x);
          NoReturn(p, x, n, k);
        }
      }
    }
    if forall x | x in p :: !IsAncestor(p, x, x) {
      forall x | x in p
        ensures Terminates(p, x)
      {
        var n := WalkOut(p, x, {});
      }
    }
  }

  /** Without cycles a walk meets only new elements, so it leaves the finite relation. */
  lemma {:induction false} WalkOut<T>(p: map<T, T>, x: T, seen: set<T>) returns (n: nat)
    requires forall y | y in p :: !IsAncestor(p, y, y)
    requires seen <= p.Keys
    requires forall s | s in seen :: IsAncestor(p, x, s)
    ensures Ends(p, x, n)
    decreases p.Keys - seen
  {
    if x !in p {
      n := 0;
    } else {
      forall s | s in seen + {x}
        ensures IsAncestor(p, p[x], s)
      {
        if s in seen {
          var k: nat :| k > 0 && Up(p, s, k) == Some(x);
          UpSucc(p, s, k);
        } else {
          assert Up(p, x, 1) == Up(p, p[x], 0);
        }
      }
      var m := WalkOut(p, p[x], seen + {x});
      n := m + 1;
    }
  }

  // ---------------------------------------------------------------------
  // Re-parenting one element
  // ---------------------------------------------------------------------

  /** A chain that never meets x is not touched by giving x another parent. */
  lemma {:induction false} EndsElsewhere<T>(p: map<T, T>, q: map<T, T>, x: T, y: T, n: nat)
    requires Ends(p, y, n)
    requires y != x && !IsAncestor(p, x, y)
    requires forall z :: z != x ==> (z in p <==> z in q) && (z in p ==> p[z] == q[z])
    ensures Ends(q, y, n)
    decreases n
  {
    if y in p {
      ParentIsAbove(p, y, x);
      EndsElsewhere(p, q, x, p[y], n - 1);
    }
  }

  /** If x's own new chain runs out then every chain runs out. */
  lemma {:induction false} EndsThrough<T>(p: map<T, T>, q: map<T, T>, x: T, y: T, n: nat, nx: nat)
    requires Ends(p, y, n)
    requires Ends(q, x, nx)
    requires forall z :: z != x ==> (z in p <==> z in q) && (z in p ==> p[z] == q[z])
    ensures Ends(q, y, n + nx)
    decreases n
  {
    if y == x {
      EndsMore(q, x, nx, n + nx);
    } else if y in p {
      EndsThrough(p, q, x, p[y], n - 1, nx);
    } 
  }

  lemma EndsAll<T>(p: map<T, T>, y: T)
    requires Forest(p)
    ensures Terminates(p, y)
  {
    if y !in p {
      assert Ends(p, y, 0);
    }
  }

  /** Giving x the parent m keeps a forest exactly when m is neither x nor below x. */
  lemma RelinkIff<T>(p: map<T, T>, x: T, m: T)
    requires Forest(p)
    ensures Forest(p[x := m]) <==> m != x && !IsAncestor(p, x, m)
  {
    var q := p[x := m];
    EndsAll(p, m);
    var nm: nat :| Ends(p, m, nm);
    if m != x && !IsAncestor(p, x, m) {
      EndsElsewhere(p, q, x, m, nm);
      assert Ends(q, x, nm + 1);
      forall y | y in q
        ensures Terminates(q, y)
      {
        EndsAll(p, y);
        var n: nat :| Ends(p, y, n);
        EndsThrough(p, q, x, y, n, nm + 1);
      }
    } else if Forest(q) {
      EndsAll(q, x);
      var n: nat :| Ends(q, x, n);
      if m == x {
        assert Up(q, x, 1) == Up(q, q[x], 0);
        NoReturn(q, x, n, 1);
      } else {
        var k: nat :| k > 0 && Up(p, m, k) == Some(x);
        var j := ReachFresh(p, q, x, m, k);
        assert Up(q, x, j + 1) == Some(x);
        NoReturn(q, x, n, j + 1);
      }
      assert false;
    }
  }

  /** A walk that reaches x in the old relation reaches it in the new one as well. */
  lemma {:induction false} ReachFresh<T>(p: map<T, T>, q: map<T, T>, x: T, y: T, k: nat) returns (j: nat)
    requires Up(p, y, k) == Some(x)
    requires forall z :: z != x ==> (z in p <==> z in q) && (z in p ==> p[z] == q[z])
    ensures Up(q, y, j) == Some(x)
    decreases k
  {
    if y == x {
      j := 0;
    } else {
      var i := ReachFresh(p, q, x, p[y], k - 1);
      j := i + 1;
    }
  }

  /** Making x a root keeps a forest. */
  lemma DetachKeepsForest<T>(p: map<T, T>, x: T)
    requires Forest(p)
    ensures Forest(p - {x})
  {
    var q := p - {x};
    assert Ends(q, x, 0);
    forall y | y in q
      ensures Terminates(q, y)
    {
      EndsAll(p, y);
      var n: nat :| Ends(p, y, n);
      EndsThrough(p, q, x, y, n, 0);
    }
  }

  // ---------------------------------------------------------------------
  // Depth
  // ---------------------------------------------------------------------

  /** The number of ancestors of x. */
  ghost function Depth<T(!new)>(p: map<T, T>, x: T): nat
    requires Forest(p)
  {
    EndsAll(p, x);
    var n: nat :| Ends(p, x, n);
    |Line(p, x, n)|
  }

  /** The chain above x has as many elements as the depth says. */
  lemma DepthIsUp<T(!new)>(p: map<T, T>, x: T, k: nat)
    requires Forest(p)
    ensures Up(p, x, k).Some? <==> k <= Depth(p, x)
  {
    EndsAll(p, x);
    var n: nat :| Ends(p, x, n) && Depth(p, x) == |Line(p, x, n)|;
    LineIsUp(p, x, n);
    if 0 < k <= Depth(p, x) {
      assert Up(p, x, (k - 1) + 1) == Some(Line(p, x, n)[k - 1]);
    }
  }

  /** A chain that never meets x is not moved when x is. */
  lemma {:induction false} UpElsewhere<T>(p: map<T, T>, q: map<T, T>, x: T, y: T, k: nat)
    requires y != x && !IsAncestor(p, x, y)
    requires forall z :: z != x ==> (z in p <==> z in q) && (z in p ==> p[z] == q[z])
    ensures Up(q, y, k) == Up(p, y, k)
    decreases k
  {
    if k > 0 && y in p {
      ParentIsAbove(p, y, x);
      UpElsewhere(p, q, x, p[y], k - 1);
    }
  }

  /** Below x nothing moves relative to x. */
  lemma {:induction false} UpToMoved<T>(p: map<T, T>, q: map<T, T>, x: T, y: T, k: nat, n: nat)
    requires Ends(p, y, n) && Up(p, y, k) == Some(x)
    requires forall z :: z != x ==> (z in p <==> z in q) && (z in p ==> p[z] == q[z])
    ensures Up(q, y, k) == Some(x)
    decreases k
  {
    if k > 0 {
      if y == x {
        NoReturn(p, y, n, k);
      } else {
        UpToMoved(p, q, x, p[y], k - 1, n - 1);
      }
    }
  }

  /** Where an element k levels below x is after x got the parent m. */
  lemma DepthBelowMoved<T(!new)>(p: map<T, T>, x: T, m: T, y: T, k: nat)
    requires Forest(p) && m != x && !IsAncestor(p, x, m) && Up(p, y, k) == Some(x)
    ensures Forest(p[x := m]) && Depth(p[x := m], y) == Depth(p, m) + 1 + k
  {
    var q := p[x := m];
    RelinkIff(p, x, m);
    EndsAll(p, y);
    var n: nat :| Ends(p, y, n);
    UpToMoved(p, q, x, y, k, n);
    var d := Depth(p, m) + 1 + k;
    forall j: nat
      ensures Up(q, y, k + 1 + j) == Up(p, m, j)
    {
      UpAdd(q, y, k, 1 + j);
      assert Up(q, x, 1 + j) == Up(q, q[x], j);
      UpElsewhere(p, q, x, m, j);
    }
    DepthIsUp(p, m, Depth(p, m));
    DepthIsUp(p, m, Depth(p, m) + 1);
    assert Up(q, y, k + 1 + Depth(p, m)).Some? && Up(q, y, k + 1 + (Depth(p, m) + 1)).None?;
    DepthIsUp(q, y, d);
    DepthIsUp(q, y, d + 1);
  }

  /** All other elements keep their depth. */
  lemma DepthElsewhere<T(!new)>(p: map<T, T>, q: map<T, T>, x: T, y: T)
    requires Forest(p) && Forest(q) && y != x && !IsAncestor(p, x, y)
    requires forall z :: z != x ==> (z in p <==> z in q) && (z in p ==> p[z] == q[z])
    ensures Depth(q, y) == Depth(p, y)
  {
    UpElsewhere(p, q, x, y, Depth(p, y));
    UpElsewhere(p, q, x, y, Depth(p, y) + 1);
    DepthIsUp(p, y, Depth(p, y));
    DepthIsUp(p, y, Depth(p, y) + 1);
    DepthIsUp(q, y, Depth(p, y));
    DepthIsUp(q, y, Depth(p, y) + 1);
  }

  /** Below a new root the depth is the distance to it. */
  lemma DepthBelowRoot<T(!new)>(p: map<T, T>, x: T, y: T, k: nat)
    requires Forest(p) && Up(p, y, k) == Some(x)
    ensures Forest(p - {x}) && Depth(p - {x}, y) == k
  {
    var q := p - {x};
    DetachKeepsForest(p, x);
    EndsAll(p, y);
    var n: nat :| Ends(p, y, n);
    UpToMoved(p, q, x, y, k, n);
    UpSucc(q, y, k);
    DepthIsUp(q, y, k);
    DepthIsUp(q, y, k + 1);
  }
}
