/** Dependency graphs of committed commands, as the Atlas execution queue
    (src/protocol/atlas/queue/mod.rs) sees them: every vertex is a dot mapped
    to the dots its clock says it depends on. */
module DepGraph {
  import opened Ids

  type Graph = map<Dot, set<Dot>>

  /** Every dot some vertex of `g` depends on. */
  function AllDeps(g: Graph): set<Dot>
  {
    set u, w | u in g && w in g[u] :: w
  }

  /** `g` is contained in `h`: same vertices with the same dependencies. */
  ghost predicate SubGraph(g: Graph, h: Graph)
  {
    forall u :: u in g ==> u in h && h[u] == g[u]
  }

  /** One expansion of `s`: the dependencies of its vertices that are not
      executed yet. Dots that are not vertices of `g` are not expanded. */
  function Step(g: Graph, executed: set<Dot>, s: set<Dot>): set<Dot>
  {
    s + (set u, w | u in s && u in g && w in g[u] && w !in executed :: w)
  }

  /** Nothing outside `t` is a pending dependency of a vertex in `t`. */
  ghost predicate Closed(g: Graph, executed: set<Dot>, t: set<Dot>)
  {
    forall u, w :: u in t && u in g && w in g[u] && w !in executed ==> w in t
  }

  lemma StepShrinksFrontier(g: Graph, executed: set<Dot>, s: set<Dot>)
    requires Step(g, executed, s) != s
    ensures |AllDeps(g) - Step(g, executed, s)| < |AllDeps(g) - s|
  {
    var next := Step(g, executed, s);
    assert exists w :: w in next && w !in s;
    var w :| w in next && w !in s;
    var u :| u in s && u in g && w in g[u] && w !in executed;
    assert w in AllDeps(g);
    assert w in (AllDeps(g) - s) - (AllDeps(g) - next);
    ProperSubsetCard(AllDeps(g) - next, AllDeps(g) - s);
  }

  /** The dots reachable from `s` through dependencies that are not executed:
      it contains `s`, is closed, and adds only pending dependencies. */
  function Closure(g: Graph, executed: set<Dot>, s: set<Dot>): (c: set<Dot>)
    ensures s <= c
    ensures Closed(g, executed, c)
    ensures forall w :: w in c && w !in s ==> w in AllDeps(g) && w !in executed
    decreases |AllDeps(g) - s|
  {
    var next := Step(g, executed, s);
    if next == s then
      s
    else
      StepShrinksFrontier(g, executed, s);
      var c := Closure(g, executed, next);
      assert forall w :: w in next && w !in s ==> w in AllDeps(g) && w !in executed by {
        forall w | w in next && w !in s
          ensures w in AllDeps(g) && w !in executed
        {
          var u :| u in s && u in g && w in g[u] && w !in executed;
        }
      }
      c
  }

  /** The closure is the least closed superset. */
  lemma {:induction false} ClosureLeast(g: Graph, executed: set<Dot>, s: set<Dot>, t: set<Dot>)
    requires s <= t && Closed(g, executed, t)
    ensures Closure(g, executed, s) <= t
    decreases |AllDeps(g) - s|
  {
    var next := Step(g, executed, s);
    if next != s {
      StepShrinksFrontier(g, executed, s);
      ClosureLeast(g, executed, next, t);
    }
  }

  /** The pending dots reachable from `u` (including `u`). */
  function Reach(g: Graph, executed: set<Dot>, u: Dot): (r: set<Dot>)
    ensures u in r
  {
    Closure(g, executed, {u})
  }

  lemma ReachTransitive(g: Graph, executed: set<Dot>, u: Dot, w: Dot)
    requires w in Reach(g, executed, u)
    ensures Reach(g, executed, w) <= Reach(g, executed, u)
  {
    ClosureLeast(g, executed, {w}, Reach(g, executed, u));
  }

  /** A dependency of `u` that is not executed is reachable from `u`. */
  lemma ReachDep(g: Graph, executed: set<Dot>, u: Dot, w: Dot)
    requires u in g && w in g[u] && w !in executed
    ensures w in Reach(g, executed, u)
  {
  }

  /** A larger graph with fewer executed dots reaches at least as much. */
  lemma ClosureMonotone(g: Graph, executed: set<Dot>, h: Graph, executed': set<Dot>, s: set<Dot>)
    requires SubGraph(g, h) && executed' <= executed
    ensures Closure(g, executed, s) <= Closure(h, executed', s)
  {
    var t := Closure(h, executed', s);
    assert Closed(g, executed, t) by {
      forall u, w | u in t && u in g && w in g[u] && w !in executed
        ensures w in t
      {
        assert h[u] == g[u];
      }
    }
    ClosureLeast(g, executed, s, t);
  }

  /** Adding a vertex the closure never meets does not change the closure. */
  lemma ClosureIgnoresNewVertex(g: Graph, executed: set<Dot>, x: Dot, deps: set<Dot>, s: set<Dot>)
    requires x !in g
    requires x !in Closure(g[x := deps], executed, s)
    ensures Closure(g[x := deps], executed, s) == Closure(g, executed, s)
  {
    var h := g[x := deps];
    var big := Closure(h, executed, s);
    assert SubGraph(g, h);
    ClosureMonotone(g, executed, h, executed, s);
    var small := Closure(g, executed, s);
    assert Closed(h, executed, small) by {
      forall u, w | u in small && u in h && w in h[u] && w !in executed
        ensures w in small
      {
        assert u != x;
        assert u in g && g[u] == h[u];
      }
    }
    ClosureLeast(h, executed, s, small);
  }

  /** `u` must be executed before `w`: `w` depends (transitively) on `u`, and
      either `u` does not depend on `w` or both are in one strongly connected
      component and `u` is the smaller dot. */
  ghost predicate MustPrecede(g: Graph, u: Dot, w: Dot)
  {
    u in Reach(g, {}, w) && (w !in Reach(g, {}, u) || DotLess(u, w))
  }

  /** No dot is listed after one it must precede. */
  ghost predicate NoInversion(g: Graph, xs: seq<Dot>)
  {
    forall i, j :: 0 <= i < j < |xs| ==> !MustPrecede(g, xs[j], xs[i])
  }

  /** Every two distinct vertices are related by a dependency in at least one
      direction, as conflicting commands are in Atlas. */
  ghost predicate PairwiseRelated(g: Graph)
  {
    forall u, w :: u in g && w in g && u != w ==> u in g[w] || w in g[u]
  }

  /** Every dependency is itself a vertex. */
  ghost predicate DepsPresent(g: Graph)
  {
    AllDeps(g) <= g.Keys
  }

  lemma MustPrecedeTotal(g: Graph, u: Dot, w: Dot)
    requires PairwiseRelated(g) && u in g && w in g && u != w
    ensures MustPrecede(g, u, w) || MustPrecede(g, w, u)
  {
    if w in g[u] {
      ReachDep(g, {}, u, w);
    } else {
      ReachDep(g, {}, w, u);
    }
  }

  /** When every two vertices are related, there is only one way to list a set
      of vertices without inversions. */
  lemma {:induction false} UniqueEnumeration(g: Graph, a: seq<Dot>, b: seq<Dot>)
    requires PairwiseRelated(g)
    requires NoDup(a) && NoDup(b) && NoInversion(g, a) && NoInversion(g, b)
    requires forall x :: x in a <==> x in b
    requires forall x :: x in a ==> x in g
    ensures a == b
    decreases |a|
  {
    assert |b| == 0 || b[0] in b;
    if a != [] {
      assert a[0] in b;
      assert b != [];
      if a[0] != b[0] {
        var x, y := a[0], b[0];
        assert y in a;
        var k :| 0 <= k < |b| && b[k] == x;
        var m :| 0 <= m < |a| && a[m] == y;
        MustPrecedeTotal(g, x, y);
        assert false;
      }
      forall x
        ensures x in a[1..] <==> x in b[1..]
      {
        if x in a[1..] {
          var i :| 1 <= i < |a| && a[i] == x;
          assert x != a[0];
          assert x in b;
          var j :| 0 <= j < |b| && b[j] == x;
          assert j != 0;
        }
        if x in b[1..] {
          var j :| 1 <= j < |b| && b[j] == x;
          assert x != b[0];
          assert x in a;
          var i :| 0 <= i < |a| && a[i] == x;
          assert i != 0;
        }
      }
      assert NoInversion(g, a[1..]) by {
        forall i, j | 0 <= i < j < |a[1..]|
          ensures !MustPrecede(g, a[1..][j], a[1..][i])
        {
          assert a[1..][j] == a[j + 1] && a[1..][i] == a[i + 1];
        }
      }
      assert NoInversion(g, b[1..]) by {
        forall i, j | 0 <= i < j < |b[1..]|
          ensures !MustPrecede(g, b[1..][j], b[1..][i])
        {
          assert b[1..][j] == b[j + 1] && b[1..][i] == b[i + 1];
        }
      }
      UniqueEnumeration(g, a[1..], b[1..]);
      assert a == [a[0]] + a[1..] && b == [b[0]] + b[1..];
    }
  }

  /** The order in which the finder releases the dots of one batch: by rank,
      then by dot. */
  predicate RankedBefore(ra: nat, a: Dot, rb: nat, b: Dot)
  {
    ra < rb || (ra == rb && DotLess(a, b))
  }

  /** The rank of a pending dot is the number of pending dots it reaches. */
  predicate ReleaseBefore(g: Graph, executed: set<Dot>, a: Dot, b: Dot)
  {
    RankedBefore(|Reach(g, executed, a)|, a, |Reach(g, executed, b)|, b)
  }
}
