/** Why the Atlas queue executes commands in an order that does not depend on
    the order in which they were committed: lemmas about the pending graph
    (indexed, not yet executed vertices) inside the graph of every command
    added so far. */
module ReleaseOrder {
  import opened Ids
  import opened DepGraph

  /** How the queue's graphs relate: `a` holds every added command, `i` the
      ones still indexed, and every added command is indexed or executed. */
  ghost predicate Split(a: Graph, i: Graph, executed: set<Dot>)
  {
    SubGraph(i, a) && a.Keys == i.Keys + executed && i.Keys !! executed
  }

  /** For an indexed dot, what it reaches in the whole graph is what it
      reaches among pending dots, plus executed dots. */
  lemma PendingReachMatches(a: Graph, i: Graph, executed: set<Dot>, u: Dot)
    requires Split(a, i, executed) && Closed(a, {}, executed) && u in i
    ensures Reach(i, executed, u) <= Reach(a, {}, u)
    ensures Reach(a, {}, u) <= Reach(i, executed, u) + executed
    ensures Reach(i, executed, u) !! executed
  {
    ClosureMonotone(i, executed, a, {}, {u});
    var t := Reach(i, executed, u) + executed;
    assert Closed(a, {}, t) by {
      forall x, w | x in t && x in a && w in a[x]
        ensures w in t
      {
        if x !in executed {
          assert x in i && a[x] == i[x];
        }
      }
    }
    ClosureLeast(a, {}, {u}, t);
  }

  /** Everything an executed dot reaches is executed. */
  lemma ExecutedReach(a: Graph, executed: set<Dot>, e: Dot)
    requires Closed(a, {}, executed) && e in executed
    ensures Reach(a, {}, e) <= executed
  {
    ClosureLeast(a, {}, {e}, executed);
  }

  /** Releasing one batch, the whole pending reach of `d` listed in the
      finder's order, keeps the executed set closed and the execution order
      free of inversions. */
  lemma ReleaseKeepsOrder(a: Graph, i: Graph, executed: set<Dot>, emitted: seq<Dot>, batch: seq<Dot>, d: Dot)
    requires Split(a, i, executed) && Closed(a, {}, executed)
    requires NoInversion(a, emitted) && (forall x :: x in emitted ==> x in executed)
    requires d in i && Reach(i, executed, d) <= i.Keys
    requires Enumerates(batch, Reach(i, executed, d))
    requires forall p, q :: 0 <= p < q < |batch| ==> ReleaseBefore(i, executed, batch[p], batch[q])
    ensures Closed(a, {}, executed + Reach(i, executed, d))
    ensures NoInversion(a, emitted + batch)
  {
    var r := Reach(i, executed, d);
    var e' := executed + r;
    assert Closed(a, {}, e') by {
      forall x, w | x in e' && x in a && w in a[x]
        ensures w in e'
      {
        if x !in executed {
          assert x in i && a[x] == i[x];
        }
      }
    }
    var xs := emitted + batch;
    forall p, q | 0 <= p < q < |xs|
      ensures !MustPrecede(a, xs[q], xs[p])
    {
      if q < |emitted| {
        assert xs[q] == emitted[q] && xs[p] == emitted[p];
      } else if p < |emitted| {
        var e, b := xs[p], xs[q];
        assert b == batch[q - |emitted|] && b in r;
        ExecutedReach(a, executed, e);
        PendingReachMatches(a, i, executed, d);
      } else {
        BatchPairInOrder(a, i, executed, batch[p - |emitted|], batch[q - |emitted|]);
      }
    }
  }

  /** A pending dot that depends on another pending dot reaches, among
      pending dots, everything the other one does. */
  lemma PendingReachGrows(a: Graph, i: Graph, executed: set<Dot>, u: Dot, w: Dot)
    requires Split(a, i, executed) && Closed(a, {}, executed)
    requires u in i && w in i && w in Reach(a, {}, u)
    ensures Reach(i, executed, w) <= Reach(i, executed, u)
  {
    PendingReachMatches(a, i, executed, u);
    ReachTransitive(i, executed, u, w);
  }

  /** Two pending dots of one strongly connected component are released by
      increasing dot. */
  lemma SameComponentOrder(a: Graph, i: Graph, executed: set<Dot>, u: Dot, w: Dot)
    requires Split(a, i, executed) && Closed(a, {}, executed)
    requires u in i && w in i && w in Reach(a, {}, u) && u in Reach(a, {}, w)
    requires ReleaseBefore(i, executed, u, w)
    ensures DotLess(u, w)
  {
    PendingReachGrows(a, i, executed, u, w);
    PendingReachGrows(a, i, executed, w, u);
    assert Reach(i, executed, u) == Reach(i, executed, w);
  }

  /** A pending dot that depends on `w` without `w` depending on it reaches
      strictly more, so the finder releases `w` first. */
  lemma DependentReleasedLater(a: Graph, i: Graph, executed: set<Dot>, u: Dot, w: Dot)
    requires Split(a, i, executed) && Closed(a, {}, executed)
    requires u in i && w in i && w in Reach(a, {}, u) && u !in Reach(a, {}, w)
    ensures !ReleaseBefore(i, executed, u, w)
  {
    var ru, rw := Reach(i, executed, u), Reach(i, executed, w);
    PendingReachGrows(a, i, executed, u, w);
    PendingReachMatches(a, i, executed, w);
    assert u in ru && u !in rw;
    ProperSubsetCard(rw, ru);
  }

  /** Two pending dots the finder releases in the order `u`, `w` are in an
      order the whole graph allows. */
  lemma BatchPairInOrder(a: Graph, i: Graph, executed: set<Dot>, u: Dot, w: Dot)
    requires Split(a, i, executed) && Closed(a, {}, executed)
    requires u in i && w in i
    requires ReleaseBefore(i, executed, u, w)
    ensures !MustPrecede(a, w, u)
  {
    if w in Reach(a, {}, u) {
      if u in Reach(a, {}, w) {
        SameComponentOrder(a, i, executed, u, w);
      } else {
        DependentReleasedLater(a, i, executed, u, w);
      }
    }
  }

  /** Indexing a new vertex changes nothing an executed dot reaches. */
  lemma GrowKeepsOrder(a: Graph, executed: set<Dot>, emitted: seq<Dot>, x: Dot, deps: set<Dot>)
    requires x !in a && executed <= a.Keys
    requires Closed(a, {}, executed) && NoInversion(a, emitted)
    requires forall y :: y in emitted ==> y in executed
    ensures Closed(a[x := deps], {}, executed)
    ensures NoInversion(a[x := deps], emitted)
  {
    var h := a[x := deps];
    assert Closed(h, {}, executed) by {
      forall u, w | u in executed && u in h && w in h[u]
        ensures w in executed
      {
        assert u != x && h[u] == a[u];
      }
    }
    forall e | e in executed
      ensures Reach(h, {}, e) == Reach(a, {}, e)
    {
      ExecutedReach(h, executed, e);
      ClosureIgnoresNewVertex(a, {}, x, deps, {e});
    }
    forall p, q | 0 <= p < q < |emitted|
      ensures !MustPrecede(h, emitted[q], emitted[p])
    {
      assert emitted[p] in executed && emitted[q] in executed;
    }
  }

  /** A dot is releasable when everything pending it reaches is indexed. */
  ghost predicate Releasable(i: Graph, executed: set<Dot>, u: Dot)
  {
    u in i && Reach(i, executed, u) <= i.Keys
  }

  /** Indexing a new vertex `x` that is not releasable leaves nothing newly
      releasable: a dot whose reach avoids `x` reaches what it reached before,
      and one whose reach contains `x` would make `x` releasable. */
  lemma NewVertexStability(i: Graph, executed: set<Dot>, x: Dot, deps: set<Dot>, h: Graph)
    requires x !in i && h == i[x := deps]
    requires forall u :: u in i ==> !Releasable(i, executed, u)
    requires !Releasable(h, executed, x)
    ensures forall u :: u in h ==> !Releasable(h, executed, u)
  {
    forall u | u in h
      ensures !Releasable(h, executed, u)
    {
      if u != x && Releasable(h, executed, u) {
        if x in Reach(h, executed, u) {
          ReachTransitive(h, executed, u, x);
        } else {
          ClosureIgnoresNewVertex(i, executed, x, deps, {u});
        }
      }
    }
  }

  /** Once every dependency of every added command has been added, every
      indexed dot is releasable. */
  lemma CompleteGraphReleasable(a: Graph, i: Graph, executed: set<Dot>, u: Dot)
    requires Split(a, i, executed) && DepsPresent(a) && u in i
    ensures Releasable(i, executed, u)
  {
    forall w | w in Reach(i, executed, u)
      ensures w in i
    {
      if w != u {
        var v :| v in i && w in i[v];
        assert w in a[v];
      }
    }
  }
}
