/** Vertices of the Atlas dependency graph and a stand-in for the Tarjan
    finder of src/protocol/atlas/queue/tarjan.rs, which is not part of this
    model. */
module SccFinder {
  import opened Ids
  import opened DepGraph
  import opened ReleaseOrder
  import opened KeyedCommand
  import opened VectorClocks

  /** A graph vertex: the command, its dot and its dependency clock. */
  datatype Vertex = Vertex(dot: Dot, cmd: Command, clock: VClock)

  /** The dots a clock covers: every event from 1 up to each entry. */
  function ClockDeps(clock: VClock): set<Dot>
  {
    set p, s | p in clock && 1 <= s <= clock[p] :: Dot(p, s)
  }

  /** A dot is a dependency exactly when the clock covers it. */
  lemma ClockDepsMember(clock: VClock, d: Dot)
    ensures d in ClockDeps(clock) <==> d.source in clock && 1 <= d.sequence <= clock[d.source]
  {
    if d.source in clock && 1 <= d.sequence <= clock[d.source] {
      assert d == Dot(d.source, d.sequence);
    }
  }

  /** The dependency graph of a set of vertices. */
  function VertexGraph(vs: map<Dot, Vertex>): (g: Graph)
    ensures g.Keys == vs.Keys
    ensures forall d :: d in vs ==> g[d] == ClockDeps(vs[d].clock)
  {
    map d | d in vs :: ClockDeps(vs[d].clock)
  }

  /** The outcome of one search from a dot. */
  datatype FinderResult = Found(batch: seq<Dot>) | MissingDependency

  /** A search from `dot` succeeds exactly when every pending dot it reaches
      is indexed; it then releases all of them, dependencies first (fewer
      reachable pending dots) and, inside one strongly connected component,
      by dot. */
  method StrongConnect(dot: Dot, executed: set<Dot>, index: map<Dot, Vertex>) returns (r: FinderResult)
    requires dot in index
    ensures r.Found? <==> Releasable(VertexGraph(index), executed, dot)
    ensures r.Found? ==> Enumerates(r.batch, Reach(VertexGraph(index), executed, dot))
    ensures r.Found? ==> forall p, q :: 0 <= p < q < |r.batch| ==>
      ReleaseBefore(VertexGraph(index), executed, r.batch[p], r.batch[q])
  {
    var g := VertexGraph(index);
    var reach := Reach(g, executed, dot);
    if !(reach <= index.Keys) {
      return MissingDependency;
    }
    var rank := map x | x in reach :: |Reach(g, executed, x)|;
    var batch := SortByRank(rank, reach);
    return Found(batch);
  }

  /** Lists `s` in increasing (rank, dot) order, by repeatedly taking the
      first remaining dot. */
  method SortByRank(rank: map<Dot, nat>, s: set<Dot>) returns (batch: seq<Dot>)
    requires s <= rank.Keys
    ensures Enumerates(batch, s)
    ensures forall p, q :: 0 <= p < q < |batch| ==>
      RankedBefore(rank[batch[p]], batch[p], rank[batch[q]], batch[q])
  {
    batch := [];
    var rest := s;
    while rest != {}
      invariant rest <= s
      invariant NoDup(batch)
      invariant forall x :: x in batch <==> x in s && x !in rest
      invariant forall p, q :: 0 <= p < q < |batch| ==>
        RankedBefore(rank[batch[p]], batch[p], rank[batch[q]], batch[q])
      invariant forall p, y :: 0 <= p < |batch| && y in rest ==>
        RankedBefore(rank[batch[p]], batch[p], rank[y], y)
      decreases |rest|
    {
      FirstToRelease(rank, rest);
      var m :| m in rest && forall y :: y in rest ==> !RankedBefore(rank[y], y, rank[m], m);
      batch := batch + [m];
      rest := rest - {m};
    }
  }

  /** A non-empty set of ranked dots has one that nothing else precedes. */
  lemma {:induction false} FirstToRelease(rank: map<Dot, nat>, s: set<Dot>)
    requires s != {} && s <= rank.Keys
    ensures exists m :: m in s && forall y :: y in s ==> !RankedBefore(rank[y], y, rank[m], m)
    decreases |s|
  {
    var x :| x in s;
    if s - {x} == {} {
      assert s == {x};
      assert forall y :: y in s ==> !RankedBefore(rank[y], y, rank[x], x);
    } else {
      FirstToRelease(rank, s - {x});
      var m :| m in s - {x} && forall y :: y in s - {x} ==> !RankedBefore(rank[y], y, rank[m], m);
      if RankedBefore(rank[x], x, rank[m], m) {
        assert forall y :: y in s ==> !RankedBefore(rank[y], y, rank[x], x);
      } else {
        assert forall y :: y in s ==> !RankedBefore(rank[y], y, rank[m], m);
      }
    }
  }
}
