/** The Atlas execution queue (src/protocol/atlas/queue/mod.rs): committed
    commands wait in a dependency graph until everything they transitively
    depend on is committed; then whole strongly connected components are
    released for execution. */
module AtlasQueue {
  import opened Ids
  import opened DepGraph
  import opened ReleaseOrder
  import opened KeyedCommand
  import opened SccFinder
  import opened VectorClocks

  /** Every added vertex sits under its own dot, and is either indexed
      (pending) or executed, never both. */
  ghost predicate VerticesOk(added: map<Dot, Vertex>, index: map<Dot, Vertex>, executed: set<Dot>)
  {
    && (forall d :: d in added ==> added[d].dot == d)
    && (forall d :: d in index ==> d in added && added[d] == index[d])
    && added.Keys == index.Keys + executed
    && index.Keys !! executed
  }

  /** The release history lists each executed dot once. */
  ghost predicate EmittedOk(emitted: seq<Dot>, executed: set<Dot>)
  {
    NoDup(emitted) && forall d :: d in emitted <==> d in executed
  }

  /** The output buffer holds the commands released since the caller last
      took them, in release order. */
  ghost predicate BufferOk(toExecute: seq<Command>, emitted: seq<Dot>, drained: nat, added: map<Dot, Vertex>)
  {
    && drained <= |emitted|
    && |toExecute| == |emitted| - drained
    && forall i {:trigger emitted[i]} :: drained <= i < |emitted| ==>
         emitted[i] in added && toExecute[i - drained] == added[emitted[i]].cmd
  }

  /** The pending index maps each key to the indexed dots whose command
      accesses it, and knows every key any added command accesses. */
  ghost predicate PendingOk(pending: map<Key, set<Dot>>, index: map<Dot, Vertex>, added: map<Dot, Vertex>)
  {
    && (forall k, d :: k in pending && d in pending[k] ==> d in index && k in index[d].cmd.keys)
    && (forall k, d :: k in pending && d in index && k in index[d].cmd.keys ==> d in pending[k])
    && (forall d, k :: d in added && k in added[d].cmd.keys ==> k in pending)
  }

  /** Everything a released command depends on was released, and the
      release order never puts a command after one that must follow it. */
  ghost predicate OrderOk(added: map<Dot, Vertex>, executed: set<Dot>, emitted: seq<Dot>)
  {
    Closed(VertexGraph(added), {}, executed) && NoInversion(VertexGraph(added), emitted)
  }

  lemma IndexKeepsOrder(added: map<Dot, Vertex>, index: map<Dot, Vertex>, executed: set<Dot>, emitted: seq<Dot>, v: Vertex)
    requires VerticesOk(added, index, executed) && EmittedOk(emitted, executed) && OrderOk(added, executed, emitted)
    requires v.dot !in index && v.dot !in executed
    ensures OrderOk(added[v.dot := v], executed, emitted)
  {
    GrowKeepsOrder(VertexGraph(added), executed, emitted, v.dot, ClockDeps(v.clock));
    assert VertexGraph(added)[v.dot := ClockDeps(v.clock)] == VertexGraph(added[v.dot := v]);
  }

  /** The pending index after indexing `v`: its dot joins the set of each
      key its command accesses. */
  function PendingAdd(pending: map<Key, set<Dot>>, v: Vertex): (p: map<Key, set<Dot>>)
    ensures p.Keys == pending.Keys + v.cmd.keys
  {
    map k | k in pending.Keys + v.cmd.keys ::
      (if k in pending then pending[k] else {}) + (if k in v.cmd.keys then {v.dot} else {})
  }

  lemma IndexKeepsIndexed(added: map<Dot, Vertex>, index: map<Dot, Vertex>, executed: set<Dot>, emitted: seq<Dot>,
                          toExecute: seq<Command>, drained: nat, pending: map<Key, set<Dot>>, v: Vertex)
    requires VerticesOk(added, index, executed) && EmittedOk(emitted, executed)
    requires BufferOk(toExecute, emitted, drained, added) && PendingOk(pending, index, added)
    requires v.dot !in index && v.dot !in executed
    ensures VerticesOk(added[v.dot := v], index[v.dot := v], executed)
    ensures BufferOk(toExecute, emitted, drained, added[v.dot := v])
    ensures PendingOk(PendingAdd(pending, v), index[v.dot := v], added[v.dot := v])
  {
    IndexKeepsBuffer(added, executed, emitted, toExecute, drained, v);
    IndexKeepsPending(added, index, executed, pending, v);
  }

  lemma IndexKeepsBuffer(added: map<Dot, Vertex>, executed: set<Dot>, emitted: seq<Dot>,
                         toExecute: seq<Command>, drained: nat, v: Vertex)
    requires EmittedOk(emitted, executed) && BufferOk(toExecute, emitted, drained, added)
    requires v.dot !in executed
    ensures BufferOk(toExecute, emitted, drained, added[v.dot := v])
  {
    forall i | drained <= i < |emitted|
      ensures emitted[i] != v.dot
    {
      assert emitted[i] in emitted;
    }
  }

  lemma IndexKeepsPending(added: map<Dot, Vertex>, index: map<Dot, Vertex>, executed: set<Dot>,
                          pending: map<Key, set<Dot>>, v: Vertex)
    requires VerticesOk(added, index, executed) && PendingOk(pending, index, added) && v.dot !in index
    ensures PendingOk(PendingAdd(pending, v), index[v.dot := v], added[v.dot := v])
  {
    var p, i, a := PendingAdd(pending, v), index[v.dot := v], added[v.dot := v];
    forall k, d | k in p && d in p[k]
      ensures d in i && k in i[d].cmd.keys
    {
      if d != v.dot {
        assert k in pending && d in pending[k];
      }
    }
    forall k, d | k in p && d in i && k in i[d].cmd.keys
      ensures d in p[k]
    {
      if d != v.dot {
        assert d in index && index[d] == i[d] && added[d] == index[d];
        assert k in pending;
      }
    }
    forall d, k | d in a && k in a[d].cmd.keys
      ensures k in p
    {
      if d != v.dot {
        assert k in pending;
      }
    }
  }

  /** The pending index after releasing `v`: its dot leaves the set of each
      key its command accesses. */
  function PendingRemove(pending: map<Key, set<Dot>>, v: Vertex): (p: map<Key, set<Dot>>)
    ensures p.Keys == pending.Keys
  {
    map k | k in pending :: if k in v.cmd.keys then pending[k] - {v.dot} else pending[k]
  }

  lemma SaveOneKeepsIndexed(added: map<Dot, Vertex>, index: map<Dot, Vertex>, executed: set<Dot>, emitted: seq<Dot>,
                            toExecute: seq<Command>, drained: nat, pending: map<Key, set<Dot>>, dot: Dot)
    requires VerticesOk(added, index, executed) && EmittedOk(emitted, executed)
    requires BufferOk(toExecute, emitted, drained, added) && PendingOk(pending, index, added)
    requires dot in index
    ensures VerticesOk(added, index - {dot}, executed + {dot})
    ensures EmittedOk(emitted + [dot], executed + {dot})
    ensures BufferOk(toExecute + [index[dot].cmd], emitted + [dot], drained, added)
    ensures PendingOk(PendingRemove(pending, index[dot]), index - {dot}, added)
  {
    var emitted' := emitted + [dot];
    assert NoDup(emitted') by {
      forall i, j | 0 <= i < j < |emitted'|
        ensures emitted'[i] != emitted'[j]
      {
        if j == |emitted| {
          assert emitted'[i] == emitted[i] && emitted[i] in emitted;
        }
      }
    }
    var toExecute' := toExecute + [index[dot].cmd];
    forall i | drained <= i < |emitted'|
      ensures emitted'[i] in added && toExecute'[i - drained] == added[emitted'[i]].cmd
    {
      if i < |emitted| {
        assert emitted'[i] == emitted[i];
      }
    }
  }

  lemma ReleaseKeepsOrderOk(added: map<Dot, Vertex>, index: map<Dot, Vertex>, executed: set<Dot>, emitted: seq<Dot>,
                            dot: Dot, batch: seq<Dot>)
    requires VerticesOk(added, index, executed) && EmittedOk(emitted, executed) && OrderOk(added, executed, emitted)
    requires Releasable(VertexGraph(index), executed, dot)
    requires Enumerates(batch, Reach(VertexGraph(index), executed, dot))
    requires forall p, q :: 0 <= p < q < |batch| ==> ReleaseBefore(VertexGraph(index), executed, batch[p], batch[q])
    ensures OrderOk(added, executed + Reach(VertexGraph(index), executed, dot), emitted + batch)
  {
    assert Split(VertexGraph(added), VertexGraph(index), executed);
    ReleaseKeepsOrder(VertexGraph(added), VertexGraph(index), executed, emitted, batch, dot);
  }

  /** No pending command can be released. */
  ghost predicate Stable(index: map<Dot, Vertex>, executed: set<Dot>)
  {
    forall d {:trigger Releasable(VertexGraph(index), executed, d)} :: d in index ==> !Releasable(VertexGraph(index), executed, d)
  }

  /** Indexing a vertex that cannot be released keeps a stable queue
      stable. */
  lemma IndexKeepsStable(index: map<Dot, Vertex>, executed: set<Dot>, v: Vertex)
    requires Stable(index, executed) && v.dot !in index
    requires !Releasable(VertexGraph(index[v.dot := v]), executed, v.dot)
    ensures Stable(index[v.dot := v], executed)
  {
    var h := VertexGraph(index[v.dot := v]);
    assert VertexGraph(index)[v.dot := ClockDeps(v.clock)] == h;
    NewVertexStability(VertexGraph(index), executed, v.dot, ClockDeps(v.clock), h);
  }

  /** Once every dependency of every added command has been added, a stable
      queue has nothing left pending: every added command was released. */
  lemma CompleteStableDrained(added: map<Dot, Vertex>, index: map<Dot, Vertex>, executed: set<Dot>)
    requires VerticesOk(added, index, executed) && Stable(index, executed)
    requires DepsPresent(VertexGraph(added))
    ensures index == map[] && executed == added.Keys
  {
    if index != map[] {
      var u :| u in index;
      assert SubGraph(VertexGraph(index), VertexGraph(added));
      CompleteGraphReleasable(VertexGraph(added), VertexGraph(index), executed, u);
      assert false;
    }
  }

  /** The commands of a sequence of added dots. */
  ghost function Commands(dots: seq<Dot>, added: map<Dot, Vertex>): (cs: seq<Command>)
    requires forall d :: d in dots ==> d in added
    ensures |cs| == |dots| && forall k :: 0 <= k < |dots| ==> cs[k] == added[dots[k]].cmd
  {
    seq(|dots|, k requires 0 <= k < |dots| => added[dots[k]].cmd)
  }

  /** Every command in `added` accesses `k`. */
  ghost predicate AllAccess(added: map<Dot, Vertex>, k: Key)
  {
    forall d :: d in added ==> k in added[d].cmd.keys
  }

  /** What the pending index says about one key. */
  lemma PendingOnKey(added: map<Dot, Vertex>, index: map<Dot, Vertex>, executed: set<Dot>,
                     pending: map<Key, set<Dot>>, key: Key)
    requires VerticesOk(added, index, executed) && PendingOk(pending, index, added) && key in pending
    ensures forall d :: d in pending[key] ==> d in index && key in index[d].cmd.keys
    ensures AllAccess(added, key) ==> forall d :: d in index ==> d in pending[key]
  {
  }

  /** The keys of the commands of `dots`, with repetition, as the queue
      collects them in a heap. */
  ghost function KeysOf(dots: seq<Dot>, vs: map<Dot, Vertex>): multiset<Key>
    requires forall d :: d in dots ==> d in vs
  {
    if dots == [] then multiset{}
    else KeysOf(dots[..|dots| - 1], vs) + multiset(vs[dots[|dots| - 1]].cmd.keys)
  }

  lemma {:induction false} KeysOfContains(dots: seq<Dot>, vs: map<Dot, Vertex>, d: Dot, k: Key)
    requires forall x :: x in dots ==> x in vs
    requires d in dots && k in vs[d].cmd.keys
    ensures k in KeysOf(dots, vs)
    decreases |dots|
  {
    if dots[|dots| - 1] != d {
      assert d in dots[..|dots| - 1];
      KeysOfContains(dots[..|dots| - 1], vs, d, k);
    }
  }

  lemma {:induction false} KeysOfFrom(dots: seq<Dot>, vs: map<Dot, Vertex>, k: Key)
    requires forall x :: x in dots ==> x in vs
    requires k in KeysOf(dots, vs)
    ensures exists d :: d in dots && k in vs[d].cmd.keys
    decreases |dots|
  {
    var last := dots[|dots| - 1];
    if k !in vs[last].cmd.keys {
      KeysOfFrom(dots[..|dots| - 1], vs, k);
      var d :| d in dots[..|dots| - 1] && k in vs[d].cmd.keys;
      assert d in dots;
    }
  }

  /** A key survives taking another key off the work list and adding more. */
  lemma WorkKeeps(work: multiset<Key>, key: Key, more: multiset<Key>, k: Key)
    requires (k in work && k != key) || k in more
    ensures k in work - multiset{key} + more
  {
  }

  /** How the sets and sequences the loop of `save_scc` tracks grow by one
      element of the component. */
  lemma PrefixStep(scc: seq<Dot>, i: nat, executed0: set<Dot>, indexed0: set<Dot>, emitted0: seq<Dot>)
    requires i < |scc|
    ensures executed0 + Elements(scc[..i + 1]) == executed0 + Elements(scc[..i]) + {scc[i]}
    ensures indexed0 - Elements(scc[..i + 1]) == indexed0 - Elements(scc[..i]) - {scc[i]}
    ensures emitted0 + scc[..i + 1] == emitted0 + scc[..i] + [scc[i]]
  {
    TakeSnoc(scc, i);
    ElementsSnoc(scc[..i], scc[i]);
  }

  /** The loop of `save_scc` over the queue's bookkeeping: each dot of the
      component leaves the vertex and pending indexes, joins the executed
      clock, and its command joins the output buffer. */
  method SaveDots(ghost added: map<Dot, Vertex>, ghost drained: nat, scc: seq<Dot>,
                  executed0: set<Dot>, index0: map<Dot, Vertex>, pending0: map<Key, set<Dot>>,
                  ready0: seq<Command>, ghost emitted0: seq<Dot>)
    returns (executed: set<Dot>, index: map<Dot, Vertex>, pending: map<Key, set<Dot>>,
             ready: seq<Command>, keys: multiset<Key>, ghost emitted: seq<Dot>)
    requires VerticesOk(added, index0, executed0) && EmittedOk(emitted0, executed0)
    requires BufferOk(ready0, emitted0, drained, added) && PendingOk(pending0, index0, added)
    requires NoDup(scc) && forall x :: x in scc ==> x in index0
    ensures VerticesOk(added, index, executed) && EmittedOk(emitted, executed)
    ensures BufferOk(ready, emitted, drained, added) && PendingOk(pending, index, added)
    ensures executed == executed0 + Elements(scc)
    ensures index.Keys == index0.Keys - Elements(scc)
    ensures emitted == emitted0 + scc
    ensures keys == KeysOf(scc, added) && pending.Keys == pending0.Keys
  {
    executed, index, pending, ready, emitted := executed0, index0, pending0, ready0, emitted0;
    keys := multiset{};
    var i := 0;
    while i < |scc|
      invariant 0 <= i <= |scc|
      invariant VerticesOk(added, index, executed) && EmittedOk(emitted, executed)
      invariant BufferOk(ready, emitted, drained, added) && PendingOk(pending, index, added)
      invariant executed == executed0 + Elements(scc[..i])
      invariant index.Keys == index0.Keys - Elements(scc[..i])
      invariant emitted == emitted0 + scc[..i]
      invariant keys == KeysOf(scc[..i], added) && pending.Keys == pending0.Keys
    {
      var dot := scc[i];
      TakeSnoc(scc, i);
      PrefixStep(scc, i, executed0, index0.Keys, emitted0);
      NoDupNotBefore(scc, i);
      assert dot in index0;
      assert dot in index;
      SaveOneKeepsIndexed(added, index, executed, emitted, ready, drained, pending, dot);
      executed := executed + {dot};
      var vertex := index[dot];
      index := index - {dot};
      pending := PendingRemove(pending, vertex);
      keys := keys + multiset(vertex.cmd.keys);
      ready := ready + [vertex.cmd];
      emitted := emitted + [dot];
      i := i + 1;
    }
    assert scc[..i] == scc;
  }

  class Queue {
    const n: nat
    var executedClock: set<Dot>
    var vertexIndex: map<Dot, Vertex>
    var pendingIndex: map<Key, set<Dot>>
    var toExecute: seq<Command>
    /** Every vertex ever added. */
    ghost var added: map<Dot, Vertex>
    /** Every dot released so far, in release order. */
    ghost var emitted: seq<Dot>
    /** How many released commands the caller has already taken. */
    ghost var drained: nat

    /** The bookkeeping between the indexes, the executed clock and the
        output buffer. */
    ghost predicate Indexed()
      reads this
    {
      && VerticesOk(added, vertexIndex, executedClock)
      && EmittedOk(emitted, executedClock)
      && BufferOk(toExecute, emitted, drained, added)
      && PendingOk(pendingIndex, vertexIndex, added)
    }

    ghost predicate Valid()
      reads this
    {
      Indexed() && OrderOk(added, executedClock, emitted)
    }

    constructor (n: nat)
      ensures Valid() && Stable(vertexIndex, executedClock) && this.n == n
      ensures executedClock == {} && vertexIndex == map[] && pendingIndex == map[] && toExecute == []
      ensures added == map[] && emitted == [] && drained == 0
    {
      this.n := n;
      executedClock := {};
      vertexIndex := map[];
      pendingIndex := map[];
      toExecute := [];
      added := map[];
      emitted := [];
      drained := 0;
    }

    /** Hands over every command released since the last call and empties
        the buffer. */
    method ToExecute() returns (ready: seq<Command>)
      requires Valid()
      modifies this
      ensures added == old(added) && emitted == old(emitted)
      ensures ready == old(toExecute) && toExecute == [] && drained == |emitted|
      ensures |ready| == |emitted| - old(drained)
      ensures ready == Commands(emitted[old(drained)..], added)
      ensures executedClock == old(executedClock) && vertexIndex == old(vertexIndex)
      ensures pendingIndex == old(pendingIndex)
      ensures Valid()
    {
      ready := toExecute;
      toExecute := [];
      drained := |emitted|;
    }

    /** Once every dependency of every added command has been added, a stable
        queue has released every command, in an order without inversions. */
    lemma Complete()
      requires Valid() && Stable(vertexIndex, executedClock) && DepsPresent(VertexGraph(added))
      ensures vertexIndex == map[] && Enumerates(emitted, added.Keys) && NoInversion(VertexGraph(added), emitted)
    {
      CompleteStableDrained(added, vertexIndex, executedClock);
    }

    /** Adds a committed command with its dependency clock, then releases
        whatever became executable. The dot must not be indexed, as `index`
        checks, nor executed: a command is committed once, so an executed
        dot is never added again (`save_scc` asserts this only later, when
        the dot is saved). */
    method Add(dot: Dot, cmd: Command, clock: VClock)
      requires Valid() && dot !in vertexIndex && dot !in executedClock
      modifies this
      ensures Valid()
      ensures added == old(added)[dot := Vertex(dot, cmd, clock)]
      ensures old(emitted) <= emitted && drained == old(drained)
      ensures Stable(old(vertexIndex), old(executedClock)) && (exists k :: AllAccess(added, k))
        ==> Stable(vertexIndex, executedClock)
      ensures Stable(old(vertexIndex), old(executedClock))
        && !Releasable(VertexGraph(old(vertexIndex)[dot := Vertex(dot, cmd, clock)]), old(executedClock), dot)
        ==> emitted == old(emitted) && Stable(vertexIndex, executedClock)
    {
      var vertex := Vertex(dot, cmd, clock);
      ghost var wasStable := Stable(vertexIndex, executedClock);
      if wasStable && !Releasable(VertexGraph(vertexIndex[dot := vertex]), executedClock, dot) {
        IndexKeepsStable(vertexIndex, executedClock, vertex);
      }
      Index(vertex);
      ghost var releasable := Releasable(VertexGraph(vertexIndex), executedClock, dot);
      ghost var settled := wasStable && !releasable;
      assert settled ==> Stable(vertexIndex, executedClock);
      var keys := FindScc(dot);
      ghost var common: Key := "";
      if exists k :: AllAccess(added, k) {
        common :| AllAccess(added, common);
      }
      if wasStable && AllAccess(added, common) && releasable {
        assert common in added[dot].cmd.keys;
      }
      TryPending(keys, common);
    }

    /** Indexes a vertex by dot and by each key its command accesses. */
    method Index(vertex: Vertex)
      requires Valid() && vertex.dot !in vertexIndex && vertex.dot !in executedClock
      modifies this
      ensures Valid()
      ensures vertexIndex == old(vertexIndex)[vertex.dot := vertex]
      ensures added == old(added)[vertex.dot := vertex]
      ensures executedClock == old(executedClock) && toExecute == old(toExecute)
      ensures emitted == old(emitted) && drained == old(drained)
    {
      IndexKeepsOrder(added, vertexIndex, executedClock, emitted, vertex);
      IndexKeepsIndexed(added, vertexIndex, executedClock, emitted, toExecute, drained, pendingIndex, vertex);
      pendingIndex := PendingAdd(pendingIndex, vertex);
      vertexIndex := vertexIndex[vertex.dot := vertex];
      added := added[vertex.dot := vertex];
    }

    /** Runs a search from `dot`; when it succeeds, releases the dots found
        and returns the keys their commands access. */
    method FindScc(dot: Dot) returns (keys: multiset<Key>)
      requires Valid() && dot in vertexIndex
      modifies this
      ensures Valid()
      ensures added == old(added) && drained == old(drained) && old(emitted) <= emitted
      ensures forall k :: k in keys ==> k in pendingIndex
      ensures pendingIndex.Keys == old(pendingIndex.Keys)
      ensures !old(Releasable(VertexGraph(vertexIndex), executedClock, dot)) ==> keys == multiset{} && unchanged(this)
      ensures old(Releasable(VertexGraph(vertexIndex), executedClock, dot)) ==>
        |vertexIndex| < old(|vertexIndex|) && forall k :: k in added[dot].cmd.keys ==> k in keys
    {
      var result := StrongConnect(dot, executedClock, vertexIndex);
      keys := multiset{};
      if result.Found? {
        keys := Release(dot, result.batch);
      }
    }

    /** Releases a batch the finder found from `dot`: its whole pending
        reach, in the finder's order. */
    method Release(dot: Dot, batch: seq<Dot>) returns (keys: multiset<Key>)
      requires Valid() && Releasable(VertexGraph(vertexIndex), executedClock, dot)
      requires Enumerates(batch, Reach(VertexGraph(vertexIndex), executedClock, dot))
      requires forall p, q :: 0 <= p < q < |batch| ==>
        ReleaseBefore(VertexGraph(vertexIndex), executedClock, batch[p], batch[q])
      modifies this
      ensures Valid()
      ensures added == old(added) && drained == old(drained) && emitted == old(emitted) + batch
      ensures executedClock == old(executedClock) + old(Reach(VertexGraph(vertexIndex), executedClock, dot))
      ensures forall k :: k in keys ==> k in pendingIndex
      ensures pendingIndex.Keys == old(pendingIndex.Keys)
      ensures |vertexIndex| < old(|vertexIndex|) && forall k :: k in added[dot].cmd.keys ==> k in keys
    {
      ghost var reach := Reach(VertexGraph(vertexIndex), executedClock, dot);
      ReleaseKeepsOrderOk(added, vertexIndex, executedClock, emitted, dot, batch);
      assert Elements(batch) == reach;
      keys := SaveScc(batch);
      assert dot in batch;
      forall k | k in added[dot].cmd.keys
        ensures k in keys
      {
        KeysOfContains(batch, added, dot, k);
      }
      forall k | k in keys
        ensures k in pendingIndex
      {
        KeysOfFrom(batch, added, k);
      }
      assert vertexIndex.Keys < old(vertexIndex).Keys by {
        assert dot in old(vertexIndex) && dot !in vertexIndex;
      }
      ProperSubsetCard(vertexIndex.Keys, old(vertexIndex).Keys);
    }

    /** Moves the dots of a found component from the indexes to the executed
        clock and their commands to the output buffer. */
    method SaveScc(scc: seq<Dot>) returns (keys: multiset<Key>)
      requires Indexed() && NoDup(scc) && forall x :: x in scc ==> x in vertexIndex
      modifies this
      ensures Indexed()
      ensures executedClock == old(executedClock) + Elements(scc)
      ensures vertexIndex.Keys == old(vertexIndex).Keys - Elements(scc)
      ensures emitted == old(emitted) + scc
      ensures added == old(added) && drained == old(drained)
      ensures keys == KeysOf(scc, added) && pendingIndex.Keys == old(pendingIndex.Keys)
    {
      ghost var released;
      executedClock, vertexIndex, pendingIndex, toExecute, keys, released :=
        SaveDots(added, drained, scc, executedClock, vertexIndex, pendingIndex, toExecute, emitted);
      emitted := released;
    }

    /** Retries every pending command on the keys in `keys`, restarting
        whenever a search releases something. `common` is a proof device: if
        every command accesses it, the queue ends up stable. */
    method TryPending(keys: multiset<Key>, ghost common: Key)
      requires Valid() && forall k :: k in keys ==> k in pendingIndex
      modifies this
      ensures Valid()
      ensures added == old(added) && drained == old(drained) && old(emitted) <= emitted
      ensures AllAccess(added, common) && (Stable(old(vertexIndex), old(executedClock)) || common in keys)
        ==> Stable(vertexIndex, executedClock)
      ensures keys == multiset{} ==> unchanged(this)
    {
      ghost var stable := Stable(vertexIndex, executedClock);
      ghost var goal := AllAccess(added, common) && (stable || common in keys);
      var work := keys;
      while work != multiset{}
        invariant Valid()
        invariant added == old(added) && drained == old(drained) && old(emitted) <= emitted
        invariant forall k :: k in work ==> k in pendingIndex
        invariant keys == multiset{} ==> work == multiset{} && unchanged(this)
        invariant stable ==> Stable(vertexIndex, executedClock)
        invariant goal ==> stable || common in work
        decreases |vertexIndex|, |work|
      {
        work, stable := TryNext(work, stable, common);
      }
    }

    /** One round of `try_pending`: takes a key off the work list, retries
        its pending commands and adds the keys of whatever they released. */
    method TryNext(work: multiset<Key>, ghost wasStable: bool, ghost common: Key)
      returns (work': multiset<Key>, ghost stable: bool)
      requires Valid() && work != multiset{} && forall k :: k in work ==> k in pendingIndex
      requires wasStable ==> Stable(vertexIndex, executedClock)
      modifies this
      ensures Valid()
      ensures added == old(added) && drained == old(drained) && old(emitted) <= emitted
      ensures forall k :: k in work' ==> k in pendingIndex
      ensures stable ==> Stable(vertexIndex, executedClock)
      ensures AllAccess(added, common) && (wasStable || common in work) ==> stable || common in work'
      ensures |vertexIndex| < old(|vertexIndex|) || (vertexIndex == old(vertexIndex) && |work'| < |work|)
    {
      var key :| key in work;
      var newKeys;
      newKeys, stable := TryKey(key, wasStable, common);
      work' := work - multiset{key} + newKeys;
      if AllAccess(added, common) && (wasStable || common in work) && !stable {
        if newKeys != multiset{} {
          assert common in newKeys;
        } else {
          assert key != common && common in work;
        }
        WorkKeeps(work, key, newKeys, common);
      }
    }

    /** Runs a search from each pending command that accesses `key`, and
        stops at the first one that releases something, returning the keys
        the released commands access. */
    method TryKey(key: Key, ghost wasStable: bool, ghost common: Key) returns (newKeys: multiset<Key>, ghost stable: bool)
      requires Valid() && key in pendingIndex
      requires wasStable ==> Stable(vertexIndex, executedClock)
      modifies this
      ensures Valid()
      ensures added == old(added) && drained == old(drained) && old(emitted) <= emitted
      ensures forall k :: k in newKeys ==> k in pendingIndex
      ensures pendingIndex.Keys == old(pendingIndex.Keys)
      ensures newKeys == multiset{} ==> unchanged(this)
      ensures newKeys != multiset{} ==> |vertexIndex| < old(|vertexIndex|)
      ensures stable == (newKeys == multiset{} && (wasStable || AllAccess(added, key)))
      ensures stable ==> Stable(vertexIndex, executedClock)
      ensures newKeys != multiset{} && AllAccess(added, common) ==> common in newKeys
    {
      PendingOnKey(added, vertexIndex, executedClock, pendingIndex, key);
      var pending := pendingIndex[key];
      var tried: set<Dot> := {};
      newKeys := multiset{};
      while tried != pending && newKeys == multiset{}
        invariant tried <= pending
        invariant Valid()
        invariant added == old(added) && drained == old(drained) && old(emitted) <= emitted
        invariant forall k :: k in newKeys ==> k in pendingIndex
        invariant pendingIndex.Keys == old(pendingIndex.Keys)
        invariant newKeys == multiset{} ==> unchanged(this)
        invariant newKeys != multiset{} ==> |vertexIndex| < old(|vertexIndex|)
        invariant newKeys != multiset{} && AllAccess(added, common) ==> common in newKeys
        invariant newKeys == multiset{} && AllAccess(added, key) ==>
          forall d :: d in vertexIndex && Releasable(VertexGraph(vertexIndex), executedClock, d) ==> d in pending - tried
        decreases pending - tried, if newKeys == multiset{} then 1 else 0
      {
        SetDiffWitness(tried, pending);
        var dot :| dot in pending - tried;
        newKeys := FindScc(dot);
        tried := tried + {dot};
      }
      stable := newKeys == multiset{} && (wasStable || AllAccess(added, key));
    }
  }
}
