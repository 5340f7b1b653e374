/** The two indexes of the graph executor: the vertices of committed
    commands by dot, and the commands waiting on a missing dependency. */
module GraphIndex {
  import opened Ids
  import opened Wrappers

  /** A vertex of the dependency graph: a committed command's dot and the
      dots it depends on. */
  datatype Vertex = Vertex(dot: Dot, deps: set<Dot>)

  /** `VertexIndex`: the vertices indexed so far, by their own dot. */
  class VertexIndex {
    const processId: ProcessId
    const shards: nat
    var local: map<Dot, Vertex>

    /** Every vertex is stored under its own dot. */
    ghost predicate Valid()
      reads this
    {
      forall d :: d in local ==> local[d].dot == d
    }

    constructor (processId: ProcessId, shards: nat)
      ensures Valid() && local == map[]
      ensures this.processId == processId && this.shards == shards
    {
      this.processId := processId;
      this.shards := shards;
      local := map[];
    }

    /** `find`: the vertex stored under `dot`, if any. */
    function Find(dot: Dot): (r: Option<Vertex>)
      requires Valid()
      reads this
      ensures r.Some? <==> dot in Dots()
      ensures r.Some? ==> r.value.dot == dot
    {
      if dot in local then Some(local[dot]) else None
    }

    /** `dots`: the dots indexed. */
    function Dots(): (ds: set<Dot>)
      reads this
      ensures forall d :: d in ds <==> d in local
    {
      local.Keys
    }

    /** `index`: stores the vertex under its dot and gives back the vertex
        that was there before, if any; no other dot changes. */
    method Index(vertex: Vertex) returns (previous: Option<Vertex>)
      requires Valid()
      modifies this
      ensures Valid()
      ensures previous == old(Find(vertex.dot))
      ensures Find(vertex.dot) == Some(vertex)
      ensures forall d :: d != vertex.dot ==> Find(d) == old(Find(d))
      ensures Dots() == old(Dots()) + {vertex.dot}
    {
      previous := if vertex.dot in local then Some(local[vertex.dot]) else None;
      local := local[vertex.dot := vertex];
    }

    /** `remove`: takes the vertex out of the index and gives it back; the
        dot is then no longer found, and no other dot changes. */
    method Remove(dot: Dot) returns (removed: Option<Vertex>)
      requires Valid()
      modifies this
      ensures Valid()
      ensures removed == old(Find(dot))
      ensures Find(dot) == None
      ensures forall d :: d != dot ==> Find(d) == old(Find(d))
      ensures Dots() == old(Dots()) - {dot}
    {
      removed := if dot in local then Some(local[dot]) else None;
      local := local - {dot};
    }
  }

  /** `PendingIndex`: for each missing dependency, the dots of the commands
      waiting on it; and the dots this shard replicates without being their
      target shard (`mine`). `targetShard` is `Dot::target_shard` for this
      deployment, which is not part of this model. */
  class PendingIndex {
    const shardId: ShardId
    const n: nat
    const targetShard: Dot -> ShardId
    var index: map<Dot, set<Dot>>
    var mine: set<Dot>

    /** Every missing dependency has at least one waiting command. */
    ghost predicate Valid()
      reads this
    {
      forall d :: d in index ==> index[d] != {}
    }

    constructor (shardId: ShardId, n: nat, targetShard: Dot -> ShardId)
      ensures Valid() && index == map[] && mine == {}
      ensures this.shardId == shardId && this.n == n && this.targetShard == targetShard
    {
      this.shardId := shardId;
      this.n := n;
      this.targetShard := targetShard;
      index := map[];
      mine := {};
    }

    /** `add_mine` asserts the dot was not mine already. */
    method AddMine(dot: Dot)
      requires dot !in mine
      modifies this
      ensures mine == old(mine) + {dot} && |mine| == |old(mine)| + 1
      ensures index == old(index)
    {
      mine := mine + {dot};
    }

    /** `is_mine`. */
    predicate IsMine(dot: Dot)
      reads this
    {
      dot in mine
    }

    /** The commands waiting on `dep`. */
    function Children(dep: Dot): set<Dot>
      reads this
    {
      if dep in index then index[dep] else {}
    }

    /** `index`: records `dot` as waiting on `dep`. Only the first time `dep`
        is found missing may another shard be asked for it: when its target
        shard is not this one and `dep` is not mine. */
    method Index(dep: Dot, dot: Dot) returns (ask: Option<ShardId>)
      requires Valid()
      modifies this
      ensures Valid() && mine == old(mine)
      ensures Children(dep) == old(Children(dep)) + {dot}
      ensures forall d :: d != dep ==> Children(d) == old(Children(d))
      ensures index.Keys == old(index.Keys) + {dep}
      ensures ask.Some? <==> dep !in old(index) && targetShard(dep) != shardId && !IsMine(dep)
      ensures ask.Some? ==> ask.value == targetShard(dep)
    {
      ask := None;
      if dep !in index {
        index := index[dep := {dot}];
        var target := targetShard(dep);
        if target != shardId && dep !in mine {
          ask := Some(target);
        }
      } else {
        index := index[dep := index[dep] + {dot}];
      }
    }

    /** `remove`: gives back the commands waiting on `dep`, if any, and
        forgets `dep` both as a missing dependency and as mine. */
    method Remove(dep: Dot) returns (children: Option<set<Dot>>)
      requires Valid()
      modifies this
      ensures Valid()
      ensures children == (if dep in old(index) then Some(old(Children(dep))) else None)
      ensures children.Some? ==> children.value != {}
      ensures index == old(index) - {dep} && Children(dep) == {}
      ensures mine == old(mine) - {dep}
    {
      mine := mine - {dep};
      children := if dep in index then Some(index[dep]) else None;
      index := index - {dep};
    }
  }

  /** Two commands found waiting on the same missing dependency, on a fresh
      index: only the first `index` may ask the dependency's target shard,
      and both commands are then waiting on it. */
  method IndexTwice(shardId: ShardId, n: nat, targetShard: Dot -> ShardId, dep: Dot, a: Dot, b: Dot)
    returns (first: Option<ShardId>, second: Option<ShardId>, waiting: set<Dot>)
    ensures first == (if targetShard(dep) != shardId then Some(targetShard(dep)) else None)
    ensures second == None
    ensures waiting == {a, b}
  {
    var pending := new PendingIndex(shardId, n, targetShard);
    first := pending.Index(dep, a);
    second := pending.Index(dep, b);
    var children := pending.Remove(dep);
    waiting := children.value;
  }
  /** Indexing two vertices with the same dot on a fresh index: the second
      `index` gives back the first vertex, `remove` gives back the second,
      and the dot is then no longer found. */
  method IndexReplaceRemove(processId: ProcessId, shards: nat, v: Vertex, w: Vertex)
    returns (first: Option<Vertex>, second: Option<Vertex>, removed: Option<Vertex>, after: Option<Vertex>)
    requires v.dot == w.dot
    ensures first == None && second == Some(v) && removed == Some(w) && after == None
  {
    var vertices := new VertexIndex(processId, shards);
    first := vertices.Index(v);
    second := vertices.Index(w);
    removed := vertices.Remove(v.dot);
    after := vertices.Find(v.dot);
  }
}
