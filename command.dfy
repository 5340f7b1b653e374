/** The command of the `fantoch` crate (fantoch/src/command.rs): the ops it
    runs on each key of each shard, and the builder that gathers a
    multi-key command's partial results. */
module Commands {
  import opened Ids
  import opened Wrappers
  import opened Storage

  const DefaultShardId: ShardId := 0

  type ShardOps = map<Key, seq<StorageOp>>

  /** `Command`. `shardToKeys` holds each shard's key list as a multiset:
      the list is filled in hash-map order, which is not modelled. */
  datatype Command = Command(
    rifl: Rifl,
    shardToOps: map<ShardId, ShardOps>,
    shardToNDepsOps: map<ShardId, map<Key, seq<seq<nat>>>>,
    shardToKeys: map<ShardId, multiset<Key>>)

  /** The keys a command accesses on a shard (none if it skips the shard). */
  function KeysAt(c: Command, s: ShardId): set<Key>
  {
    if s in c.shardToOps then c.shardToOps[s].Keys else {}
  }

  /** The ops a command runs on a key of a shard (none if it skips it). */
  function OpsAt(c: Command, s: ShardId, k: Key): seq<StorageOp>
  {
    if s in c.shardToOps && k in c.shardToOps[s] then c.shardToOps[s][k] else []
  }

  /** Every (shard, key) pair a command accesses. */
  function AllKeys(c: Command): (r: set<(ShardId, Key)>)
    ensures forall s, k :: (s, k) in r <==> s in c.shardToOps && k in c.shardToOps[s]
  {
    set s, k | s in c.shardToOps.Keys && k in c.shardToOps[s].Keys :: (s, k)
  }

  /** `Command::new`: keeps the ops, gives every key an empty list of
      dependency indices, and lists every key of a shard twice in
      `shardToKeys`, once while wrapping the ops and once while building
      the dependency lists. A shard without keys gets no entry there. */
  function New(rifl: Rifl, ops: map<ShardId, ShardOps>): (c: Command)
    ensures c.rifl == rifl && c.shardToOps == ops
    ensures c.shardToNDepsOps.Keys == ops.Keys
    ensures forall s :: s in ops ==> c.shardToNDepsOps[s].Keys == ops[s].Keys
    ensures forall s, k :: s in ops && k in ops[s] ==> c.shardToNDepsOps[s][k] == []
    ensures forall s :: s in c.shardToKeys <==> s in ops && ops[s] != map[]
    ensures forall s, k :: s in c.shardToKeys ==> c.shardToKeys[s][k] == if k in ops[s] then 2 else 0
  {
    Command(
      rifl,
      ops,
      map s | s in ops :: map k | k in ops[s] :: [],
      map s | s in ops && ops[s] != map[] :: multiset(ops[s].Keys) + multiset(ops[s].Keys))
  }

  /** The key-to-op map `HashMap::from_iter` builds: a key listed twice
      keeps its last op. */
  function FromPairs(pairs: seq<(Key, StorageOp)>): (m: ShardOps)
    ensures forall k :: k in m <==> exists i :: 0 <= i < |pairs| && pairs[i].0 == k
  {
    if pairs == [] then map[]
    else
      var init, last := pairs[..|pairs| - 1], pairs[|pairs| - 1];
      var m0 := FromPairs(init);
      assert forall i :: 0 <= i < |init| ==> init[i] == pairs[i];
      m0[last.0 := [last.1]]
  }

  /** A key's single op is the one of its last occurrence. */
  lemma {:induction false} FromPairsLast(pairs: seq<(Key, StorageOp)>, i: nat)
    requires i < |pairs| && forall j :: i < j < |pairs| ==> pairs[j].0 != pairs[i].0
    ensures FromPairs(pairs)[pairs[i].0] == [pairs[i].1]
  {
    if i < |pairs| - 1 {
      var init := pairs[..|pairs| - 1];
      FromPairsLast(init, i);
    }
  }

  /** `Command::from`: every key in the default shard, with one op each. */
  function From(rifl: Rifl, pairs: seq<(Key, StorageOp)>): (c: Command)
    ensures c.rifl == rifl && c.shardToOps.Keys == {DefaultShardId}
    ensures forall k :: k in KeysAt(c, DefaultShardId) <==> exists i :: 0 <= i < |pairs| && pairs[i].0 == k
    ensures forall i :: 0 <= i < |pairs| && (forall j :: i < j < |pairs| ==> pairs[j].0 != pairs[i].0) ==>
      OpsAt(c, DefaultShardId, pairs[i].0) == [pairs[i].1]
  {
    forall i | 0 <= i < |pairs| && (forall j :: i < j < |pairs| ==> pairs[j].0 != pairs[i].0) {
      FromPairsLast(pairs, i);
    }
    New(rifl, map[DefaultShardId := FromPairs(pairs)])
  }

  /** `read_only`: every op is a `Get`. */
  predicate ReadOnly(c: Command)
  {
    forall s, k :: s in c.shardToOps && k in c.shardToOps[s] ==> Storage.ReadOnly(c.shardToOps[s][k])
  }

  /** `replicated_by`. */
  predicate ReplicatedBy(c: Command, s: ShardId)
  {
    s in c.shardToOps
  }

  /** `key_count`: the keys accessed on a shard, 0 for a shard skipped. */
  function KeyCount(c: Command, s: ShardId): (n: nat)
    ensures n == |KeysAt(c, s)|
    ensures !ReplicatedBy(c, s) ==> n == 0
  {
    if s in c.shardToOps then |c.shardToOps[s]| else 0
  }

  /** The key counts of some shards, added up. */
  ghost function SumKeyCounts(c: Command, shards: set<ShardId>): nat
  {
    if shards == {} then 0
    else
      var s :| s in shards;
      KeyCount(c, s) + SumKeyCounts(c, shards - {s})
  }

  /** `total_key_count`: the key counts of all shards, added up. */
  ghost function TotalKeyCount(c: Command): nat
  {
    SumKeyCounts(c, c.shardToOps.Keys)
  }

  /** `nfr_allowed`: a read-only command on a single key. */
  ghost predicate NfrAllowed(c: Command)
  {
    ReadOnly(c) && TotalKeyCount(c) == 1
  }

  function ShardPairs(s: ShardId, ks: set<Key>): set<(ShardId, Key)>
  {
    set k | k in ks :: (s, k)
  }

  lemma {:induction false} ShardPairsCard(s: ShardId, ks: set<Key>)
    ensures |ShardPairs(s, ks)| == |ks|
    decreases ks
  {
    if ks != {} {
      var k :| k in ks;
      ShardPairsCard(s, ks - {k});
      assert ShardPairs(s, ks) == ShardPairs(s, ks - {k}) + {(s, k)};
    }
  }

  function PairsOf(c: Command, shards: set<ShardId>): set<(ShardId, Key)>
  {
    set s, k | s in shards && s in c.shardToOps && k in c.shardToOps[s] :: (s, k)
  }

  lemma {:induction false} SumKeyCountsPairs(c: Command, shards: set<ShardId>)
    ensures SumKeyCounts(c, shards) == |PairsOf(c, shards)|
    decreases shards
  {
    if shards != {} {
      var s :| s in shards && SumKeyCounts(c, shards) == KeyCount(c, s) + SumKeyCounts(c, shards - {s});
      SumKeyCountsPairs(c, shards - {s});
      ShardPairsCard(s, KeysAt(c, s));
      assert PairsOf(c, shards) == PairsOf(c, shards - {s}) + ShardPairs(s, KeysAt(c, s));
      assert PairsOf(c, shards - {s}) * ShardPairs(s, KeysAt(c, s)) == {};
      assert |PairsOf(c, shards)| == |PairsOf(c, shards - {s})| + |ShardPairs(s, KeysAt(c, s))|;
      assert KeyCount(c, s) == |ShardPairs(s, KeysAt(c, s))|;
    }
  }

  /** The total key count is the number of (shard, key) pairs accessed: the
      sum does not depend on the order the shards are visited in. */
  lemma TotalKeyCountPairs(c: Command)
    ensures TotalKeyCount(c) == |AllKeys(c)|
  {
    SumKeyCountsPairs(c, c.shardToOps.Keys);
    assert PairsOf(c, c.shardToOps.Keys) == AllKeys(c);
  }

  /** `contains_key`. */
  predicate ContainsKey(c: Command, s: ShardId, k: Key)
  {
    s in c.shardToOps && k in c.shardToOps[s]
  }

  /** `conflicts`: some key of `a` on some shard is also a key of `b` on
      that shard; the ops are not looked at. */
  predicate Conflicts(a: Command, b: Command)
  {
    exists s, k :: s in a.shardToOps && k in a.shardToOps[s] && ContainsKey(b, s, k)
  }

  /** Two commands conflict iff they share a (shard, key) pair; hence the
      relation is symmetric, and reflexive on commands with a key. */
  lemma ConflictsShared(a: Command, b: Command)
    ensures Conflicts(a, b) <==> AllKeys(a) * AllKeys(b) != {}
    ensures Conflicts(a, b) <==> Conflicts(b, a)
    ensures Conflicts(a, a) <==> AllKeys(a) != {}
  {
    if Conflicts(a, b) {
      var s, k :| s in a.shardToOps && k in a.shardToOps[s] && ContainsKey(b, s, k);
      assert (s, k) in AllKeys(a) * AllKeys(b);
    }
    if AllKeys(a) * AllKeys(b) != {} {
      var p :| p in AllKeys(a) * AllKeys(b);
      assert ContainsKey(b, p.0, p.1);
    }
    if AllKeys(a) != {} {
      var p :| p in AllKeys(a);
      assert ContainsKey(a, p.0, p.1);
    }
  }

  /** One `Put` of `v` per key. */
  function PutPairs(keys: seq<Key>, v: Value): (ps: seq<(Key, StorageOp)>)
    ensures |ps| == |keys| && forall i :: 0 <= i < |keys| ==> ps[i] == (keys[i], Put(v))
  {
    if keys == [] then [] else PutPairs(keys[..|keys| - 1], v) + [(keys[|keys| - 1], Put(v))]
  }

  /** The commands of the `conflicts` test of command.rs: one `Put` of `v` per
      key, all in the default shard. */
  function MultiPut(rifl: Rifl, keys: seq<Key>, v: Value): (c: Command)
    ensures c.shardToOps.Keys == {DefaultShardId}
    ensures forall k :: k in KeysAt(c, DefaultShardId) <==> k in keys
  {
    var c := From(rifl, PutPairs(keys, v));
    assert forall k :: k in keys ==> exists i :: 0 <= i < |keys| && PutPairs(keys, v)[i].0 == k;
    c
  }

  lemma SingleShardConflicts(a: Command, b: Command)
    requires a.shardToOps.Keys == {DefaultShardId} && b.shardToOps.Keys == {DefaultShardId}
    ensures Conflicts(a, b) <==> KeysAt(a, DefaultShardId) * KeysAt(b, DefaultShardId) != {}
  {
    if KeysAt(a, DefaultShardId) * KeysAt(b, DefaultShardId) != {} {
      var k :| k in KeysAt(a, DefaultShardId) * KeysAt(b, DefaultShardId);
      assert DefaultShardId in a.shardToOps && k in a.shardToOps[DefaultShardId] && ContainsKey(b, DefaultShardId, k);
    }
    if Conflicts(a, b) {
      var s, k :| s in a.shardToOps && k in a.shardToOps[s] && ContainsKey(b, s, k);
      assert s == DefaultShardId;
      assert k in KeysAt(a, DefaultShardId) * KeysAt(b, DefaultShardId);
    }
  }

  /** The table of the `conflicts` test of command.rs, for single-shard
      commands on keys A, B, C and on both A and B (as `MultiPut` builds
      them), with any three distinct keys in place of "A", "B" and "C":
      they conflict exactly when they share a key. */
  lemma ConflictsTable(ka: Key, kb: Key, kc: Key, a: Command, b: Command, c: Command, ab: Command)
    requires ka != kb && ka != kc && kb != kc
    requires a.shardToOps.Keys == b.shardToOps.Keys == c.shardToOps.Keys == ab.shardToOps.Keys == {DefaultShardId}
    requires KeysAt(a, DefaultShardId) == {ka} && KeysAt(b, DefaultShardId) == {kb}
    requires KeysAt(c, DefaultShardId) == {kc} && KeysAt(ab, DefaultShardId) == {ka, kb}
    ensures Conflicts(a, a) && !Conflicts(a, b) && !Conflicts(a, c) && Conflicts(a, ab)
    ensures !Conflicts(b, a) && Conflicts(b, b) && !Conflicts(b, c) && Conflicts(b, ab)
    ensures !Conflicts(c, a) && !Conflicts(c, b) && Conflicts(c, c) && !Conflicts(c, ab)
    ensures Conflicts(ab, a) && Conflicts(ab, b) && !Conflicts(ab, c) && Conflicts(ab, ab)
  {
    assert {ka} * {kb} == {} && {ka} * {kc} == {} && {kb} * {kc} == {} && {kc} * {ka, kb} == {};
    assert ka in {ka} * {ka, kb} && kb in {kb} * {ka, kb};
    SingleShardConflicts(a, a); SingleShardConflicts(a, b); SingleShardConflicts(a, c); SingleShardConflicts(a, ab);
    SingleShardConflicts(b, a); SingleShardConflicts(b, b); SingleShardConflicts(b, c); SingleShardConflicts(b, ab);
    SingleShardConflicts(c, a); SingleShardConflicts(c, b); SingleShardConflicts(c, c); SingleShardConflicts(c, ab);
    SingleShardConflicts(ab, a); SingleShardConflicts(ab, b); SingleShardConflicts(ab, c); SingleShardConflicts(ab, ab);
  }

  /** `m` is what merging `b` into `a` gives: the shards and keys of both,
      and on each key the ops of `a` followed by those of `b`. */
  ghost predicate IsMerge(a: Command, b: Command, m: map<ShardId, ShardOps>)
  {
    && m.Keys == a.shardToOps.Keys + b.shardToOps.Keys
    && (forall s :: s in m ==> m[s].Keys == KeysAt(a, s) + KeysAt(b, s))
    && (forall s, k :: s in m && k in m[s] ==> m[s][k] == OpsAt(a, s, k) + OpsAt(b, s, k))
  }

  /** `merge`: for each shard of `other`, and each key of it, append its
      ops to those of `self` (creating the shard and the key when missing).
      The dependency lists and the shard key lists are left as they were. */
  method Merge(self: Command, other: Command) returns (merged: Command)
    ensures merged.rifl == self.rifl && IsMerge(self, other, merged.shardToOps)
    ensures merged.shardToNDepsOps == self.shardToNDepsOps && merged.shardToKeys == self.shardToKeys
  {
    var ops := self.shardToOps;
    var shards := other.shardToOps.Keys;
    while shards != {}
      invariant shards <= other.shardToOps.Keys
      invariant MergedUpTo(self, other, shards, ops)
      decreases shards
    {
      var s :| s in shards;
      var current := if s in ops then ops[s] else map[];
      var next := MergeShard(current, other.shardToOps[s]);
      MergeStep(self, other, shards, ops, s, next);
      ops := ops[s := next];
      shards := shards - {s};
    }
    MergeDone(self, other, ops);
    merged := self.(shardToOps := ops);
  }

  /** The invariant of `merge`'s outer loop: the shards of `other` still in
      `pending` have not been merged into `ops` yet, all others have. */
  ghost predicate MergedUpTo(a: Command, b: Command, pending: set<ShardId>, ops: map<ShardId, ShardOps>)
  {
    MergedKeysUpTo(a, b, pending, ops) && MergedOpsUpTo(a, b, pending, ops)
  }

  /** The shards and keys part of `MergedUpTo`. */
  ghost predicate MergedKeysUpTo(a: Command, b: Command, pending: set<ShardId>, ops: map<ShardId, ShardOps>)
  {
    && ops.Keys == a.shardToOps.Keys + (b.shardToOps.Keys - pending)
    && (forall s :: s in ops ==>
          ops[s].Keys == KeysAt(a, s) + (if s in pending then {} else KeysAt(b, s)))
  }

  /** The ops part of `MergedUpTo`. */
  ghost predicate MergedOpsUpTo(a: Command, b: Command, pending: set<ShardId>, ops: map<ShardId, ShardOps>)
  {
    forall s, k :: s in ops && k in ops[s] ==>
      ops[s][k] == OpsAt(a, s, k) + (if s in pending then [] else OpsAt(b, s, k))
  }

  /** What `MergeShard` returns for shard `s`, given `ops` so far. */
  ghost predicate ShardMerged(b: Command, ops: map<ShardId, ShardOps>, s: ShardId, next: ShardOps)
    requires s in b.shardToOps
  {
    && next.Keys == (if s in ops then ops[s] else map[]).Keys + b.shardToOps[s].Keys
    && (forall k :: k in next ==>
          next[k] == (if s in ops && k in ops[s] then ops[s][k] else []) + (if k in b.shardToOps[s] then b.shardToOps[s][k] else []))
  }

  /** One step of `merge`'s outer loop keeps its invariant. */
  lemma MergeStep(a: Command, b: Command, pending: set<ShardId>, ops: map<ShardId, ShardOps>,
                  s: ShardId, next: ShardOps)
    requires MergedUpTo(a, b, pending, ops) && s in pending && s in b.shardToOps
    requires ShardMerged(b, ops, s, next)
    ensures MergedUpTo(a, b, pending - {s}, ops[s := next])
  {
    MergeStepKeys(a, b, pending, ops, s, next);
    MergeStepOps(a, b, pending, ops, s, next);
  }

  lemma MergeStepKeys(a: Command, b: Command, pending: set<ShardId>, ops: map<ShardId, ShardOps>,
                      s: ShardId, next: ShardOps)
    requires MergedKeysUpTo(a, b, pending, ops) && s in pending && s in b.shardToOps
    requires ShardMerged(b, ops, s, next)
    ensures MergedKeysUpTo(a, b, pending - {s}, ops[s := next])
  {
    var ops' := ops[s := next];
    assert next.Keys == KeysAt(a, s) + KeysAt(b, s) by {
      if s in ops { assert ops[s].Keys == KeysAt(a, s); }
      else { assert s !in a.shardToOps; }
    }
    forall t | t in ops'
      ensures ops'[t].Keys == KeysAt(a, t) + (if t in pending - {s} then {} else KeysAt(b, t))
    {
      if t != s { assert ops'[t] == ops[t]; }
    }
  }

  lemma MergeStepOps(a: Command, b: Command, pending: set<ShardId>, ops: map<ShardId, ShardOps>,
                     s: ShardId, next: ShardOps)
    requires MergedUpTo(a, b, pending, ops) && s in pending && s in b.shardToOps
    requires ShardMerged(b, ops, s, next)
    ensures MergedOpsUpTo(a, b, pending - {s}, ops[s := next])
  {
    var ops' := ops[s := next];
    forall t, k | t in ops' && k in ops'[t]
      ensures ops'[t][k] == OpsAt(a, t, k) + (if t in pending - {s} then [] else OpsAt(b, t, k))
    {
      if t != s {
        assert ops'[t] == ops[t];
      } else if s in ops && k in ops[s] {
        assert ops[s][k] == OpsAt(a, s, k);
      } else if s in ops {
        assert k !in KeysAt(a, s);
      } else {
        assert s !in a.shardToOps;
      }
    }
  }

  /** Once no shard is pending, the loop has merged the two commands. */
  lemma MergeDone(a: Command, b: Command, ops: map<ShardId, ShardOps>)
    requires MergedUpTo(a, b, {}, ops)
    ensures IsMerge(a, b, ops)
  {
  }

  /** The inner loop of `merge`, over the keys of one shard of `other`. */
  method MergeShard(current: ShardOps, other: ShardOps) returns (merged: ShardOps)
    ensures merged.Keys == current.Keys + other.Keys
    ensures forall k :: k in merged ==>
      merged[k] == (if k in current then current[k] else []) + (if k in other then other[k] else [])
  {
    merged := current;
    var keys := other.Keys;
    while keys != {}
      invariant keys <= other.Keys
      invariant merged.Keys == current.Keys + (other.Keys - keys)
      invariant forall k :: k in merged ==>
        merged[k] == (if k in current then current[k] else []) + (if k in other && k !in keys then other[k] else [])
      decreases keys
    {
      var k :| k in keys;
      var ops := if k in merged then merged[k] else [];
      merged := merged[k := ops + other[k]];
      keys := keys - {k};
    }
  }

  /** A merged command accesses the keys of both commands. */
  lemma MergeKeys(a: Command, b: Command, m: map<ShardId, ShardOps>)
    requires IsMerge(a, b, m)
    ensures AllKeys(a.(shardToOps := m)) == AllKeys(a) + AllKeys(b)
  {
    forall p | p in AllKeys(a) + AllKeys(b)
      ensures p in AllKeys(a.(shardToOps := m))
    {
      assert p.1 in m[p.0];
    }
  }

  /** A merged command is read-only iff both commands are. */
  lemma MergeReadOnly(a: Command, b: Command, m: map<ShardId, ShardOps>)
    requires IsMerge(a, b, m)
    ensures ReadOnly(a.(shardToOps := m)) <==> ReadOnly(a) && ReadOnly(b)
  {
    var c := a.(shardToOps := m);
    if ReadOnly(a) && ReadOnly(b) {
      forall s, k | s in m && k in m[s]
        ensures Storage.ReadOnly(m[s][k])
      {
        assert Storage.ReadOnly(OpsAt(a, s, k)) && Storage.ReadOnly(OpsAt(b, s, k));
      }
    }
    if ReadOnly(c) {
      forall s, k | s in b.shardToOps && k in b.shardToOps[s]
        ensures Storage.ReadOnly(b.shardToOps[s][k])
      {
        var x, y := OpsAt(a, s, k), OpsAt(b, s, k);
        assert Storage.ReadOnly(x + y);
        forall i | 0 <= i < |y|
          ensures y[i] == Get
        {
          assert y[i] == (x + y)[|x| + i];
        }
      }
      forall s, k | s in a.shardToOps && k in a.shardToOps[s]
        ensures Storage.ReadOnly(a.shardToOps[s][k])
      {
        var x, y := OpsAt(a, s, k), OpsAt(b, s, k);
        assert Storage.ReadOnly(x + y);
        forall i | 0 <= i < |x|
          ensures x[i] == Get
        {
          assert x[i] == (x + y)[i];
        }
      }
    }
  }

  /** A merged command conflicts with whatever either command conflicts
      with. */
  lemma MergeConflicts(a: Command, b: Command, m: map<ShardId, ShardOps>, x: Command)
    requires IsMerge(a, b, m)
    ensures Conflicts(a.(shardToOps := m), x) <==> Conflicts(a, x) || Conflicts(b, x)
  {
    MergeKeys(a, b, m);
    ConflictsShared(a.(shardToOps := m), x);
    ConflictsShared(a, x);
    ConflictsShared(b, x);
  }

  /** The per-key result `execute` yields: `ExecutorResult::new(rifl, key,
      partial_results)` of this crate version. */
  datatype ExecutorResult = ExecutorResult(rifl: Rifl, key: Key, partialResults: seq<StorageOpResult>)

  /** The store and the per-key results after running, key after key in
      `keys`, the ops the command has on each key of the shard. */
  datatype Outcome = Outcome(store: Contents, results: seq<ExecutorResult>)

  function ExecuteKeys(c: Command, shard: ShardId, s: Contents, kv: bool, keys: seq<Key>): (o: Outcome)
    requires Singletons(s)
    ensures Singletons(o.store) && |o.results| == |keys|
  {
    if keys == [] then Outcome(s, [])
    else
      var prev := ExecuteKeys(c, shard, s, kv, keys[..|keys| - 1]);
      var key := keys[|keys| - 1];
      var ran := Run(prev.store, kv, key, OpsAt(c, shard, key));
      Outcome(ran.store, prev.results + [ExecutorResult(c.rifl, key, ran.results)])
  }

  /** Keys do not interfere: with each key run once, the results for a key
      are those of its ops run on the initial store, and keys outside the
      list are left as they were. So the order the keys are run in does
      not change any result. */
  lemma {:induction false} ExecuteKeysLocal(c: Command, shard: ShardId, s: Contents, kv: bool, keys: seq<Key>)
    requires Singletons(s) && NoDup(keys)
    ensures forall i :: 0 <= i < |keys| ==>
      ExecuteKeys(c, shard, s, kv, keys).results[i]
        == ExecutorResult(c.rifl, keys[i], Run(s, kv, keys[i], OpsAt(c, shard, keys[i])).results)
  {
    if keys != [] {
      var init := keys[..|keys| - 1];
      var key := keys[|keys| - 1];
      assert NoDup(init);
      ExecuteKeysLocal(c, shard, s, kv, init);
      NoDupNotBefore(keys, |keys| - 1);
      ExecuteKeysOthers(c, shard, s, kv, init, key);
      RunLocal(ExecuteKeys(c, shard, s, kv, init).store, s, kv, key, OpsAt(c, shard, key));
    }
  }

  /** Running the keys of `keys` leaves every other key as it was. */
  lemma {:induction false} ExecuteKeysOthers(c: Command, shard: ShardId, s: Contents, kv: bool, keys: seq<Key>, k: Key)
    requires Singletons(s) && k !in keys
    ensures AgreeOn(ExecuteKeys(c, shard, s, kv, keys).store, s, k)
  {
    if keys != [] {
      var init := keys[..|keys| - 1];
      var key := keys[|keys| - 1];
      assert k !in init;
      ExecuteKeysOthers(c, shard, s, kv, init, k);
      RunOtherKeys(ExecuteKeys(c, shard, s, kv, init).store, kv, key, OpsAt(c, shard, key), k);
    }
  }

  /** `execute`: runs the ops of each key of the shard on the store, one
      result per key. `keyOrder` is the order the shard's key map is
      iterated in, which `execute` leaves to the hash map. */
  method Execute(c: Command, shard: ShardId, store: Store, keyOrder: seq<Key>) returns (rs: seq<ExecutorResult>)
    requires store.Valid() && Enumerates(keyOrder, KeysAt(c, shard))
    modifies store
    ensures store.Valid() && (store.monitor.Some? <==> old(store.monitor).Some?)
    ensures Outcome(store.store, rs) == ExecuteKeys(c, shard, old(store.store), store.isKvStorage, keyOrder)
  {
    rs := [];
    for i := 0 to |keyOrder|
      invariant store.Valid() && (store.monitor.Some? <==> old(store.monitor).Some?)
      invariant Outcome(store.store, rs) == ExecuteKeys(c, shard, old(store.store), store.isKvStorage, keyOrder[..i])
    {
      var key := keyOrder[i];
      var partial := store.Execute(key, OpsAt(c, shard, key), c.rifl);
      rs := rs + [ExecutorResult(c.rifl, key, partial)];
      assert keyOrder[..i + 1][..i] == keyOrder[..i];
    }
    assert keyOrder[..|keyOrder|] == keyOrder;
  }

  /** `CommandResult`: the results of a command, key by key. */
  datatype CommandResult = CommandResult(rifl: Rifl, results: map<Key, seq<StorageOpResult>>)

  /** `CommandResultBuilder`: gathers the per-key results of a command that
      accesses `keyCount` keys. */
  class CommandResultBuilder {
    const rifl: Rifl
    const keyCount: nat
    var results: map<Key, seq<StorageOpResult>>

    constructor (rifl: Rifl, keyCount: nat)
      ensures this.rifl == rifl && this.keyCount == keyCount && results == map[]
    {
      this.rifl := rifl;
      this.keyCount := keyCount;
      results := map[];
    }

    /** `add_partial`: a key's results may arrive only once. Each arrival
        brings the builder one key closer to ready. */
    method AddPartial(key: Key, partialResults: seq<StorageOpResult>)
      requires key !in results
      modifies this
      ensures results == old(results)[key := partialResults]
      ensures |results| == |old(results)| + 1
      ensures Ready() <==> |old(results)| + 1 == keyCount
    {
      results := results[key := partialResults];
    }

    /** `ready`: a result for as many keys as the command accesses. */
    predicate Ready()
      reads this
    {
      |results| == keyCount
    }

    /** `CommandResult::from`: only a ready builder converts. */
    function ToCommandResult(): (r: CommandResult)
      reads this
      requires Ready()
      ensures r.rifl == rifl && r.results == results && |r.results| == keyCount
    {
      CommandResult(rifl, results)
    }
  }
}
