/** Dependency computation with multiple records per key: for each key, an
    array of `N` latest read/write records, of which a command touches all
    (reads, puts, deletes) or one chosen at random (adds, subtracts). */
module MultiRecord {
  import opened Ids
  import opened Wrappers
  import opened Storage
  import opened Commands

  /** A dependency: the dot of a command together with the shards it
      accesses, or of a no-op, which accesses none in particular. */
  datatype Dependency = Dependency(dot: Dot, shards: Option<set<ShardId>>)

  /** `Dependency::from_cmd`. */
  function FromCmd(dot: Dot, c: Command): Dependency
  {
    Dependency(dot, Some(c.shardToOps.Keys))
  }

  /** `Dependency::from_noop`. */
  function FromNoop(dot: Dot): Dependency
  {
    Dependency(dot, None)
  }

  /** The number of records per key. */
  const N: nat := 20

  /** `LatestRWDep`: the latest read and the latest write recorded. */
  datatype LatestRWDep = LatestRWDep(read: Option<Dependency>, write: Option<Dependency>)

  /** `LatestRWDepArray`: `n` records. */
  datatype LatestRWDepArray = LatestRWDepArray(data: seq<LatestRWDep>, n: nat)

  const NoRecord := LatestRWDep(None, None)

  /** The default array: `N` records, none of them with a read or a write. */
  function Blank(): LatestRWDepArray
  {
    LatestRWDepArray(seq(N, _ => NoRecord), N)
  }

  /** `LatestRWDepArray::default`, which fills the array in a loop. */
  method DefaultArray() returns (a: LatestRWDepArray)
    ensures a.n == N && |a.data| == N
    ensures forall i :: 0 <= i < N ==> a.data[i].read.None? && a.data[i].write.None?
    ensures a == Blank()
  {
    var data := [];
    for i := 0 to N
      invariant data == seq(i, _ => NoRecord)
    {
      data := data + [NoRecord];
    }
    a := LatestRWDepArray(data, N);
  }

  /** The dependencies a record holds. */
  function Recorded(l: LatestRWDep): set<Dependency>
  {
    (if l.read.Some? then {l.read.value} else {}) + (if l.write.Some? then {l.write.value} else {})
  }

  /** A command recorded as the latest read, when read-only, or as the latest
      write. */
  function Record(l: LatestRWDep, readOnly: bool, dep: Dependency): (r: LatestRWDep)
    ensures readOnly ==> r.read == Some(dep) && r.write == l.write
    ensures !readOnly ==> r.write == Some(dep) && r.read == l.read
    ensures Recorded(r) <= Recorded(l) + {dep}
  {
    if readOnly then l.(read := Some(dep)) else l.(write := Some(dep))
  }

  /** Every array has `N` records. */
  ghost predicate WellSized(latest: map<Key, LatestRWDepArray>)
  {
    forall k :: k in latest ==> |latest[k].data| == N && latest[k].n == N
  }

  /** The array of a key, or the default one for a key not seen yet. */
  function Base(latest: map<Key, LatestRWDepArray>, key: Key): (a: LatestRWDepArray)
    requires WellSized(latest)
    ensures |a.data| == N && a.n == N
  {
    if key in latest then latest[key] else Blank()
  }

  /** The records of `key` at the indices `ns` after the command was recorded
      there; with no index the key is left alone (and not created). */
  function UpdateKey(latest: map<Key, LatestRWDepArray>, key: Key, ns: seq<nat>, readOnly: bool, dep: Dependency)
    : (r: map<Key, LatestRWDepArray>)
    requires WellSized(latest)
    ensures WellSized(r)
  {
    if ns == [] then latest
    else
      var a := Base(latest, key);
      latest[key := LatestRWDepArray(seq(N, i requires 0 <= i < N => if i in ns then Record(a.data[i], readOnly, dep) else a.data[i]), N)]
  }

  /** The record indices an op chooses on a key with no entry yet: one
      random index for an add or a subtract, all of them otherwise. */
  function Chosen(op: StorageOp, pick: nat): (ns: seq<nat>)
    ensures (op.Add? || op.Subtract?) ==> ns == [pick]
    ensures !(op.Add? || op.Subtract?) ==> |ns| == N && forall i :: 0 <= i < N ==> ns[i] == i
  {
    match op
    case Add(_) => [pick]
    case Subtract(_) => [pick]
    case _ => Upto(N)
  }

  /** The indices of a key: those already in `keysDeps`, or those chosen by
      its first op. */
  function IndicesFor(keysDeps: map<Key, seq<nat>>, c: Command, shard: ShardId, pick: Key -> nat, key: Key): seq<nat>
    requires OpsAt(c, shard, key) != []
  {
    if key in keysDeps then keysDeps[key] else Chosen(OpsAt(c, shard, key)[0], pick(key))
  }

  /** The latest records and the chosen indices. */
  datatype Records = Records(latest: map<Key, LatestRWDepArray>, keysDeps: map<Key, seq<nat>>)

  /** The records after the keys in `keys` were handled, one after the other,
      for the command `c` with dependency `dep`. */
  function AfterKeys(latest: map<Key, LatestRWDepArray>, keysDeps: map<Key, seq<nat>>, c: Command, shard: ShardId,
                     pick: Key -> nat, readOnly: bool, dep: Dependency, keys: seq<Key>): (r: Records)
    requires WellSized(latest)
    ensures WellSized(r.latest)
  {
    if keys == [] then Records(latest, keysDeps)
    else
      var prev := AfterKeys(latest, keysDeps, c, shard, pick, readOnly, dep, keys[..|keys| - 1]);
      var key := keys[|keys| - 1];
      if OpsAt(c, shard, key) == [] then prev
      else
        var ns := IndicesFor(prev.keysDeps, c, shard, pick, key);
        Records(UpdateKey(prev.latest, key, ns, readOnly, dep), prev.keysDeps[key := ns])
  }

  /** Handling the keys records the command at every chosen index of each
      key it has ops on, and leaves every other index of that key as it
      was. */
  lemma {:induction false} AfterKeysRecords(latest: map<Key, LatestRWDepArray>, keysDeps: map<Key, seq<nat>>, c: Command,
                                            shard: ShardId, pick: Key -> nat, readOnly: bool, dep: Dependency, keys: seq<Key>,
                                            k: Key)
    requires WellSized(latest) && NoDup(keys) && k in keys && OpsAt(c, shard, k) != []
    ensures var r := AfterKeys(latest, keysDeps, c, shard, pick, readOnly, dep, keys);
      var ns := IndicesFor(keysDeps, c, shard, pick, k);
      && k in r.keysDeps && r.keysDeps[k] == ns
      && (ns != [] ==> k in r.latest)
      && forall i :: 0 <= i < N ==>
           Base(r.latest, k).data[i] == (if i in ns then Record(Base(latest, k).data[i], readOnly, dep) else Base(latest, k).data[i])
  {
    var init, key := keys[..|keys| - 1], keys[|keys| - 1];
    var prev := AfterKeys(latest, keysDeps, c, shard, pick, readOnly, dep, init);
    NoDupNotBefore(keys, |keys| - 1);
    assert keys == init + [key];
    if k == key {
      AfterKeysOthers(latest, keysDeps, c, shard, pick, readOnly, dep, init, key);
      assert Base(prev.latest, key) == Base(latest, key);
      UpdateKeyAt(prev.latest, key, IndicesFor(prev.keysDeps, c, shard, pick, key), readOnly, dep);
    } else {
      assert NoDup(init);
      assert k in init;
      AfterKeysRecords(latest, keysDeps, c, shard, pick, readOnly, dep, init, k);
      if OpsAt(c, shard, key) != [] {
        UpdateKeyOther(prev.latest, key, IndicesFor(prev.keysDeps, c, shard, pick, key), readOnly, dep, k);
      }
    }
  }

  /** A key with ops and at least one chosen index leaves the command
      recorded. */
  lemma RecordedAfterKeys(latest: map<Key, LatestRWDepArray>, keysDeps: map<Key, seq<nat>>, c: Command,
                          shard: ShardId, pick: Key -> nat, readOnly: bool, dep: Dependency, keys: seq<Key>, k: Key)
    requires WellSized(latest) && NoDup(keys) && k in keys && OpsAt(c, shard, k) != []
    requires var ns := IndicesFor(keysDeps, c, shard, pick, k); ns != [] && ns[0] < N
    ensures dep in AllRecorded(AfterKeys(latest, keysDeps, c, shard, pick, readOnly, dep, keys).latest)
  {
    var r := AfterKeys(latest, keysDeps, c, shard, pick, readOnly, dep, keys);
    var n := IndicesFor(keysDeps, c, shard, pick, k)[0];
    AfterKeysRecords(latest, keysDeps, c, shard, pick, readOnly, dep, keys, k);
    assert r.latest[k].data[n] == Record(Base(latest, k).data[n], readOnly, dep);
    assert dep in Recorded(r.latest[k].data[n]);
  }

  /** Keys not in `keys` keep their records and their indices. */
  lemma {:induction false} AfterKeysOthers(latest: map<Key, LatestRWDepArray>, keysDeps: map<Key, seq<nat>>, c: Command,
                                           shard: ShardId, pick: Key -> nat, readOnly: bool, dep: Dependency, keys: seq<Key>, k: Key)
    requires WellSized(latest) && k !in keys
    ensures var r := AfterKeys(latest, keysDeps, c, shard, pick, readOnly, dep, keys);
      && (k in r.latest <==> k in latest) && (k in latest ==> r.latest[k] == latest[k])
      && (k in r.keysDeps <==> k in keysDeps) && (k in keysDeps ==> r.keysDeps[k] == keysDeps[k])
  {
    if keys != [] {
      assert k !in keys[..|keys| - 1];
      AfterKeysOthers(latest, keysDeps, c, shard, pick, readOnly, dep, keys[..|keys| - 1], k);
    }
  }

  /** An index set already given for a key is used as it is; otherwise an
      add or a subtract chooses one random index and any other op all `N`. */
  lemma IndicesForChoice(keysDeps: map<Key, seq<nat>>, c: Command, shard: ShardId, pick: Key -> nat, key: Key)
    requires OpsAt(c, shard, key) != []
    ensures key in keysDeps ==> IndicesFor(keysDeps, c, shard, pick, key) == keysDeps[key]
    ensures key !in keysDeps && (OpsAt(c, shard, key)[0].Add? || OpsAt(c, shard, key)[0].Subtract?) ==>
      IndicesFor(keysDeps, c, shard, pick, key) == [pick(key)]
    ensures key !in keysDeps && !(OpsAt(c, shard, key)[0].Add? || OpsAt(c, shard, key)[0].Subtract?) ==>
      IndicesFor(keysDeps, c, shard, pick, key) == Upto(N)
  {
  }

  /** All the dependencies recorded anywhere. */
  ghost function AllRecorded(latest: map<Key, LatestRWDepArray>): set<Dependency>
  {
    set k, i, d | k in latest && 0 <= i < |latest[k].data| && d in Recorded(latest[k].data[i]) :: d
  }

  /** Every record holds only dependencies from `bound`. */
  ghost predicate RecordsWithin(latest: map<Key, LatestRWDepArray>, bound: set<Dependency>)
  {
    forall k, i :: k in latest && 0 <= i < |latest[k].data| ==> Recorded(latest[k].data[i]) <= bound
  }

  lemma AllRecordedWithin(latest: map<Key, LatestRWDepArray>)
    ensures RecordsWithin(latest, AllRecorded(latest))
  {
    forall k, i | k in latest && 0 <= i < |latest[k].data|
      ensures Recorded(latest[k].data[i]) <= AllRecorded(latest)
    {
      forall d | d in Recorded(latest[k].data[i]) ensures d in AllRecorded(latest) {
      }
    }
  }

  /** `maybe_add_deps` may add to a command's dependencies only what the
      record it is given holds. */
  ghost predicate AddsRecorded(addDeps: (bool, bool, LatestRWDep) -> set<Dependency>)
  {
    forall readOnly, nfr, l :: addDeps(readOnly, nfr, l) <= Recorded(l)
  }

  /** `MultiRecordValues`. `addDeps` is `maybe_add_deps`, which is not part
      of this model: the dependencies a command takes from a record. */
  class MultiRecordValues {
    const shardId: ShardId
    const nfr: bool
    const addDeps: (bool, bool, LatestRWDep) -> set<Dependency>
    var latest: map<Key, LatestRWDepArray>
    var latestNoop: Option<Dependency>

    ghost predicate Valid()
      reads this
    {
      WellSized(latest) && AddsRecorded(addDeps)
    }

    /** `new`: no records and no no-op yet. */
    constructor (shardId: ShardId, nfr: bool, addDeps: (bool, bool, LatestRWDep) -> set<Dependency>)
      requires AddsRecorded(addDeps)
      ensures Valid() && latest == map[] && latestNoop == None
      ensures this.shardId == shardId && this.nfr == nfr && this.addDeps == addDeps
    {
      this.shardId := shardId;
      this.nfr := nfr;
      this.addDeps := addDeps;
      latest := map[];
      latestNoop := None;
    }

    /** The latest no-op, as a set. */
    function NoopDeps(): set<Dependency>
      reads this
    {
      if latestNoop.Some? then {latestNoop.value} else {}
    }

    /** `maybe_add_noop_latest`: the latest no-op, if any, becomes a
        dependency. */
    function MaybeAddNoopLatest(deps: set<Dependency>): (r: set<Dependency>)
      reads this
      ensures forall d :: d in r <==> d in deps || Some(d) == latestNoop
    {
      if latestNoop.Some? then deps + {latestNoop.value} else deps
    }

    /** `add_cmd`: starts from `past`, or from no dependency, and from the
        given indices per key, or from none. `keyOrder` is the iteration
        order of the command's keys on this shard and `pick` the random
        index an add or a subtract chooses for a key. */
    method AddCmd(dot: Dot, c: Command, past: Option<set<Dependency>>, keysDeps: Option<map<Key, seq<nat>>>,
                  keyOrder: seq<Key>, pick: Key -> nat) returns (deps: set<Dependency>, newKeysDeps: map<Key, seq<nat>>)
      requires Valid() && Enumerates(keyOrder, KeysAt(c, shardId))
      requires nfr && Commands.ReadOnly(c) ==> TotalKeyCount(c) == 1
      requires forall k :: pick(k) < N
      requires keysDeps.Some? ==> IndicesBelowN(keysDeps.value, c)
      modifies this
      ensures Valid() && latestNoop == old(latestNoop)
      ensures var start := if keysDeps.Some? then keysDeps.value else map[];
        Records(latest, newKeysDeps)
          == AfterKeys(old(latest), start, c, shardId, pick, Commands.ReadOnly(c), FromCmd(dot, c), keyOrder)
      ensures var start := if past.Some? then past.value else {};
        start + NoopDeps() <= deps <= start + NoopDeps() + AllRecorded(old(latest)) + {FromCmd(dot, c)}
    {
      var start := if past.Some? then past.value else {};
      var kd := if keysDeps.Some? then keysDeps.value else map[];
      deps, newKeysDeps := DoAddCmd(dot, c, start, kd, keyOrder, pick);
    }

    /** The given indices of the command's keys are all below `N`, as
        `do_add_cmd`'s indexing of the record arrays demands. */
    ghost predicate IndicesBelowN(keysDeps: map<Key, seq<nat>>, c: Command)
    {
      forall k, i :: k in keysDeps && k in KeysAt(c, shardId) && 0 <= i < |keysDeps[k]| ==> keysDeps[k][i] < N
    }

    /** `do_add_cmd`: for every op of every key, takes the key's indices
        (choosing them on its first op when `keysDeps` has none), then at
        each index takes the dependencies the record gives and records the
        command there; finally adds the latest no-op. */
    method DoAddCmd(dot: Dot, c: Command, deps0: set<Dependency>, keysDeps: map<Key, seq<nat>>,
                    keyOrder: seq<Key>, pick: Key -> nat) returns (deps: set<Dependency>, newKeysDeps: map<Key, seq<nat>>)
      requires Valid() && Enumerates(keyOrder, KeysAt(c, shardId))
      requires nfr && Commands.ReadOnly(c) ==> TotalKeyCount(c) == 1
      requires forall k :: pick(k) < N
      requires IndicesBelowN(keysDeps, c)
      modifies this
      ensures Valid() && latestNoop == old(latestNoop)
      ensures Records(latest, newKeysDeps)
        == AfterKeys(old(latest), keysDeps, c, shardId, pick, Commands.ReadOnly(c), FromCmd(dot, c), keyOrder)
      ensures deps0 + NoopDeps() <= deps <= deps0 + NoopDeps() + AllRecorded(old(latest)) + {FromCmd(dot, c)}
    {
      var readOnly := Commands.ReadOnly(c);
      var dep := FromCmd(dot, c);
      ghost var bound := AllRecorded(latest) + {dep};
      AllRecordedWithin(latest);
      deps := deps0;
      newKeysDeps := keysDeps;
      for i := 0 to |keyOrder|
        invariant Valid() && latestNoop == old(latestNoop)
        invariant Records(latest, newKeysDeps)
          == AfterKeys(old(latest), keysDeps, c, shardId, pick, readOnly, dep, keyOrder[..i])
        invariant RecordsWithin(latest, bound)
        invariant deps0 <= deps <= deps0 + bound
        invariant IndicesBelowN(newKeysDeps, c)
      {
        var key := keyOrder[i];
        assert key in KeysAt(c, shardId);
        deps, newKeysDeps := AddKey(key, c, readOnly, dep, deps, newKeysDeps, pick, bound);
        assert keyOrder[..i + 1][..i] == keyOrder[..i];
      }
      assert keyOrder[..|keyOrder|] == keyOrder;
      deps := MaybeAddNoopLatest(deps);
    }

    /** The ops of one key. */
    method AddKey(key: Key, c: Command, readOnly: bool, dep: Dependency, deps0: set<Dependency>,
                  keysDeps: map<Key, seq<nat>>, pick: Key -> nat, ghost bound: set<Dependency>)
      returns (deps: set<Dependency>, newKeysDeps: map<Key, seq<nat>>)
      requires Valid() && key in KeysAt(c, shardId) && IndicesBelowN(keysDeps, c)
      requires forall k :: pick(k) < N
      requires RecordsWithin(latest, bound) && dep in bound
      modifies this
      ensures Valid() && latestNoop == old(latestNoop)
      ensures OpsAt(c, shardId, key) == [] ==> latest == old(latest) && newKeysDeps == keysDeps
      ensures OpsAt(c, shardId, key) != [] ==>
        var ns := IndicesFor(keysDeps, c, shardId, pick, key);
        latest == UpdateKey(old(latest), key, ns, readOnly, dep) && newKeysDeps == keysDeps[key := ns]
      ensures RecordsWithin(latest, bound) && IndicesBelowN(newKeysDeps, c)
      ensures deps0 <= deps <= deps0 + bound
    {
      var ops := OpsAt(c, shardId, key);
      deps := deps0;
      newKeysDeps := keysDeps;
      ghost var start := latest;
      for j := 0 to |ops|
        invariant Valid() && latestNoop == old(latestNoop)
        invariant j == 0 ==> latest == start && newKeysDeps == keysDeps
        invariant j > 0 ==>
          var ns := IndicesFor(keysDeps, c, shardId, pick, key);
          latest == UpdateKey(start, key, ns, readOnly, dep) && newKeysDeps == keysDeps[key := ns]
        invariant RecordsWithin(latest, bound) && IndicesBelowN(newKeysDeps, c)
        invariant deps0 <= deps <= deps0 + bound
      {
        var ns;
        if key in newKeysDeps {
          ns := newKeysDeps[key];
        } else {
          ns := Chosen(ops[j], pick(key));
          newKeysDeps := newKeysDeps[key := ns];
        }
        ghost var before := latest;
        deps := AddIndices(key, ns, readOnly, dep, deps, bound);
        if j > 0 {
          UpdateKeyTwice(start, key, ns, readOnly, dep);
        }
      }
    }

    /** The indices of one op: at each, the record gives its dependencies
        and then records the command. */
    method AddIndices(key: Key, ns: seq<nat>, readOnly: bool, dep: Dependency, deps0: set<Dependency>,
                      ghost bound: set<Dependency>) returns (deps: set<Dependency>)
      requires Valid() && forall i :: 0 <= i < |ns| ==> ns[i] < N
      requires RecordsWithin(latest, bound) && dep in bound
      modifies this
      ensures Valid() && latestNoop == old(latestNoop)
      ensures latest == UpdateKey(old(latest), key, ns, readOnly, dep)
      ensures RecordsWithin(latest, bound)
      ensures deps0 <= deps <= deps0 + bound
    {
      deps := deps0;
      for m := 0 to |ns|
        invariant Valid() && latestNoop == old(latestNoop)
        invariant latest == UpdateKey(old(latest), key, ns[..m], readOnly, dep)
        invariant RecordsWithin(latest, bound)
        invariant deps0 <= deps <= deps0 + bound
      {
        SlotWithin(latest, key, ns[m], readOnly, dep, bound);
        deps := AddAt(key, ns[m], readOnly, dep, deps, bound);
        UpdateKeySnoc(old(latest), key, ns[..m], ns[m], readOnly, dep);
        assert ns[..m + 1] == ns[..m] + [ns[m]];
      }
      assert ns[..|ns|] == ns;
    }

    /** One index: the record there, created with the key's default array
        when the key has none, gives its dependencies and then records the
        command. */
    method AddAt(key: Key, n: nat, readOnly: bool, dep: Dependency, deps0: set<Dependency>,
                 ghost bound: set<Dependency>) returns (deps: set<Dependency>)
      requires Valid() && n < N
      requires RecordsWithin(latest, bound) && dep in bound
      modifies this
      ensures Valid() && latestNoop == old(latestNoop)
      ensures latest == Slot(old(latest), key, n, readOnly, dep)
      ensures RecordsWithin(latest, bound)
      ensures deps0 <= deps <= deps0 + Recorded(Base(old(latest), key).data[n])
    {
      if key !in latest {
        var blank := DefaultArray();
        latest := latest[key := blank];
      }
      var entry := latest[key].data[n];
      deps := deps0 + addDeps(readOnly, nfr, entry);
      latest := latest[key := LatestRWDepArray(latest[key].data[n := Record(entry, readOnly, dep)], N)];
      SlotWithin(old(latest), key, n, readOnly, dep, bound);
    }

    /** `do_noop_deps`: every dependency recorded, for any key at any
        index, joins `deps`. */
    method DoNoopDeps(deps0: set<Dependency>) returns (deps: set<Dependency>)
      requires Valid()
      ensures deps == deps0 + AllRecorded(latest)
    {
      deps := deps0;
      var pending := latest.Keys;
      while pending != {}
        invariant pending <= latest.Keys
        invariant deps == deps0 + RecordedAt(latest, latest.Keys - pending)
        decreases pending
      {
        var k :| k in pending;
        var data := latest[k].data;
        ghost var before := deps;
        for i := 0 to |data|
          invariant deps == before + RecordedUpTo(data, i)
        {
          if data[i].read.Some? {
            deps := deps + {data[i].read.value};
          }
          if data[i].write.Some? {
            deps := deps + {data[i].write.value};
          }
          RecordedUpToSnoc(data, i);
        }
        RecordedAtAdd(latest, latest.Keys - pending, k);
        pending := pending - {k};
      }
      RecordedAtAll(latest);
    }

    /** `do_add_noop`: the no-op becomes the latest no-op, the one it
        replaces becomes a dependency, and so does everything recorded. */
    method DoAddNoop(dot: Dot, deps0: set<Dependency>) returns (deps: set<Dependency>)
      requires Valid()
      modifies this
      ensures Valid() && latest == old(latest)
      ensures latestNoop == Some(FromNoop(dot))
      ensures deps == deps0 + old(NoopDeps()) + AllRecorded(latest)
    {
      var previous := latestNoop;
      latestNoop := Some(FromNoop(dot));
      deps := deps0;
      if previous.Some? {
        deps := deps + {previous.value};
      }
      deps := DoNoopDeps(deps);
    }

    /** `add_noop`: `do_add_noop` from no dependency. */
    method AddNoop(dot: Dot) returns (deps: set<Dependency>)
      requires Valid()
      modifies this
      ensures Valid() && latest == old(latest)
      ensures latestNoop == Some(FromNoop(dot))
      ensures deps == old(NoopDeps()) + AllRecorded(latest)
    {
      deps := DoAddNoop(dot, {});
    }
  }

  /** The dependencies recorded in the first `i` records. */
  ghost function RecordedUpTo(data: seq<LatestRWDep>, i: nat): set<Dependency>
    requires i <= |data|
  {
    set j, d | 0 <= j < i && d in Recorded(data[j]) :: d
  }

  /** The dependencies recorded for the keys in `ks`. */
  ghost function RecordedAt(latest: map<Key, LatestRWDepArray>, ks: set<Key>): set<Dependency>
  {
    set k, i, d | k in ks && k in latest && 0 <= i < |latest[k].data| && d in Recorded(latest[k].data[i]) :: d
  }

  lemma RecordedUpToSnoc(data: seq<LatestRWDep>, i: nat)
    requires i < |data|
    ensures RecordedUpTo(data, i + 1) == RecordedUpTo(data, i) + Recorded(data[i])
  {
    forall d | d in Recorded(data[i]) ensures d in RecordedUpTo(data, i + 1) {
    }
  }

  lemma RecordedAtAdd(latest: map<Key, LatestRWDepArray>, ks: set<Key>, k: Key)
    requires k in latest
    ensures RecordedAt(latest, ks + {k}) == RecordedAt(latest, ks) + RecordedUpTo(latest[k].data, |latest[k].data|)
  {
  }

  lemma RecordedAtAll(latest: map<Key, LatestRWDepArray>)
    ensures RecordedAt(latest, latest.Keys) == AllRecorded(latest)
  {
  }

  /** The records of `key` after recording at `ns`. */
  lemma UpdateKeyAt(latest: map<Key, LatestRWDepArray>, key: Key, ns: seq<nat>, readOnly: bool, dep: Dependency)
    requires WellSized(latest)
    ensures ns != [] ==> key in UpdateKey(latest, key, ns, readOnly, dep)
    ensures forall i :: 0 <= i < N ==>
      Base(UpdateKey(latest, key, ns, readOnly, dep), key).data[i]
        == (if i in ns then Record(Base(latest, key).data[i], readOnly, dep) else Base(latest, key).data[i])
  {
  }

  /** Recording at `key` leaves every other key alone. */
  lemma UpdateKeyOther(latest: map<Key, LatestRWDepArray>, key: Key, ns: seq<nat>, readOnly: bool, dep: Dependency, k: Key)
    requires WellSized(latest) && k != key
    ensures var r := UpdateKey(latest, key, ns, readOnly, dep);
      (k in r <==> k in latest) && Base(r, k) == Base(latest, k)
  {
  }

  /** Recording the command again at the same indices changes nothing. */
  lemma UpdateKeyTwice(latest: map<Key, LatestRWDepArray>, key: Key, ns: seq<nat>, readOnly: bool, dep: Dependency)
    requires WellSized(latest)
    ensures UpdateKey(UpdateKey(latest, key, ns, readOnly, dep), key, ns, readOnly, dep) == UpdateKey(latest, key, ns, readOnly, dep)
  {
    if ns != [] {
      var once := UpdateKey(latest, key, ns, readOnly, dep);
      assert Base(once, key).data == seq(N, i requires 0 <= i < N => if i in ns then Record(Base(latest, key).data[i], readOnly, dep) else Base(latest, key).data[i]);
      assert UpdateKey(once, key, ns, readOnly, dep)[key] == once[key];
    }
  }

  /** The records after recording the command at index `n` of `key`. */
  function Slot(latest: map<Key, LatestRWDepArray>, key: Key, n: nat, readOnly: bool, dep: Dependency)
    : (r: map<Key, LatestRWDepArray>)
    requires WellSized(latest) && n < N
    ensures WellSized(r) && key in r
  {
    var a := Base(latest, key);
    latest[key := LatestRWDepArray(a.data[n := Record(a.data[n], readOnly, dep)], N)]
  }

  /** Recording the command keeps every record within a bound that holds
      it. */
  lemma SlotWithin(latest: map<Key, LatestRWDepArray>, key: Key, n: nat, readOnly: bool, dep: Dependency,
                   bound: set<Dependency>)
    requires WellSized(latest) && n < N && RecordsWithin(latest, bound) && dep in bound
    ensures RecordsWithin(Slot(latest, key, n, readOnly, dep), bound)
    ensures Recorded(Base(latest, key).data[n]) <= bound
  {
    var r := Slot(latest, key, n, readOnly, dep);
    forall k, i | k in r && 0 <= i < |r[k].data|
      ensures Recorded(r[k].data[i]) <= bound
    {
      if k == key && i != n {
        if key !in latest {
          assert Base(latest, key) == Blank();
        }
      }
    }
    if key !in latest {
      assert Base(latest, key) == Blank();
    }
  }

  /** Recording at one more index. */
  lemma UpdateKeySnoc(latest: map<Key, LatestRWDepArray>, key: Key, ns: seq<nat>, n: nat, readOnly: bool, dep: Dependency)
    requires WellSized(latest) && n < N
    ensures UpdateKey(latest, key, ns + [n], readOnly, dep) == Slot(UpdateKey(latest, key, ns, readOnly, dep), key, n, readOnly, dep)
  {
    var before := UpdateKey(latest, key, ns, readOnly, dep);
    var a := Base(before, key);
    var b := Base(latest, key);
    var after := UpdateKey(latest, key, ns + [n], readOnly, dep);
    forall i | 0 <= i < N
      ensures after[key].data[i] == a.data[n := Record(a.data[n], readOnly, dep)][i]
    {
      if i == n {
      } else {
        assert i in ns + [n] <==> i in ns;
      }
    }
    assert after[key].data == a.data[n := Record(a.data[n], readOnly, dep)];
  }

  /** A command, then a no-op, on a fresh record set: the command has no
      dependency but the ones its own records give, and the no-op depends
      on the command as soon as the command has an op on this shard. */
  method CmdThenNoop(shardId: ShardId, nfr: bool, addDeps: (bool, bool, LatestRWDep) -> set<Dependency>,
                     dot: Dot, c: Command, keyOrder: seq<Key>, pick: Key -> nat, key: Key, noop: Dot)
    returns (cmdDeps: set<Dependency>, noopDeps: set<Dependency>)
    requires AddsRecorded(addDeps) && Enumerates(keyOrder, KeysAt(c, shardId))
    requires nfr && Commands.ReadOnly(c) ==> TotalKeyCount(c) == 1
    requires forall k :: pick(k) < N
    requires key in KeysAt(c, shardId) && OpsAt(c, shardId, key) != []
    ensures cmdDeps <= {FromCmd(dot, c)}
    ensures FromCmd(dot, c) in noopDeps
  {
    var records := new MultiRecordValues(shardId, nfr, addDeps);
    var keysDeps;
    cmdDeps, keysDeps := records.AddCmd(dot, c, None, None, keyOrder, pick);
    noopDeps := records.AddNoop(noop);
    RecordedAfterKeys(map[], map[], c, shardId, pick, Commands.ReadOnly(c), FromCmd(dot, c), keyOrder, key);
  }

  /** A no-op, then a command: the command depends on the no-op. */
  method NoopThenCmd(shardId: ShardId, nfr: bool, addDeps: (bool, bool, LatestRWDep) -> set<Dependency>,
                     noop: Dot, dot: Dot, c: Command, keyOrder: seq<Key>, pick: Key -> nat)
    returns (noopDeps: set<Dependency>, cmdDeps: set<Dependency>)
    requires AddsRecorded(addDeps) && Enumerates(keyOrder, KeysAt(c, shardId))
    requires nfr && Commands.ReadOnly(c) ==> TotalKeyCount(c) == 1
    requires forall k :: pick(k) < N
    ensures noopDeps == {}
    ensures FromNoop(noop) in cmdDeps
  {
    var records := new MultiRecordValues(shardId, nfr, addDeps);
    noopDeps := records.AddNoop(noop);
    var keysDeps;
    cmdDeps, keysDeps := records.AddCmd(dot, c, None, None, keyOrder, pick);
  }
}
