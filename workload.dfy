/** A client's workload (fantoch/src/client/workload.rs): how many commands
    it issues and how each one is generated. The key generator's draws,
    the read-only coin, the payload characters and `key_hash` are random or
    not part of this model, so they are parameters. */
module Workloads {
  import opened Ids
  import opened Wrappers

  /** `KeyGen`: only the conflict-pool generator is checked by `new`; the
      other generators are not part of this model. */
  datatype KeyGen = ConflictPool(conflictRate: nat, poolSize: nat) | OtherKeyGen

  /** `KVOp` of the key-value store this workload targets. */
  datatype KVOp = Get | Put(payload: string)

  /** The command `gen_cmd` builds: its identifier and, per shard, the op
      on each key. */
  datatype WorkloadCommand = WorkloadCommand(rifl: Rifl, ops: map<ShardId, map<Key, KVOp>>)

  /** The checks `new` makes before accepting a workload. */
  predicate Accepted(keyGen: KeyGen, keysPerCommand: nat)
  {
    match keyGen
    case ConflictPool(conflictRate, poolSize) =>
      if conflictRate > 100 then false
      else if poolSize < 1 then false
      else if conflictRate == 100 && keysPerCommand > 1 then false
      else if keysPerCommand > 2 then false
      else true
    case OtherKeyGen => true
  }

  /** A conflict-pool workload is accepted exactly when its rate is a
      percentage, its pool is not empty, and it asks for at most two keys,
      or at most one when every command conflicts. */
  lemma AcceptedIff(keyGen: KeyGen, keysPerCommand: nat)
    ensures keyGen.ConflictPool? ==>
      (Accepted(keyGen, keysPerCommand) <==>
        keyGen.conflictRate <= 100 && 1 <= keyGen.poolSize &&
        keysPerCommand <= (if keyGen.conflictRate == 100 then 1 else 2))
    ensures keyGen.OtherKeyGen? ==> Accepted(keyGen, keysPerCommand)
  {
  }

  /** The distinct elements of `xs`, each at its first occurrence. */
  function Distinct<T(==)>(xs: seq<T>): seq<T>
    decreases |xs|
  {
    if xs == [] then []
    else
      var init, x := xs[..|xs| - 1], xs[|xs| - 1];
      if x in Distinct(init) then Distinct(init) else Distinct(init) + [x]
  }

  /** They are the elements of `xs`, once each. */
  lemma {:induction false} DistinctFacts<T(!new)>(xs: seq<T>)
    ensures forall x :: x in Distinct(xs) <==> x in xs
    ensures NoDup(Distinct(xs))
    ensures |Distinct(xs)| == |Elements(xs)|
    decreases |xs|
  {
    if xs != [] {
      var init, x := xs[..|xs| - 1], xs[|xs| - 1];
      DistinctFacts(init);
      assert xs == init + [x];
    }
    NoDupCard(Distinct(xs));
    assert Elements(Distinct(xs)) == Elements(xs);
  }

  /** A prefix with fewer distinct elements than the whole is not the
      whole. */
  lemma DistinctShort<T(!new)>(xs: seq<T>, n: nat)
    requires n <= |xs| && |Distinct(xs[..n])| < |Elements(xs)|
    ensures n < |xs|
  {
    if n == |xs| {
      assert xs[..n] == xs;
      DistinctFacts(xs);
    }
  }

  /** The op generated for one key. */
  function OpFor(readOnly: bool, payload: string): (op: KVOp)
  {
    if readOnly then Get else Put(payload)
  }

  class Workload {
    const shardCount: nat
    const keyGen: KeyGen
    const keysPerCommand: nat
    const commandsPerClient: nat
    var readOnlyPercentage: nat
    const payloadSize: nat
    var commandCount: nat

    /** The count never passes the total, and the read-only share is a
        percentage. */
    ghost predicate Valid()
      reads this
    {
      commandCount <= commandsPerClient && readOnlyPercentage <= 100
    }

    /** `new`: panics on a rejected workload; starts with no command
        issued and no read-only command. */
    constructor (shardCount: nat, keyGen: KeyGen, keysPerCommand: nat, commandsPerClient: nat, payloadSize: nat)
      requires Accepted(keyGen, keysPerCommand)
      ensures Valid()
      ensures this.shardCount == shardCount && this.keyGen == keyGen && this.keysPerCommand == keysPerCommand
      ensures this.commandsPerClient == commandsPerClient && this.payloadSize == payloadSize
      ensures readOnlyPercentage == 0 && commandCount == 0
    {
      this.shardCount := shardCount;
      this.keyGen := keyGen;
      this.keysPerCommand := keysPerCommand;
      this.commandsPerClient := commandsPerClient;
      this.payloadSize := payloadSize;
      readOnlyPercentage := 0;
      commandCount := 0;
    }

    /** `set_read_only_percentage`: panics above 100. */
    method SetReadOnlyPercentage(p: nat)
      requires Valid()
      requires p <= 100
      modifies this
      ensures Valid()
      ensures readOnlyPercentage == p && commandCount == old(commandCount)
    {
      readOnlyPercentage := p;
    }

    /** `issued_commands`. */
    function IssuedCommands(): nat
      reads this
    {
      commandCount
    }

    /** `finished`. */
    predicate Finished()
      reads this
    {
      commandCount == commandsPerClient
    }

    /** A valid workload is finished exactly when it may issue no more. */
    lemma FinishedIff()
      requires Valid()
      ensures Finished() <==> !(IssuedCommands() < commandsPerClient)
    {
    }

    /** `shard_id`: the key's hash modulo the shard count (which panics
        when there are no shards). */
    function ShardOf(hash: Key -> nat, key: Key): (s: ShardId)
      requires 1 <= shardCount
      ensures s < shardCount
    {
      hash(key) % shardCount
    }

    /** What generating a command needs from the random sources: enough
        distinct keys in the key stream, a text per key with at least a
        payload's worth of characters, and at least one shard and one key
        (otherwise `gen_cmd` panics). */
    predicate CanGenerate(stream: seq<Key>, texts: seq<string>)
    {
      1 <= shardCount && 1 <= keysPerCommand <= |Elements(stream)| && TextsFor(keysPerCommand, texts)
    }

    /** `gen_unique_keys`: draws keys from `stream` until `keysPerCommand`
        distinct ones are found, and returns them in draw order. */
    method GenUniqueKeys(stream: seq<Key>) returns (keys: seq<Key>, used: nat)
      requires keysPerCommand <= |Elements(stream)|
      ensures used <= |stream| && keys == Distinct(stream[..used])
      ensures |keys| == keysPerCommand && NoDup(keys)
      ensures used == 0 || |Distinct(stream[..used - 1])| < keysPerCommand
    {
      keys := [];
      used := 0;
      while |keys| != keysPerCommand
        invariant used <= |stream| && keys == Distinct(stream[..used])
        invariant |keys| <= keysPerCommand
        invariant used == 0 || |Distinct(stream[..used - 1])| < keysPerCommand
        decreases |stream| - used
      {
        DistinctFacts(stream[..used]);
        DistinctShort(stream, used);
        var key := stream[used];
        assert stream[..used + 1][..used] == stream[..used];
        if key !in keys {
          keys := keys + [key];
        }
        used := used + 1;
      }
      DistinctFacts(stream[..used]);
    }

    /** The random texts can pay for `count` payloads. */
    predicate TextsFor(count: nat, texts: seq<string>)
    {
      count <= |texts| && forall i :: 0 <= i < |texts| ==> payloadSize <= |texts[i]|
    }

    /** The ops of `keys`, laid out as `gen_cmd` does: each key holds,
        under its own shard, a `Get` when the command is read-only and
        otherwise a `Put` of the first `payloadSize` characters of its
        text; every shard is below the shard count, and nothing else is
        there. */
    predicate LaidOut(keys: seq<Key>, texts: seq<string>, readOnly: bool, hash: Key -> nat,
                      ops: map<ShardId, map<Key, KVOp>>)
      requires 1 <= shardCount && TextsFor(|keys|, texts)
    {
      (forall s :: s in ops ==> s < shardCount) &&
      (forall j :: 0 <= j < |keys| ==>
        ShardOf(hash, keys[j]) in ops && keys[j] in ops[ShardOf(hash, keys[j])] &&
        ops[ShardOf(hash, keys[j])][keys[j]] == OpFor(readOnly, texts[j][..payloadSize])) &&
      (forall s, key :: s in ops && key in ops[s] ==> key in keys && s == ShardOf(hash, key))
    }

    /** `ops.entry(s).or_default().insert(key, op)`. */
    static function AddOp(ops: map<ShardId, map<Key, KVOp>>, s: ShardId, key: Key, op: KVOp): (r: map<ShardId, map<Key, KVOp>>)
      ensures r.Keys == ops.Keys + {s} && key in r[s] && r[s][key] == op
      ensures forall t, k :: t in r && k in r[t] ==> (t, k) == (s, key) || (t in ops && k in ops[t] && r[t][k] == ops[t][k])
      ensures forall t, k :: t in ops && k in ops[t] && (t, k) != (s, key) ==> k in r[t] && r[t][k] == ops[t][k]
    {
      ops[s := (if s in ops then ops[s] else map[])[key := op]]
    }

    /** Laying out one more, new, key keeps the layout. */
    lemma LaidOutSnoc(keys: seq<Key>, key: Key, texts: seq<string>, readOnly: bool, hash: Key -> nat,
                      ops: map<ShardId, map<Key, KVOp>>)
      requires 1 <= shardCount && TextsFor(|keys| + 1, texts)
      requires LaidOut(keys, texts, readOnly, hash, ops) && key !in keys
      ensures LaidOut(keys + [key], texts, readOnly, hash,
                      AddOp(ops, ShardOf(hash, key), key, OpFor(readOnly, texts[|keys|][..payloadSize])))
    {
      var keys' := keys + [key];
      assert forall j :: 0 <= j < |keys| ==> keys'[j] == keys[j] && keys[j] != key;
    }

    /** A command `gen_cmd` builds over `keys`: it carries `rifl`,
        targets the first key's shard, and its ops are laid out. */
    predicate Placed(keys: seq<Key>, texts: seq<string>, readOnly: bool, hash: Key -> nat,
                     rifl: Rifl, target: ShardId, cmd: WorkloadCommand)
    {
      1 <= shardCount && 1 <= |keys| && TextsFor(|keys|, texts) &&
      cmd.rifl == rifl && target == ShardOf(hash, keys[0]) &&
      LaidOut(keys, texts, readOnly, hash, cmd.ops)
    }

    /** The loop of `gen_cmd`: files each key's op under its shard and
        remembers the first key's shard as the target. */
    method LayOut(keys: seq<Key>, texts: seq<string>, readOnly: bool, hash: Key -> nat)
      returns (ops: map<ShardId, map<Key, KVOp>>, target: ShardId)
      requires 1 <= shardCount && 1 <= |keys| && NoDup(keys) && TextsFor(|keys|, texts)
      ensures target == ShardOf(hash, keys[0])
      ensures LaidOut(keys, texts, readOnly, hash, ops)
    {
      ops := map[];
      var first: Option<ShardId> := None;
      for i := 0 to |keys|
        invariant first == if i == 0 then None else Some(ShardOf(hash, keys[0]))
        invariant LaidOut(keys[..i], texts, readOnly, hash, ops)
      {
        var key := keys[i];
        var s := ShardOf(hash, key);
        NoDupNotBefore(keys, i);
        LaidOutSnoc(keys[..i], key, texts, readOnly, hash, ops);
        ops := AddOp(ops, s, key, OpFor(readOnly, texts[i][..payloadSize]));
        assert keys[..i + 1] == keys[..i] + [key];
        if first.None? {
          first := Some(s);
        }
      }
      target := first.value;
      assert keys[..|keys|] == keys;
    }

    /** `gen_cmd`: draws the keys and lays the command out over them. */
    method GenCmd(rifl: Rifl, stream: seq<Key>, readOnly: bool, texts: seq<string>, hash: Key -> nat)
      returns (target: ShardId, cmd: WorkloadCommand, ghost keys: seq<Key>, ghost used: nat)
      requires CanGenerate(stream, texts)
      ensures used <= |stream| && keys == Distinct(stream[..used])
      ensures |keys| == keysPerCommand && NoDup(keys)
      ensures Placed(keys, texts, readOnly, hash, rifl, target, cmd)
      ensures cmd.rifl == rifl && target < shardCount && target in cmd.ops
      ensures forall s, key :: s in cmd.ops && key in cmd.ops[s] ==> key in stream && s == ShardOf(hash, key)
    {
      var drawn, n := GenUniqueKeys(stream);
      keys, used := drawn, n;
      var ops;
      ops, target := LayOut(drawn, texts, readOnly, hash);
      cmd := WorkloadCommand(rifl, ops);
      DistinctFacts(stream[..n]);
      forall s, key | s in cmd.ops && key in cmd.ops[s]
        ensures key in stream && s == ShardOf(hash, key)
      {
        assert key in stream[..n];
      }
    }

    /** `next_cmd`: a new command while fewer than `commandsPerClient` have
        been issued, counting it; after that, nothing, and nothing
        changes. */
    method NextCmd(rifl: Rifl, stream: seq<Key>, readOnly: bool, texts: seq<string>, hash: Key -> nat)
      returns (r: Option<(ShardId, WorkloadCommand)>, ghost keys: seq<Key>, ghost used: nat)
      requires Valid()
      requires commandCount < commandsPerClient ==> CanGenerate(stream, texts)
      modifies this
      ensures Valid()
      ensures r.Some? <==> old(commandCount) < commandsPerClient
      ensures r.None? <==> old(Finished())
      ensures commandCount == if r.Some? then old(commandCount) + 1 else old(commandCount)
      ensures readOnlyPercentage == old(readOnlyPercentage)
      ensures r.Some? ==> used <= |stream| && keys == Distinct(stream[..used]) && |keys| == keysPerCommand
      ensures r.Some? ==> Placed(keys, texts, readOnly, hash, rifl, r.value.0, r.value.1)
    {
      keys, used := [], 0;
      if commandCount < commandsPerClient {
        commandCount := commandCount + 1;
        var target, cmd;
        target, cmd, keys, used := GenCmd(rifl, stream, readOnly, texts, hash);
        r := Some((target, cmd));
      } else {
        r := None;
      }
    }
  }

  /** A single-shard, single-key workload of `total` writes: every call up
      to the total gives a `Put` of `payloadSize` characters on the drawn
      key of shard 0 and counts it; then the workload is finished and the
      next ten calls give nothing. */
  method IssueAll(total: nat, payloadSize: nat, key: Key, text: string, hash: Key -> nat)
    returns (cmds: seq<(ShardId, WorkloadCommand)>, after: seq<Option<(ShardId, WorkloadCommand)>>)
    requires payloadSize <= |text|
    ensures |cmds| == total
    ensures forall i :: 0 <= i < total ==>
      cmds[i].0 == 0 && 0 in cmds[i].1.ops && key in cmds[i].1.ops[0] &&
      cmds[i].1.ops[0][key] == Put(text[..payloadSize]) && |cmds[i].1.ops[0][key].payload| == payloadSize
    ensures |after| == 10 && forall i :: 0 <= i < 10 ==> after[i].None?
  {
    var w := new Workload(1, ConflictPool(100, 1), 1, total, payloadSize);
    assert Elements([key]) == {key};
    cmds := [];
    for i := 0 to total
      invariant w.Valid() && w.IssuedCommands() == i && w.readOnlyPercentage == 0
      invariant |cmds| == i
      invariant forall j :: 0 <= j < i ==>
        cmds[j].0 == 0 && 0 in cmds[j].1.ops && key in cmds[j].1.ops[0] &&
        cmds[j].1.ops[0][key] == Put(text[..payloadSize]) && |cmds[j].1.ops[0][key].payload| == payloadSize
    {
      var r, keys, used := w.NextCmd(Rifl(1, i + 1), [key], false, [text], hash);
      DistinctFacts([key][..used]);
      assert keys[0] in [key][..used];
      assert keys[0] == key;
      cmds := cmds + [r.value];
    }
    assert w.Finished();
    after := [];
    for i := 0 to 10
      invariant w.Valid() && w.Finished()
      invariant |after| == i && forall j :: 0 <= j < i ==> after[j].None?
    {
      var r, keys, used := w.NextCmd(Rifl(1, total + i + 1), [key], false, [text], hash);
      after := after + [r];
    }
  }
}
