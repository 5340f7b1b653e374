/** `SequentialKeyClocks`: a vector clock per key, holding the dots of the
    commands that accessed it, and one for no-ops. A command's clock joins
    the no-op clock with the clocks of its keys; a no-op's joins them all. */
module SequentialClocks {
  import opened Ids
  import opened Wrappers
  import opened VectorClocks
  import opened KeyedCommand

  /** The keys whose clocks a command joins: its own keys, or every key for
      a no-op (`None`). */
  function ConflictSet(cmd: Option<Command>, clocks: map<Key, VClock>): set<Key>
  {
    if cmd.Some? then cmd.value.keys else clocks.Keys
  }

  /** `acc` joined with the clock of each key of `keys` that has one, in
      order. */
  function JoinKeys(acc: VClock, clocks: map<Key, VClock>, keys: seq<Key>): VClock
    decreases |keys|
  {
    if keys == [] then acc
    else
      var prev := JoinKeys(acc, clocks, keys[..|keys| - 1]);
      var k := keys[|keys| - 1];
      if k in clocks then Join(prev, clocks[k]) else prev
  }

  /** The join has seen `acc` and the clock of every key. */
  lemma {:induction false} JoinKeysUpper(acc: VClock, clocks: map<Key, VClock>, keys: seq<Key>)
    ensures Leq(acc, JoinKeys(acc, clocks, keys))
    ensures forall k :: k in keys && k in clocks ==> Leq(clocks[k], JoinKeys(acc, clocks, keys))
    decreases |keys|
  {
    if keys != [] {
      var init, k := keys[..|keys| - 1], keys[|keys| - 1];
      JoinKeysUpper(acc, clocks, init);
      assert forall j :: j in keys ==> j in init || j == k;
      JoinLeast(JoinKeys(acc, clocks, init), if k in clocks then clocks[k] else acc, acc);
    }
  }

  /** Nothing more: any clock that has seen `acc` and the clocks of the keys
      has seen their join. */
  lemma {:induction false} JoinKeysLeast(acc: VClock, clocks: map<Key, VClock>, keys: seq<Key>, c: VClock)
    requires Leq(acc, c)
    requires forall k :: k in keys && k in clocks ==> Leq(clocks[k], c)
    ensures Leq(JoinKeys(acc, clocks, keys), c)
    decreases |keys|
  {
    if keys != [] {
      var k := keys[|keys| - 1];
      assert forall j :: j in keys[..|keys| - 1] ==> j in keys;
      JoinKeysLeast(acc, clocks, keys[..|keys| - 1], c);
      JoinLeast(JoinKeys(acc, clocks, keys[..|keys| - 1]), if k in clocks then clocks[k] else acc, c);
    }
  }

  /** The join depends neither on the order of the keys nor on entries that
      are 0: starting points that have seen the same, over the same keys,
      give clocks that have seen the same. */
  lemma JoinKeysSame(acc1: VClock, acc2: VClock, clocks: map<Key, VClock>, keys1: seq<Key>, keys2: seq<Key>)
    requires Leq(acc1, acc2) && Leq(acc2, acc1)
    requires forall k :: k in keys1 <==> k in keys2
    ensures forall p :: Get(JoinKeys(acc1, clocks, keys1), p) == Get(JoinKeys(acc2, clocks, keys2), p)
  {
    var r1, r2 := JoinKeys(acc1, clocks, keys1), JoinKeys(acc2, clocks, keys2);
    JoinKeysUpper(acc1, clocks, keys1);
    JoinKeysUpper(acc2, clocks, keys2);
    JoinKeysLeast(acc1, clocks, keys1, r2);
    JoinKeysLeast(acc2, clocks, keys2, r1);
  }

  /** The clock of `key`, or a bottom clock for a key not seen yet. */
  function KeyClock(clocks: map<Key, VClock>, n: nat, key: Key): VClock
  {
    if key in clocks then clocks[key] else Bottom(n)
  }

  /** The key clocks after the dot was added to the clock of each of
      `keys`, in order. */
  function RegisterKeys(clocks: map<Key, VClock>, n: nat, dot: Dot, keys: seq<Key>): (r: map<Key, VClock>)
    ensures forall k :: k in r <==> k in clocks || k in keys
    decreases |keys|
  {
    if keys == [] then clocks
    else
      var prev := RegisterKeys(clocks, n, dot, keys[..|keys| - 1]);
      var k := keys[|keys| - 1];
      assert forall j :: j in keys ==> j in keys[..|keys| - 1] || j == k;
      prev[k := AddDot(KeyClock(prev, n, k), dot)]
  }

  /** Each key of `keys` has its clock (or a bottom one) with the dot
      added; every other key keeps its clock. */
  lemma {:induction false} RegisterKeysEffect(clocks: map<Key, VClock>, n: nat, dot: Dot, keys: seq<Key>, k: Key)
    requires NoDup(keys)
    ensures k in keys ==>
      (k in RegisterKeys(clocks, n, dot, keys) && RegisterKeys(clocks, n, dot, keys)[k] == AddDot(KeyClock(clocks, n, k), dot))
    ensures k !in keys ==>
      (KeyClock(RegisterKeys(clocks, n, dot, keys), n, k) == KeyClock(clocks, n, k)
       && (k in RegisterKeys(clocks, n, dot, keys) <==> k in clocks))
    decreases |keys|
  {
    if keys != [] {
      var init := keys[..|keys| - 1];
      assert NoDup(init);
      NoDupNotBefore(keys, |keys| - 1);
      assert k in keys && k != keys[|keys| - 1] ==> k in init;
      RegisterKeysEffect(clocks, n, dot, init, k);
    }
  }

  class SequentialKeyClocks {
    const n: nat
    var clocks: map<Key, VClock>
    var noopClock: VClock

    /** `new`: no key clock yet, and a bottom no-op clock. */
    constructor (n: nat)
      ensures this.n == n && clocks == map[] && noopClock == Bottom(n)
    {
      this.n := n;
      clocks := map[];
      noopClock := Bottom(n);
    }

    /** `clock_with_past`: `past` joined with the no-op clock and with the
        clocks of the keys that have one; `order` is the order in which the
        command's keys, or for a no-op the key map, are walked. */
    method ClockWithPast(cmd: Option<Command>, past: VClock, order: seq<Key>) returns (r: VClock)
      requires Enumerates(order, ConflictSet(cmd, clocks))
      ensures r == JoinKeys(Join(past, noopClock), clocks, order)
      ensures Leq(past, r) && Leq(noopClock, r)
    {
      r := Join(past, noopClock);
      for i := 0 to |order|
        invariant r == JoinKeys(Join(past, noopClock), clocks, order[..i])
      {
        var key := order[i];
        assert order[..i + 1][..i] == order[..i];
        if key in clocks {
          r := Join(r, clocks[key]);
        }
      }
      assert order[..|order|] == order;
      JoinKeysUpper(Join(past, noopClock), clocks, order);
      JoinLeast(past, noopClock, r);
    }

    /** `clock`: `clock_with_past` from a bottom clock, which has seen
        exactly what the no-op clock and the key clocks have. */
    method Clock(cmd: Option<Command>, order: seq<Key>) returns (r: VClock)
      requires Enumerates(order, ConflictSet(cmd, clocks))
      ensures r == JoinKeys(Join(Bottom(n), noopClock), clocks, order)
      ensures forall p :: Get(r, p) == Get(JoinKeys(noopClock, clocks, order), p)
    {
      r := ClockWithPast(cmd, Bottom(n), order);
      JoinKeysSame(Join(Bottom(n), noopClock), noopClock, clocks, order, order);
    }

    /** The inherent `add`: a command's dot goes into the clock of each of
        its keys, and a no-op's into the no-op clock only. */
    method Register(dot: Dot, cmd: Option<Command>, keyOrder: seq<Key>)
      requires cmd.Some? ==> Enumerates(keyOrder, cmd.value.keys)
      modifies this
      ensures cmd.Some? ==> clocks == RegisterKeys(old(clocks), n, dot, keyOrder) && noopClock == old(noopClock)
      ensures cmd.None? ==> clocks == old(clocks) && noopClock == AddDot(old(noopClock), dot)
    {
      match cmd {
        case Some(_) =>
          for i := 0 to |keyOrder|
            invariant clocks == RegisterKeys(old(clocks), n, dot, keyOrder[..i])
            invariant noopClock == old(noopClock)
          {
            var key := keyOrder[i];
            assert keyOrder[..i + 1][..i] == keyOrder[..i];
            var clock := if key in clocks then clocks[key] else Bottom(n);
            clocks := clocks[key := AddDot(clock, dot)];
          }
          assert keyOrder[..|keyOrder|] == keyOrder;
        case None =>
          noopClock := AddDot(noopClock, dot);
      }
    }

    /** The `KeyClocks` `add`: the clock computed before the dot is
        registered, from `past` or from a bottom clock. `order` walks the
        command's keys, or the key map for a no-op. */
    method Add(dot: Dot, cmd: Option<Command>, past: Option<VClock>, order: seq<Key>) returns (clock: VClock)
      requires Enumerates(order, ConflictSet(cmd, clocks))
      modifies this
      ensures clock == JoinKeys(Join(if past.Some? then past.value else Bottom(n), old(noopClock)), old(clocks), order)
      ensures cmd.Some? ==> clocks == RegisterKeys(old(clocks), n, dot, order) && noopClock == old(noopClock)
      ensures cmd.None? ==> clocks == old(clocks) && noopClock == AddDot(old(noopClock), dot)
    {
      match past {
        case Some(p) => clock := ClockWithPast(cmd, p, order);
        case None => clock := Clock(cmd, order);
      }
      Register(dot, cmd, order);
    }
  }

  /** A command, then a no-op, then a command sharing a key with the first:
      each later clock includes the earlier dots it conflicts with (the no-op
      conflicts with everything). */
  method ConflictsSeen(n: nat, a: Dot, aCmd: Command, aOrder: seq<Key>, noop: Dot, b: Dot, bCmd: Command, bOrder: seq<Key>,
                       shared: Key)
    returns (noopClock: VClock, bClock: VClock)
    requires Enumerates(aOrder, aCmd.keys) && Enumerates(bOrder, bCmd.keys)
    requires shared in aCmd.keys && shared in bCmd.keys
    ensures Includes(noopClock, a)
    ensures Includes(bClock, a) && Includes(bClock, noop)
  {
    var clocks := new SequentialKeyClocks(n);
    var aClock := clocks.Add(a, Some(aCmd), None, aOrder);
    var order := KeysInOrder(clocks.clocks);
    noopClock := clocks.Add(noop, None, None, order);
    bClock := clocks.Add(b, Some(bCmd), None, bOrder);
    var afterA := RegisterKeys(map[], n, a, aOrder);
    var noopSeen := AddDot(Bottom(n), noop);
    RegisterKeysEffect(map[], n, a, aOrder, shared);
    JoinKeysUpper(Join(Bottom(n), Bottom(n)), afterA, order);
    JoinKeysUpper(Join(Bottom(n), noopSeen), afterA, bOrder);
    assert Includes(afterA[shared], a);
    LeqIncludes(afterA[shared], noopClock, a);
    LeqIncludes(afterA[shared], bClock, a);
    assert Includes(noopSeen, noop);
    JoinLeast(Bottom(n), noopSeen, bClock);
    LeqIncludes(noopSeen, bClock, noop);
  }

  /** The keys of a map, each once, in some order. */
  method KeysInOrder<V>(m: map<Key, V>) returns (order: seq<Key>)
    ensures Enumerates(order, m.Keys)
  {
    order := [];
    var rest := m.Keys;
    while rest != {}
      invariant NoDup(order)
      invariant forall k :: k in order <==> k in m.Keys && k !in rest
      invariant rest <= m.Keys
      decreases rest
    {
      var k :| k in rest;
      order := order + [k];
      rest := rest - {k};
    }
  }
}
