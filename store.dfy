/** The key-value store commands are applied to (fantoch/src/store.rs). Every
    key holds a list of `u16` values; in key-value mode the list is always a
    single value, and the arithmetic operations saturate at the `u16` bounds. */
module Storage {
  import opened Ids
  import opened Wrappers

  /** `u16`. */
  type Value = x: nat | x <= 0xFFFF

  const MaxValue: Value := 0xFFFF

  datatype StorageOp = Get | Put(value: Value) | Add(value: Value) | Subtract(value: Value) | Delete

  type StorageOpResult = Option<Value>

  /** The stored state: a list of values per key. */
  type Contents = map<Key, seq<Value>>

  /** What `ExecutionOrderMonitor::add` is told about one execution: the key,
      whether the ops were all reads, and the command. The monitor itself is
      not part of this model; it is represented by the log of these calls. */
  datatype MonitorEntry = MonitorEntry(key: Key, readOnly: bool, rifl: Rifl)

  function Sum(vs: seq<nat>): nat
  {
    if vs == [] then 0 else Sum(vs[..|vs| - 1]) + vs[|vs| - 1]
  }

  /** Every stored key holds exactly one value: `Put` is the only operation
      that inserts, and it inserts a one-element list. */
  ghost predicate Singletons(s: Contents)
  {
    forall k :: k in s ==> |s[k]| == 1
  }

  /** Only `Get` ops: what the monitor is told as `read_only`. */
  predicate ReadOnly(ops: seq<StorageOp>)
  {
    forall i :: 0 <= i < |ops| ==> ops[i] == Get
  }

  /** The state after one op, and the op's result. */
  datatype Applied = Applied(store: Contents, result: StorageOpResult)

  /** The stored sum of a key, as `Get` reports it. */
  function Read(s: Contents, key: Key): (r: StorageOpResult)
    requires Singletons(s)
    ensures r.Some? <==> key in s
    ensures r.Some? ==> r.value == s[key][0]
  {
    if key in s then SumOne(s[key]); Some(Sum(s[key])) else None
  }

  lemma SumOne(vs: seq<Value>)
    requires |vs| == 1
    ensures Sum(vs) == vs[0]
  {
    assert vs[..0] == [];
  }

  /** `do_execute_op` as a function of the stored state. */
  function Step(s: Contents, kv: bool, key: Key, op: StorageOp): (a: Applied)
    requires Singletons(s)
    ensures Singletons(a.store)
    ensures forall k :: k != key ==> (k in a.store <==> k in s) && (k in s ==> a.store[k] == s[k])
  {
    match op
    case Get => Applied(s, Read(s, key))
    case Delete =>
      if key in s then Applied(s - {key}, Read(s, key)) else Applied(s, None)
    case Put(v) =>
      if kv then Applied(s[key := [v]], None) else Applied(s, None)
    case Add(v) =>
      if kv && key in s then
        var n: Value := if s[key][0] + v <= MaxValue then s[key][0] + v else MaxValue;
        var vs: seq<Value> := s[key][0 := n];
        Applied(s[key := vs], Some(n))
      else Applied(s, None)
    case Subtract(v) =>
      if kv && key in s then
        var n: Value := if s[key][0] >= v then s[key][0] - v else 0;
        var vs: seq<Value> := s[key][0 := n];
        Applied(s[key := vs], Some(n))
      else Applied(s, None)
  }

  /** Reading leaves the store as it was, and finds the key iff it is stored. */
  lemma GetLeavesStore(s: Contents, kv: bool, key: Key)
    requires Singletons(s)
    ensures Step(s, kv, key, Get).store == s
    ensures Step(s, kv, key, Get).result.Some? <==> key in s
  {
  }

  /** In key-value mode, a `Put` answers nothing and a later `Get` returns
      what it stored. */
  lemma PutThenGet(s: Contents, key: Key, v: Value)
    requires Singletons(s)
    ensures Step(s, true, key, Put(v)).result == None
    ensures Step(Step(s, true, key, Put(v)).store, true, key, Get).result == Some(v)
  {
  }

  /** `Delete` returns what a `Get` would have, and a later `Get` finds
      nothing. */
  lemma DeleteThenGet(s: Contents, kv: bool, key: Key)
    requires Singletons(s)
    ensures Step(s, kv, key, Delete).result == Step(s, kv, key, Get).result
    ensures Step(s, kv, key, Delete).store.Keys == s.Keys - {key}
    ensures Step(Step(s, kv, key, Delete).store, kv, key, Get).result == None
  {
  }

  /** In key-value mode, `Add` on a stored key saturates at `u16::MAX` and a
      later `Get` returns its result; on an absent key it does nothing. */
  lemma AddSaturates(s: Contents, key: Key, v: Value)
    requires Singletons(s)
    ensures var a := Step(s, true, key, Add(v));
      if key in s then
        && a.result == Some(if s[key][0] + v > MaxValue then MaxValue else s[key][0] + v)
        && Read(a.store, key) == a.result
      else a == Applied(s, None)
  {
  }

  /** In key-value mode, `Subtract` on a stored key saturates at 0 and a
      later `Get` returns its result; on an absent key it does nothing. */
  lemma SubtractSaturates(s: Contents, key: Key, v: Value)
    requires Singletons(s)
    ensures var a := Step(s, true, key, Subtract(v));
      if key in s then
        && a.result == Some(if v > s[key][0] then 0 else s[key][0] - v)
        && Read(a.store, key) == a.result
      else a == Applied(s, None)
  {
  }

  /** When the sum stays within `u16`, subtracting what was added restores
      the store. */
  lemma AddThenSubtract(s: Contents, key: Key, v: Value)
    requires Singletons(s) && key in s && s[key][0] + v <= MaxValue
    ensures Step(Step(s, true, key, Add(v)).store, true, key, Subtract(v)).store == s
  {
    var s1 := Step(s, true, key, Add(v)).store;
    assert s1[key] == [s[key][0] + v];
    assert Step(s1, true, key, Subtract(v)).store[key] == s[key];
  }

  /** Outside key-value mode the writes are not implemented: they change
      nothing and answer nothing. */
  lemma NonKvWritesInert(s: Contents, key: Key, op: StorageOp)
    requires Singletons(s) && (op.Put? || op.Add? || op.Subtract?)
    ensures Step(s, false, key, op) == Applied(s, None)
  {
  }

  /** The ops of one key applied in order: the final state and one result
      per op. */
  datatype Ran = Ran(store: Contents, results: seq<StorageOpResult>)

  function Run(s: Contents, kv: bool, key: Key, ops: seq<StorageOp>): (r: Ran)
    requires Singletons(s)
    ensures Singletons(r.store) && |r.results| == |ops|
  {
    if ops == [] then Ran(s, [])
    else
      var prev := Run(s, kv, key, ops[..|ops| - 1]);
      var a := Step(prev.store, kv, key, ops[|ops| - 1]);
      Ran(a.store, prev.results + [a.result])
  }

  /** The i-th result is the i-th op applied to the state the earlier ops
      left: results come back one per op, in op order. */
  lemma {:induction false} RunInOrder(s: Contents, kv: bool, key: Key, ops: seq<StorageOp>, i: nat)
    requires Singletons(s) && i < |ops|
    ensures Run(s, kv, key, ops).results[i] == Step(Run(s, kv, key, ops[..i]).store, kv, key, ops[i]).result
  {
    var last := |ops| - 1;
    if i < last {
      RunInOrder(s, kv, key, ops[..last], i);
      assert ops[..last][..i] == ops[..i];
    } else {
      assert ops[..last] == ops[..i];
    }
  }

  /** The ops of one key never touch another key. */
  lemma {:induction false} RunOtherKeys(s: Contents, kv: bool, key: Key, ops: seq<StorageOp>, k: Key)
    requires Singletons(s) && k != key
    ensures var t := Run(s, kv, key, ops).store;
      (k in t <==> k in s) && (k in s ==> t[k] == s[k])
  {
    if ops != [] {
      RunOtherKeys(s, kv, key, ops[..|ops| - 1], k);
    }
  }

  /** Two stores that agree on a key. */
  ghost predicate AgreeOn(s: Contents, t: Contents, key: Key)
  {
    (key in s <==> key in t) && (key in s ==> s[key] == t[key])
  }

  /** What an op on a key does depends on that key's entry only. */
  lemma StepLocal(s: Contents, t: Contents, kv: bool, key: Key, op: StorageOp)
    requires Singletons(s) && Singletons(t) && AgreeOn(s, t, key)
    ensures Step(s, kv, key, op).result == Step(t, kv, key, op).result
    ensures AgreeOn(Step(s, kv, key, op).store, Step(t, kv, key, op).store, key)
  {
  }

  /** What the ops of one key do depends on that key's entry only. */
  lemma {:induction false} RunLocal(s: Contents, t: Contents, kv: bool, key: Key, ops: seq<StorageOp>)
    requires Singletons(s) && Singletons(t) && AgreeOn(s, t, key)
    ensures Run(s, kv, key, ops).results == Run(t, kv, key, ops).results
    ensures AgreeOn(Run(s, kv, key, ops).store, Run(t, kv, key, ops).store, key)
  {
    if ops != [] {
      var init := ops[..|ops| - 1];
      RunLocal(s, t, kv, key, init);
      StepLocal(Run(s, kv, key, init).store, Run(t, kv, key, init).store, kv, key, ops[|ops| - 1]);
    }
  }

  /** The dependency walk of a `Subtract`: from position `j` of `order` on,
      with `consumed` already counted, take indices until the values taken
      reach `v`. `Panic` is an index past the stored list or a `u16` overflow
      of the running total, both of which make `get_n_deps_by_cmd` panic. */
  datatype Walk = Enough(taken: seq<nat>) | Short | Panic

  /** A walk continued after `prefix` was already taken. */
  function Extend(prefix: seq<nat>, w: Walk): Walk
  {
    if w.Enough? then Enough(prefix + w.taken) else w
  }

  function Consume(values: seq<Value>, order: seq<nat>, j: nat, v: Value, consumed: nat): (w: Walk)
    requires j <= |order|
    ensures w.Enough? ==> j + |w.taken| <= |order|
    decreases |order| - j
  {
    if consumed >= v then Enough([])
    else if j == |order| then Short
    else if order[j] >= |values| || consumed + values[order[j]] > MaxValue then Panic
    else Extend([order[j]], Consume(values, order, j + 1, v, consumed + values[order[j]]))
  }

  /** The sum of the values at the given indices. */
  function SumAt(values: seq<Value>, idx: seq<nat>): nat
    requires forall k :: 0 <= k < |idx| ==> idx[k] < |values|
  {
    if idx == [] then 0 else values[idx[0]] + SumAt(values, idx[1..])
  }

  lemma SumAtCons(values: seq<Value>, i: nat, idx: seq<nat>)
    requires i < |values| && forall k :: 0 <= k < |idx| ==> idx[k] < |values|
    ensures SumAt(values, [i] + idx) == values[i] + SumAt(values, idx)
  {
    assert ([i] + idx)[1..] == idx;
  }

  /** What a successful walk means: it takes the next indices of `order`,
      and their values reach `v`. */
  lemma {:induction false} ConsumeEnough(values: seq<Value>, order: seq<nat>, j: nat, v: Value, consumed: nat)
    requires j <= |order| && Consume(values, order, j, v, consumed).Enough?
    ensures var t := Consume(values, order, j, v, consumed).taken;
      && t == order[j..j + |t|]
      && (forall k :: 0 <= k < |t| ==> t[k] < |values|)
      && consumed + SumAt(values, t) >= v
    decreases |order| - j
  {
    if consumed < v {
      var i := order[j];
      var c := consumed + values[i];
      ConsumeEnough(values, order, j + 1, v, c);
      var t' := Consume(values, order, j + 1, v, c).taken;
      assert order[j..j + 1 + |t'|] == [i] + order[j + 1..j + 1 + |t'|];
      SumAtCons(values, i, t');
    }
  }

  /** A successful walk stops as soon as it can: no shorter run of the
      indices it took reaches `v`. */
  lemma {:induction false} ConsumeMinimal(values: seq<Value>, order: seq<nat>, j: nat, v: Value, consumed: nat, m: nat)
    requires j <= |order| && Consume(values, order, j, v, consumed).Enough?
    requires m < |Consume(values, order, j, v, consumed).taken|
    ensures var t := Consume(values, order, j, v, consumed).taken;
      (forall k :: 0 <= k < m ==> t[k] < |values|) && consumed + SumAt(values, t[..m]) < v
    decreases |order| - j
  {
    var i := order[j];
    var c := consumed + values[i];
    var t' := Consume(values, order, j + 1, v, c).taken;
    var t := [i] + t';
    if m > 0 {
      ConsumeMinimal(values, order, j + 1, v, c, m - 1);
      assert t[..m] == [i] + t'[..m - 1];
      SumAtCons(values, i, t'[..m - 1]);
    }
  }

  /** What a short walk means: every remaining index is in range and all
      their values together stay below `v`. */
  lemma {:induction false} ConsumeShort(values: seq<Value>, order: seq<nat>, j: nat, v: Value, consumed: nat)
    requires j <= |order| && Consume(values, order, j, v, consumed).Short?
    ensures forall k :: j <= k < |order| ==> order[k] < |values|
    ensures consumed + SumAt(values, order[j..]) < v
    decreases |order| - j
  {
    if j < |order| {
      var i := order[j];
      ConsumeShort(values, order, j + 1, v, consumed + values[i]);
      assert order[j..] == [i] + order[j + 1..];
      SumAtCons(values, i, order[j + 1..]);
    }
  }

  /** One position further along a walk that has not panicked: the index is
      in range, the total does not overflow, and the index is taken. */
  lemma TakeNext(w: Walk, values: seq<Value>, order: seq<nat>, v: Value, prefix: seq<nat>, j: nat, consumed: nat)
    requires w != Panic && j < |order| && consumed < v
    requires w == Extend(prefix, Consume(values, order, j, v, consumed))
    ensures order[j] < |values| && consumed + values[order[j]] <= MaxValue
    ensures w == Extend(prefix + [order[j]], Consume(values, order, j + 1, v, consumed + values[order[j]]))
  {
  }

  /** At the end of the order, the walk has either reached `v` or fallen
      short. */
  lemma TakeEnd(w: Walk, values: seq<Value>, order: seq<nat>, v: Value, prefix: seq<nat>, consumed: nat)
    requires w == Extend(prefix, Consume(values, order, |order|, v, consumed))
    ensures w == if consumed >= v then Enough(prefix) else Short
  {
    assert prefix + [] == prefix;
  }

  /** A walk whose total already reaches `v` takes nothing more. */
  lemma TakeDone(w: Walk, values: seq<Value>, order: seq<nat>, v: Value, prefix: seq<nat>, j: nat, consumed: nat)
    requires j <= |order| && consumed >= v
    requires w == Extend(prefix, Consume(values, order, j, v, consumed))
    ensures w == Enough(prefix)
  {
    assert prefix + [] == prefix;
  }

  /** The indices 0, 1, …, n-1. */
  function Upto(n: nat): (r: seq<nat>)
    ensures |r| == n && forall i :: 0 <= i < n ==> r[i] == i
  {
    seq(n, i requires 0 <= i < n => i)
  }

  /** The indices from `start` to `n - 1`, then from 0 to `start - 1`. */
  function Rotation(start: nat, n: nat): (r: seq<nat>)
    requires start <= n
    ensures |r| == n
    ensures forall j :: 0 <= j < n - start ==> r[j] == start + j
    ensures forall j :: n - start <= j < n ==> r[j] == j - (n - start)
  {
    seq(n - start, j requires 0 <= j < n - start => start + j) + Upto(start)
  }

  class Store {
    var store: Contents
    /** `None` when execution order is not monitored. */
    var monitor: Option<seq<MonitorEntry>>
    const isKvStorage: bool
    const number: nat

    ghost predicate Valid()
      reads this
    {
      Singletons(store)
    }

    /** `Store::new`: empty, monitored on request, `number` defaulting to 1. */
    constructor (monitorExecutionOrder: bool, isKvStorage: bool, n: Option<nat>)
      ensures Valid() && store == map[]
      ensures monitor == (if monitorExecutionOrder then Some([]) else None)
      ensures this.isKvStorage == isKvStorage
      ensures number == (if n.Some? then n.value else 1)
    {
      store := map[];
      monitor := if monitorExecutionOrder then Some([]) else None;
      this.isKvStorage := isKvStorage;
      number := if n.Some? then n.value else 1;
    }

    /** `execute`: tells the monitor, when there is one, then applies the
        ops in order. */
    method Execute(key: Key, ops: seq<StorageOp>, rifl: Rifl) returns (results: seq<StorageOpResult>)
      requires Valid()
      modifies this
      ensures Valid()
      ensures store == Run(old(store), isKvStorage, key, ops).store
      ensures results == Run(old(store), isKvStorage, key, ops).results
      ensures monitor == if old(monitor).Some? then Some(old(monitor).value + [MonitorEntry(key, ReadOnly(ops), rifl)])
                         else None
    {
      if monitor.Some? {
        monitor := Some(monitor.value + [MonitorEntry(key, ReadOnly(ops), rifl)]);
      }
      results := DoExecute(key, ops);
    }

    /** `test_execute`: a single op, without the monitor. */
    method TestExecute(key: Key, op: StorageOp) returns (result: StorageOpResult)
      requires Valid()
      modifies this
      ensures Valid() && monitor == old(monitor)
      ensures Applied(store, result) == Step(old(store), isKvStorage, key, op)
    {
      var results := DoExecute(key, [op]);
      result := results[0];
    }

    method DoExecute(key: Key, ops: seq<StorageOp>) returns (results: seq<StorageOpResult>)
      requires Valid()
      modifies this
      ensures Valid() && monitor == old(monitor)
      ensures store == Run(old(store), isKvStorage, key, ops).store
      ensures results == Run(old(store), isKvStorage, key, ops).results
    {
      results := [];
      var i := 0;
      while i < |ops|
        invariant i <= |ops| && Valid() && monitor == old(monitor)
        invariant Run(old(store), isKvStorage, key, ops[..i]) == Ran(store, results)
      {
        assert ops[..i + 1][..i] == ops[..i];
        var r := DoExecuteOp(key, ops[i]);
        results := results + [r];
        i := i + 1;
      }
      assert ops[..i] == ops;
    }

    method DoExecuteOp(key: Key, op: StorageOp) returns (result: StorageOpResult)
      requires Valid()
      modifies this
      ensures Valid() && monitor == old(monitor)
      ensures Applied(store, result) == Step(old(store), isKvStorage, key, op)
    {
      match op {
        case Get =>
          if key in store {
            SumOne(store[key]);
            var sum: Value := Sum(store[key]);
            result := Some(sum);
          } else {
            result := None;
          }
        case Delete =>
          if key in store {
            SumOne(store[key]);
            var sum: Value := Sum(store[key]);
            store := store - {key};
            result := Some(sum);
          } else {
            result := None;
          }
        case Put(v) =>
          if isKvStorage {
            store := store[key := [v]];
          }
          result := None;
        case Add(v) =>
          result := None;
          if isKvStorage && key in store {
            var old0 := store[key][0];
            var n: Value := if old0 + v <= MaxValue then old0 + v else MaxValue;
            var vs: seq<Value> := store[key][0 := n];
            store := store[key := vs];
            result := Some(n);
          }
        case Subtract(v) =>
          result := None;
          if isKvStorage && key in store {
            var old0 := store[key][0];
            var n: Value := if old0 >= v then old0 - v else 0;
            var vs: seq<Value> := store[key][0 := n];
            store := store[key := vs];
            result := Some(n);
          }
      }
    }

    /** `get_n_deps_by_cmd`: the value indices an op on `key` depends on.
        `pick` stands for the random index in `0..number` that `get_n_deps_by_cmd` draws
        for `Add` and `Subtract`. A reading, writing or deleting op depends on
        every index; an `Add` on the picked one; a `Subtract` on the picked
        one and then, walking from it round the indices, on as many as it
        takes for their values to reach the amount subtracted. */
    method GetNDepsByCmd(key: Key, op: StorageOp, pick: nat) returns (r: Option<seq<nat>>)
      requires (op.Add? || op.Subtract?) ==> pick < number
      requires op.Subtract? && key in store ==> Consume(store[key], Rotation(pick, number), 0, op.value, 0) != Panic
      ensures (op.Get? || op.Put? || op.Delete?) ==> r == Some(Upto(number))
      ensures op.Add? ==> r == Some([pick])
      ensures op.Subtract? ==> var order := Rotation(pick, number);
        && (r.None? <==> key !in store || Consume(store[key], order, 0, op.value, 0).Short?)
        && (r.Some? ==>
              && 1 <= |r.value| <= number + 1 && r.value[0] == pick
              && r.value[1..] == order[..|r.value| - 1]
              && (forall k :: 1 <= k < |r.value| ==> r.value[k] < |store[key]|)
              && SumAt(store[key], r.value[1..]) >= op.value
              && forall m :: 0 <= m < |r.value| - 1 ==> SumAt(store[key], r.value[1..][..m]) < op.value)
      ensures op.Subtract? && key in store && r.None? ==>
        && (forall k :: 0 <= k < number ==> Rotation(pick, number)[k] < |store[key]|)
        && SumAt(store[key], Rotation(pick, number)) < op.value
    {
      match op {
        case Get =>
          r := AllIndices();
        case Put(_) =>
          r := AllIndices();
        case Delete =>
          r := AllIndices();
        case Add(_) =>
          r := Some([pick]);
        case Subtract(v) =>
          if key !in store {
            r := None;
          } else {
            var values := store[key];
            ghost var order := Rotation(pick, number);
            ghost var w := Consume(values, order, 0, v, 0);
            r := SubtractDeps(values, v, pick);
            if w.Enough? {
              ConsumeEnough(values, order, 0, v, 0);
              forall m | 0 <= m < |w.taken| {
                ConsumeMinimal(values, order, 0, v, 0, m);
              }
              assert r.value[1..] == w.taken;
            } else {
              ConsumeShort(values, order, 0, v, 0);
              assert order[0..] == order;
            }
          }
      }
    }

    method AllIndices() returns (r: Option<seq<nat>>)
      ensures r == Some(Upto(number))
    {
      var vec: seq<nat> := [];
      for i := 0 to number
        invariant vec == Upto(i)
      {
        vec := vec + [i];
      }
      r := Some(vec);
    }

    /** The `Subtract` case: a first loop over the indices from `pick` up,
        a second one over those below `pick`, and a last check. */
    method SubtractDeps(values: seq<Value>, v: Value, pick: nat) returns (r: Option<seq<nat>>)
      requires pick < number && Consume(values, Rotation(pick, number), 0, v, 0) != Panic
      ensures var w := Consume(values, Rotation(pick, number), 0, v, 0);
        r == if w.Enough? then Some([pick] + w.taken) else None
    {
      ghost var order := Rotation(pick, number);
      ghost var w := Consume(values, order, 0, v, 0);
      var done, vec, consumed := TakeRange(w, values, order, v, pick, number, 0, [pick], 0);
      if !done {
        done, vec, consumed := TakeRange(w, values, order, v, 0, pick, number - pick, vec, consumed);
      }
      if !done {
        done := consumed >= v;
        TakeEnd(w, values, order, v, vec[1..], consumed);
      }
      r := if done then Some(vec) else None;
    }
  }

  /** One loop of the `Subtract` case: indices `lo` to `hi - 1`, which sit
      at positions `at`, `at + 1`, … of the walk's order. It stops early,
      with `done`, once the values taken reach `v`. */
  method TakeRange(ghost w: Walk, values: seq<Value>, ghost order: seq<nat>, v: Value, lo: nat, hi: nat, ghost at: nat,
                   vec0: seq<nat>, consumed0: Value)
    returns (done: bool, vec: seq<nat>, consumed: Value)
    requires w != Panic && lo <= hi && at + (hi - lo) <= |order|
    requires forall p :: at <= p < at + (hi - lo) ==> order[p] == lo + (p - at)
    requires |vec0| >= 1 && w == Extend(vec0[1..], Consume(values, order, at, v, consumed0))
    ensures |vec| >= 1 && vec == [vec0[0]] + vec[1..]
    ensures done ==> w == Enough(vec[1..])
    ensures !done ==> w == Extend(vec[1..], Consume(values, order, at + (hi - lo), v, consumed))
  {
    vec, consumed := vec0, consumed0;
    for i: nat := lo to hi
      invariant |vec| >= 1 && vec[0] == vec0[0]
      invariant w == Extend(vec[1..], Consume(values, order, at + (i - lo), v, consumed))
    {
      if consumed >= v {
        TakeDone(w, values, order, v, vec[1..], at + (i - lo), consumed);
        return true, vec, consumed;
      }
      assert order[at + (i - lo)] == i;
      TakeNext(w, values, order, v, vec[1..], at + (i - lo), consumed);
      assert vec[1..] + [i] == (vec + [i])[1..];
      consumed := consumed + values[i];
      vec := vec + [i];
    }
    done := false;
  }

  /** The `store_flow` test of store.rs in key-value mode. */
  method StoreFlow() returns (rs: seq<StorageOpResult>)
    ensures rs == [None, None, None, Some(12), None, Some(10), None, Some(28), Some(10),
                   Some(28), None, Some(10), Some(10), None, None, None, Some(12), None, Some(12), None]
  {
    var s := new Store(false, true, None);
    var rs1 := PutBoth(s);
    var rs2 := DeleteBoth(s);
    var rs3 := PutDeleteAgain(s);
    rs := rs1 + rs2 + rs3;
  }

  method PutBoth(s: Store) returns (rs: seq<StorageOpResult>)
    requires s.Valid() && s.isKvStorage && s.store == map[]
    modifies s
    ensures s.Valid() && s.store == map["A" := [28], "B" := [10]]
    ensures rs == [None, None, None, Some(12), None, Some(10), None, Some(28), Some(10)]
  {
    var r1 := s.TestExecute("A", Get);
    var r2 := s.TestExecute("B", Get);
    var r3 := s.TestExecute("A", Put(12));
    var r4 := s.TestExecute("A", Get);
    var r5 := s.TestExecute("B", Put(10));
    var r6 := s.TestExecute("B", Get);
    var r7 := s.TestExecute("A", Put(28));
    var r8 := s.TestExecute("A", Get);
    var r9 := s.TestExecute("B", Get);
    rs := [r1, r2, r3, r4, r5, r6, r7, r8, r9];
  }

  method DeleteBoth(s: Store) returns (rs: seq<StorageOpResult>)
    requires s.Valid() && s.isKvStorage && s.store == map["A" := [28], "B" := [10]]
    modifies s
    ensures s.Valid() && s.store == map[]
    ensures rs == [Some(28), None, Some(10), Some(10), None, None]
  {
    var r1 := s.TestExecute("A", Delete);
    var r2 := s.TestExecute("A", Get);
    var r3 := s.TestExecute("B", Get);
    var r4 := s.TestExecute("B", Delete);
    var r5 := s.TestExecute("B", Get);
    var r6 := s.TestExecute("A", Get);
    rs := [r1, r2, r3, r4, r5, r6];
  }

  method PutDeleteAgain(s: Store) returns (rs: seq<StorageOpResult>)
    requires s.Valid() && s.isKvStorage && s.store == map[]
    modifies s
    ensures rs == [None, Some(12), None, Some(12), None]
  {
    var r1 := s.TestExecute("A", Put(12));
    var r2 := s.TestExecute("A", Get);
    var r3 := s.TestExecute("B", Get);
    var r4 := s.TestExecute("A", Delete);
    var r5 := s.TestExecute("A", Get);
    rs := [r1, r2, r3, r4, r5];
  }

  /** The `add_flow` test of store.rs in key-value mode. */
  method AddFlow() returns (rs: seq<StorageOpResult>)
    ensures rs == [None, Some(22), Some(MaxValue)]
  {
    var s := new Store(false, true, None);
    var r1 := s.TestExecute("Add", Put(12));
    var r2 := s.TestExecute("Add", Add(10));
    var r3 := s.TestExecute("Add", Add(MaxValue));
    rs := [r1, r2, r3];
  }

  /** The `add_and_subtract_flow` test of store.rs in key-value mode. */
  method AddAndSubtractFlow() returns (rs: seq<StorageOpResult>)
    ensures rs == [None, Some(22), Some(10), Some(MaxValue), Some(MaxValue - 12), Some(0)]
  {
    var s := new Store(false, true, None);
    var key := "Add";
    rs := [];
    var r;
    r := s.TestExecute(key, Put(12)); rs := rs + [r];
    r := s.TestExecute(key, Add(10)); rs := rs + [r];
    r := s.TestExecute(key, Subtract(12)); rs := rs + [r];
    r := s.TestExecute(key, Add(MaxValue)); rs := rs + [r];
    r := s.TestExecute(key, Subtract(12)); rs := rs + [r];
    r := s.TestExecute(key, Subtract(MaxValue)); rs := rs + [r];
  }

  /** The `subtract_flow` test of store.rs runs on a store that is not in
      key-value mode, where the writes are not implemented: every op answers
      `None`, not the values that test asserts. */
  method SubtractFlowNonKv() returns (rs: seq<StorageOpResult>)
    ensures rs == [None, None, None]
  {
    var s := new Store(false, false, None);
    var key := "Add";
    var r1 := s.TestExecute(key, Put(12));
    var r2 := s.TestExecute(key, Subtract(10));
    var r3 := s.TestExecute(key, Subtract(MaxValue));
    rs := [r1, r2, r3];
  }
}
