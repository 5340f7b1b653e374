/** The checks the Atlas queue's own tests run on it
    (src/protocol/atlas/queue/mod.rs): adding committed commands in any order
    releases every command exactly once, and, when every two commands are
    related by a dependency, always in the same order. */
module QueueOracles {
  import opened Ids
  import opened DepGraph
  import opened ReleaseOrder
  import opened KeyedCommand
  import opened SccFinder
  import opened VectorClocks
  import opened AtlasQueue

  /** One add of a test: a committed dot and its dependency clock. */
  type Arg = (Dot, VClock)

  /** The one key every test command writes. */
  const Black: Key := "black"

  /** The command identifier a test derives from a dot. */
  function DotRifl(d: Dot): (r: Rifl)
    ensures RiflDot(r) == d
  {
    Rifl(d.source, d.sequence)
  }

  function RiflDot(r: Rifl): Dot
  {
    Dot(r.source, r.sequence)
  }

  /** The identifiers of a release order. */
  function Rifls(ds: seq<Dot>): (rs: seq<Rifl>)
    ensures |rs| == |ds| && forall k :: 0 <= k < |ds| ==> RiflDot(rs[k]) == ds[k]
  {
    seq(|ds|, k requires 0 <= k < |ds| => DotRifl(ds[k]))
  }

  lemma RiflsSnoc(ds: seq<Dot>, i: nat)
    requires i < |ds|
    ensures Rifls(ds[..i + 1]) == Rifls(ds[..i]) + [DotRifl(ds[i])]
  {
  }

  lemma RiflsAppend(ds: seq<Dot>, es: seq<Dot>)
    ensures Rifls(ds + es) == Rifls(ds) + Rifls(es)
  {
  }

  /** The vertex a test adds for one argument. */
  function ArgVertex(a: Arg): Vertex
  {
    Vertex(a.0, Put(DotRifl(a.0), Black), a.1)
  }

  /** Every added command is the test command of its dot. */
  ghost predicate TestCommands(added: map<Dot, Vertex>)
  {
    forall d :: d in added ==> added[d].cmd == Put(DotRifl(d), Black)
  }

  /** No dot is added twice. */
  ghost predicate DistinctDots(args: seq<Arg>)
  {
    forall i, j :: 0 <= i < j < |args| ==> args[i].0 != args[j].0
  }

  function ArgDots(args: seq<Arg>): set<Dot>
  {
    set k | 0 <= k < |args| :: args[k].0
  }

  /** The vertices a queue holds after adding `args` in order: each under its
      own dot, each writing the black key. */
  function ArgsVertices(args: seq<Arg>): (vs: map<Dot, Vertex>)
    ensures vs.Keys == ArgDots(args)
    ensures forall d :: d in vs ==> vs[d].dot == d && vs[d].cmd == Put(DotRifl(d), Black)
  {
    if args == [] then map[]
    else
      var last := args[|args| - 1];
      var vs := ArgsVertices(args[..|args| - 1]);
      assert forall k :: 0 <= k < |args| - 1 ==> args[..|args| - 1][k] == args[k];
      assert ArgDots(args) == ArgDots(args[..|args| - 1]) + {last.0};
      vs[last.0 := ArgVertex(last)]
  }

  lemma ArgsVerticesSnoc(args: seq<Arg>, i: nat)
    requires i < |args|
    ensures ArgsVertices(args[..i + 1]) == ArgsVertices(args[..i])[args[i].0 := ArgVertex(args[i])]
  {
    TakeSnoc(args, i);
  }

  /** With distinct dots, each argument's vertex is the one stored under its
      dot, whatever the order of the other arguments. */
  lemma {:induction false} ArgsVerticesAt(args: seq<Arg>, k: nat)
    requires DistinctDots(args) && k < |args|
    ensures ArgsVertices(args)[args[k].0] == ArgVertex(args[k])
    decreases |args|
  {
    var init := args[..|args| - 1];
    if k < |args| - 1 {
      assert DistinctDots(init) by {
        forall i, j | 0 <= i < j < |init|
          ensures init[i].0 != init[j].0
        {
          assert init[i] == args[i] && init[j] == args[j];
        }
      }
      ArgsVerticesAt(init, k);
      assert init[k] == args[k];
    }
  }

  /** A sequence without repeated dots holds each argument at most once. */
  lemma {:induction false} DistinctCounts(args: seq<Arg>, a: Arg)
    requires DistinctDots(args)
    ensures multiset(args)[a] <= 1
    decreases |args|
  {
    if args != [] {
      var init, last := args[..|args| - 1], args[|args| - 1];
      assert args == init + [last];
      assert DistinctDots(init) by {
        forall i, j | 0 <= i < j < |init|
          ensures init[i].0 != init[j].0
        {
          assert init[i] == args[i] && init[j] == args[j];
        }
      }
      DistinctCounts(init, a);
      if a == last {
        assert a !in init by {
          forall i | 0 <= i < |init|
            ensures init[i] != a
          {
            assert init[i] == args[i];
          }
        }
      }
    }
  }

  /** Reordering arguments keeps their dots distinct. */
  lemma PermutationDistinct(args: seq<Arg>, perm: seq<Arg>)
    requires DistinctDots(args) && multiset(perm) == multiset(args)
    ensures DistinctDots(perm)
  {
    forall i, j | 0 <= i < j < |perm|
      ensures perm[i].0 != perm[j].0
    {
      assert perm[i] in multiset(args) && perm[j] in multiset(args);
      var p :| 0 <= p < |args| && args[p] == perm[i];
      var q :| 0 <= q < |args| && args[q] == perm[j];
      if perm[i] == perm[j] {
        var x := perm[i];
        assert perm == perm[..j] + [x] + perm[j + 1..];
        assert x in perm[..j];
        assert multiset(perm)[x] == multiset(perm[..j])[x] + 1 + multiset(perm[j + 1..])[x];
        DistinctCounts(args, x);
      } else if p < q {
        assert args[p].0 != args[q].0;
      } else if q < p {
        assert args[q].0 != args[p].0;
      }
    }
  }

  /** Adding the same arguments in another order builds the same vertices. */
  lemma PermutationVertices(args: seq<Arg>, perm: seq<Arg>)
    requires DistinctDots(args) && multiset(perm) == multiset(args)
    ensures ArgsVertices(perm) == ArgsVertices(args)
  {
    PermutationDistinct(args, perm);
    var a, b := ArgsVertices(args), ArgsVertices(perm);
    forall d | d in a
      ensures d in b && b[d] == a[d]
    {
      var k :| 0 <= k < |args| && args[k].0 == d;
      assert args[k] in multiset(perm);
      var m :| 0 <= m < |perm| && perm[m] == args[k];
      ArgsVerticesAt(args, k);
      ArgsVerticesAt(perm, m);
    }
    forall d | d in b
      ensures d in a
    {
      var m :| 0 <= m < |perm| && perm[m].0 == d;
      assert perm[m] in multiset(args);
      var k :| 0 <= k < |args| && args[k] == perm[m];
    }
  }

  /** What one add releases was pending before it, or is the added dot;
      what stays pending is the rest. */
  lemma ReleasedWerePending(added0: map<Dot, Vertex>, index0: map<Dot, Vertex>, executed0: set<Dot>, emitted0: seq<Dot>,
                            added: map<Dot, Vertex>, index: map<Dot, Vertex>, executed: set<Dot>, emitted: seq<Dot>,
                            v: Vertex)
    requires VerticesOk(added0, index0, executed0) && EmittedOk(emitted0, executed0)
    requires VerticesOk(added, index, executed) && EmittedOk(emitted, executed)
    requires added == added0[v.dot := v] && v.dot !in added0 && emitted0 <= emitted
    ensures emitted == emitted0 + emitted[|emitted0|..] && NoDup(emitted[|emitted0|..])
    ensures forall x :: x in emitted[|emitted0|..] ==> x in index0 || x == v.dot
    ensures forall x :: x in index <==> (x in index0 || x == v.dot) && x !in emitted[|emitted0|..]
  {
    var m := |emitted0|;
    var released := emitted[m..];
    assert emitted == emitted0 + released;
    forall i, j | 0 <= i < j < |released|
      ensures released[i] != released[j]
    {
      assert released[i] == emitted[m + i] && released[j] == emitted[m + j];
    }
    forall x | x in released
      ensures x !in emitted0 && (x in index0 || x == v.dot)
    {
      var k :| 0 <= k < |released| && released[k] == x;
      assert emitted[m + k] == x;
      assert x in executed;
    }
  }

  lemma AddedAll(args: seq<Arg>, i: nat, added: map<Dot, Vertex>)
    requires i == |args| && added == ArgsVertices(args[..i])
    ensures added == ArgsVertices(args)
  {
    TakeAll(args);
  }

  /** The identifiers of an enumeration of dots are distinct and are
      exactly those of the dots. */
  lemma RiflsEnumerate(order: seq<Dot>, dots: set<Dot>)
    requires Enumerates(order, dots)
    ensures NoDup(Rifls(order)) && forall r :: r in Rifls(order) <==> RiflDot(r) in dots
  {
    var rs := Rifls(order);
    forall r | RiflDot(r) in dots
      ensures r in rs
    {
      var k :| 0 <= k < |order| && order[k] == RiflDot(r);
      assert rs[k] == r;
    }
  }

  /** `check_termination`: adds the commands in the given order, collecting
      the identifiers the queue hands out; each identifier is handed out once,
      and all of them are handed out by the end. The release order it returns
      lists every dot once and never puts a dot after one it must precede. */
  method CheckTermination(n: nat, args: seq<Arg>) returns (sorted: seq<Rifl>, ghost order: seq<Dot>)
    requires DistinctDots(args)
    requires DepsPresent(VertexGraph(ArgsVertices(args)))
    ensures Enumerates(order, ArgDots(args))
    ensures NoInversion(VertexGraph(ArgsVertices(args)), order)
    ensures sorted == Rifls(order)
    ensures NoDup(sorted) && forall r :: r in sorted <==> RiflDot(r) in ArgDots(args)
  {
    var q := new Queue(n);
    var all: set<Rifl> := {};
    sorted := [];
    var i := 0;
    while i < |args|
      invariant i <= |args|
      invariant q.Valid() && Stable(q.vertexIndex, q.executedClock)
      invariant q.added == ArgsVertices(args[..i])
      invariant q.drained == |q.emitted| && sorted == Rifls(q.emitted)
      invariant forall r :: r in all <==> RiflDot(r) in q.vertexIndex
    {
      assert args[i].0 !in q.added;
      all, sorted := AddOne(q, args[i], all, sorted);
      ArgsVerticesSnoc(args, i);
      i := i + 1;
    }
    AddedAll(args, i, q.added);
    q.Complete();
    // the set of all identifiers is empty
    assert all == {};
    order := q.emitted;
    RiflsEnumerate(order, ArgDots(args));
  }

  /** `shuffle_it`: when every two commands are related, as `random_adds`
      makes them, a release order `check_termination` can end with for the
      arguments and one for any reordering of them are the same, and so are
      the identifiers handed out. */
  lemma ShuffleSameOrder(args: seq<Arg>, perm: seq<Arg>, order: seq<Dot>, permOrder: seq<Dot>)
    requires DistinctDots(args) && multiset(perm) == multiset(args)
    requires PairwiseRelated(VertexGraph(ArgsVertices(args)))
    requires Enumerates(order, ArgDots(args)) && NoInversion(VertexGraph(ArgsVertices(args)), order)
    requires Enumerates(permOrder, ArgDots(perm)) && NoInversion(VertexGraph(ArgsVertices(perm)), permOrder)
    ensures order == permOrder && Rifls(order) == Rifls(permOrder)
  {
    PermutationVertices(args, perm);
    assert ArgDots(perm) == ArgDots(args);
    UniqueEnumeration(VertexGraph(ArgsVertices(args)), order, permOrder);
  }

  /** One round of `check_termination`: adds a command, takes what the queue
      released and hands out its identifiers. */
  method AddOne(q: Queue, a: Arg, all0: set<Rifl>, sorted0: seq<Rifl>) returns (all: set<Rifl>, sorted: seq<Rifl>)
    requires q.Valid() && Stable(q.vertexIndex, q.executedClock) && TestCommands(q.added)
    requires a.0 !in q.added
    requires q.drained == |q.emitted| && sorted0 == Rifls(q.emitted)
    requires forall r :: r in all0 <==> RiflDot(r) in q.vertexIndex
    modifies q
    ensures q.Valid() && Stable(q.vertexIndex, q.executedClock) && TestCommands(q.added)
    ensures q.added == old(q.added)[a.0 := ArgVertex(a)]
    ensures q.drained == |q.emitted| && sorted == Rifls(q.emitted)
    ensures forall r :: r in all <==> RiflDot(r) in q.vertexIndex
  {
    var (dot, clock) := a;
    var rifl := DotRifl(dot);
    // the identifier is new
    assert rifl !in all0;
    all := all0 + {rifl};
    ghost var emitted0 := q.emitted;
    var ready, released := AddTake(q, dot, clock);
    all, sorted := Collect(ready, released, all, sorted0);
    RiflsAppend(emitted0, released);
  }

  /** Adds the test command of `dot` and takes what the queue released: the
      commands of dots that were pending before, or of `dot` itself. */
  method AddTake(q: Queue, dot: Dot, clock: VClock) returns (ready: seq<Command>, ghost released: seq<Dot>)
    requires q.Valid() && Stable(q.vertexIndex, q.executedClock) && TestCommands(q.added)
    requires dot !in q.added && q.drained == |q.emitted|
    modifies q
    ensures q.Valid() && Stable(q.vertexIndex, q.executedClock) && TestCommands(q.added)
    ensures q.added == old(q.added)[dot := ArgVertex((dot, clock))]
    ensures q.drained == |q.emitted| && q.emitted == old(q.emitted) + released && NoDup(released)
    ensures |ready| == |released| && forall k :: 0 <= k < |ready| ==> ready[k].rifl == DotRifl(released[k])
    ensures forall x :: x in released ==> x in old(q.vertexIndex) || x == dot
    ensures forall x :: x in q.vertexIndex <==> (x in old(q.vertexIndex) || x == dot) && x !in released
  {
    ghost var emitted0 := q.emitted;
    AddTest(q, dot, clock);
    ready := q.ToExecute();
    released := q.emitted[|emitted0|..];
  }

  /** Adds the test command of `dot`: what it releases was pending before, or
      is `dot` itself, and what stays pending is the rest. */
  method AddTest(q: Queue, dot: Dot, clock: VClock)
    requires q.Valid() && Stable(q.vertexIndex, q.executedClock) && TestCommands(q.added)
    requires dot !in q.added
    modifies q
    ensures q.Valid() && Stable(q.vertexIndex, q.executedClock) && TestCommands(q.added)
    ensures q.added == old(q.added)[dot := ArgVertex((dot, clock))]
    ensures q.drained == old(q.drained) && old(q.emitted) <= q.emitted
    ensures NoDup(q.emitted[|old(q.emitted)|..])
    ensures forall x :: x in q.emitted[|old(q.emitted)|..] ==> x in old(q.vertexIndex) || x == dot
    ensures forall x :: x in q.vertexIndex <==> (x in old(q.vertexIndex) || x == dot) && x !in q.emitted[|old(q.emitted)|..]
  {
    ghost var added0, index0, executed0, emitted0 := q.added, q.vertexIndex, q.executedClock, q.emitted;
    q.Add(dot, Put(DotRifl(dot), Black), clock);
    assert AllAccess(q.added, Black) && TestCommands(q.added);
    ReleasedWerePending(added0, index0, executed0, emitted0,
                        q.added, q.vertexIndex, q.executedClock, q.emitted, ArgVertex((dot, clock)));
  }

  /** Hands out the identifiers of the released commands in order, removing
      each from the identifiers still awaited; each one is awaited. */
  method Collect(ready: seq<Command>, ghost dots: seq<Dot>, all0: set<Rifl>, sorted0: seq<Rifl>)
    returns (all: set<Rifl>, sorted: seq<Rifl>)
    requires |ready| == |dots| && NoDup(dots)
    requires forall k :: 0 <= k < |dots| ==> ready[k].rifl == DotRifl(dots[k]) && DotRifl(dots[k]) in all0
    ensures forall r :: r in all <==> r in all0 && RiflDot(r) !in dots
    ensures sorted == sorted0 + Rifls(dots)
  {
    all, sorted := all0, sorted0;
    var k := 0;
    while k < |ready|
      invariant k <= |ready|
      invariant forall r :: r in all <==> r in all0 && RiflDot(r) !in dots[..k]
      invariant sorted == sorted0 + Rifls(dots[..k])
    {
      var rifl := ready[k].rifl;
      NoDupNotBefore(dots, k);
      // the identifier is still awaited
      assert rifl in all;
      all := all - {rifl};
      sorted := sorted + [rifl];
      TakeSnoc(dots, k);
      RiflsSnoc(dots, k);
      k := k + 1;
    }
    assert dots[..k] == dots;
  }

  /** The two dots of the cycle test depend on each other. */
  lemma CycleClocks()
    ensures ClockDeps(map[1 := 0, 2 := 1]) == {Dot(2, 1)}
    ensures ClockDeps(map[1 := 1, 2 := 0]) == {Dot(1, 1)}
  {
    forall d | d in ClockDeps(map[1 := 0, 2 := 1])
      ensures d == Dot(2, 1)
    {
      ClockDepsMember(map[1 := 0, 2 := 1], d);
    }
    ClockDepsMember(map[1 := 0, 2 := 1], Dot(2, 1));
    forall d | d in ClockDeps(map[1 := 1, 2 := 0])
      ensures d == Dot(1, 1)
    {
      ClockDepsMember(map[1 := 1, 2 := 0], d);
    }
    ClockDepsMember(map[1 := 1, 2 := 0], Dot(1, 1));
  }

  /** A list of two distinct elements without repetitions is one of their
      two orders. */
  lemma TwoEnumerations<T(!new)>(xs: seq<T>, a: T, b: T)
    requires a != b && Enumerates(xs, {a, b})
    ensures xs == [a, b] || xs == [b, a]
  {
    NoDupCard(xs);
    assert Elements(xs) == {a, b};
    assert xs[0] in xs && xs[1] in xs;
  }

  /** In the cycle both dots reach each other, so the smaller dot goes first. */
  lemma CycleOrder(added: map<Dot, Vertex>, emitted: seq<Dot>)
    requires added.Keys == {Dot(1, 1), Dot(2, 1)}
    requires added[Dot(1, 1)].clock == map[1 := 0, 2 := 1] && added[Dot(2, 1)].clock == map[1 := 1, 2 := 0]
    requires Enumerates(emitted, added.Keys) && NoInversion(VertexGraph(added), emitted)
    ensures emitted == [Dot(1, 1), Dot(2, 1)]
  {
    CycleClocks();
    var g := VertexGraph(added);
    TwoEnumerations(emitted, Dot(1, 1), Dot(2, 1));
    if emitted == [Dot(2, 1), Dot(1, 1)] {
      ReachDep(g, {}, Dot(2, 1), Dot(1, 1));
      assert MustPrecede(g, emitted[1], emitted[0]);
    }
  }

  /** The two commands of the cycle test, under their dots. */
  function CycleVertices(cmd0: Command, cmd1: Command): map<Dot, Vertex>
  {
    map[Dot(1, 1) := Vertex(Dot(1, 1), cmd0, map[1 := 0, 2 := 1]),
        Dot(2, 1) := Vertex(Dot(2, 1), cmd1, map[1 := 1, 2 := 0])]
  }

  lemma CycleComplete(cmd0: Command, cmd1: Command)
    ensures DepsPresent(VertexGraph(CycleVertices(cmd0, cmd1)))
  {
    CycleClocks();
    var g := VertexGraph(CycleVertices(cmd0, cmd1));
    assert g == map[Dot(1, 1) := {Dot(2, 1)}, Dot(2, 1) := {Dot(1, 1)}];
  }

  /** The `simple` test: two commands whose clocks make each depend on the
      other. Nothing is released after the first add; after the second both
      are, the smaller dot first. */
  method Simple() returns (first: seq<Command>, second: seq<Command>)
    ensures first == []
    ensures second == [Put(Rifl(1, 1), "A"), Put(Rifl(2, 1), "A")]
  {
    var q := new Queue(2);
    var cmd0, cmd1 := Put(Rifl(1, 1), "A"), Put(Rifl(2, 1), "A");
    first := SimpleFirst(q, cmd0);
    second := SimpleSecond(q, cmd0, cmd1);
  }

  /** The first add of the cycle test: its dependency is missing, so nothing
      is released. */
  method SimpleFirst(q: Queue, cmd0: Command) returns (ready: seq<Command>)
    requires q.Valid() && Stable(q.vertexIndex, q.executedClock)
    requires q.added == map[] && q.emitted == [] && q.drained == 0
    modifies q
    ensures q.Valid() && Stable(q.vertexIndex, q.executedClock)
    ensures q.added == map[Dot(1, 1) := Vertex(Dot(1, 1), cmd0, map[1 := 0, 2 := 1])]
    ensures q.emitted == [] && q.drained == 0 && ready == []
  {
    CycleClocks();
    ghost var v0 := Vertex(Dot(1, 1), cmd0, map[1 := 0, 2 := 1]);
    assert !Releasable(VertexGraph(map[Dot(1, 1) := v0]), {}, Dot(1, 1)) by {
      ReachDep(VertexGraph(map[Dot(1, 1) := v0]), {}, Dot(1, 1), Dot(2, 1));
    }
    q.Add(Dot(1, 1), cmd0, map[1 := 0, 2 := 1]);
    ready := q.ToExecute();
  }

  /** The second add of the cycle test closes the cycle: both commands are
      released, the smaller dot first. */
  method SimpleSecond(q: Queue, cmd0: Command, cmd1: Command) returns (ready: seq<Command>)
    requires q.Valid() && Stable(q.vertexIndex, q.executedClock)
    requires q.added == map[Dot(1, 1) := Vertex(Dot(1, 1), cmd0, map[1 := 0, 2 := 1])]
    requires q.emitted == [] && q.drained == 0
    requires cmd0.keys == cmd1.keys != {}
    modifies q
    ensures ready == [cmd0, cmd1]
  {
    CloseCycle(q, cmd0, cmd1);
    ready := q.ToExecute();
    assert ready[0] == cmd0 && ready[1] == cmd1;
  }

  method CloseCycle(q: Queue, cmd0: Command, cmd1: Command)
    requires q.Valid() && Stable(q.vertexIndex, q.executedClock)
    requires q.added == map[Dot(1, 1) := Vertex(Dot(1, 1), cmd0, map[1 := 0, 2 := 1])]
    requires q.emitted == [] && q.drained == 0
    requires cmd0.keys == cmd1.keys != {}
    modifies q
    ensures q.Valid() && q.added == CycleVertices(cmd0, cmd1)
    ensures q.emitted == [Dot(1, 1), Dot(2, 1)] && q.drained == 0
  {
    q.Add(Dot(2, 1), cmd1, map[1 := 1, 2 := 0]);
    assert q.added == CycleVertices(cmd0, cmd1);
    CycleComplete(cmd0, cmd1);
    ghost var key :| key in cmd0.keys;
    assert AllAccess(q.added, key);
    q.Complete();
    CycleOrder(q.added, q.emitted);
  }
}
