/** Identifiers shared by both code generations (fantoch::id and src/id.rs,
    which is not part of this model). */
module Ids {
  type ProcessId = nat
  type ClientId = nat
  type ShardId = nat
  type Key = string

  /** A `Dot` names one command slot: the process that coordinated it and the
      sequence number that process gave it. */
  datatype Dot = Dot(source: ProcessId, sequence: nat)

  /** A `Rifl` names one client request: the client and its sequence number. */
  datatype Rifl = Rifl(source: ClientId, sequence: nat)

  /** The derived ordering of `Dot`: by source, then by sequence. */
  predicate DotLess(a: Dot, b: Dot)
  {
    a.source < b.source || (a.source == b.source && a.sequence < b.sequence)
  }

  /** No element occurs twice. */
  ghost predicate NoDup<T>(xs: seq<T>)
  {
    forall i, j :: 0 <= i < j < |xs| ==> xs[i] != xs[j]
  }

  /** A proper subset leaves something out. */
  lemma SetDiffWitness<T>(a: set<T>, b: set<T>)
    requires a <= b && a != b
    ensures exists x :: x in b - a
  {
    assert !(b <= a);
    var x :| x in b && x !in a;
    assert x in b - a;
  }

  lemma TakeAll<T>(xs: seq<T>)
    ensures xs[..|xs|] == xs
  {
  }

  /** A prefix one longer is the prefix plus the next element. */
  lemma TakeSnoc<T>(xs: seq<T>, i: nat)
    requires i < |xs|
    ensures xs[..i + 1] == xs[..i] + [xs[i]]
    ensures xs[..i + 1][..i] == xs[..i]
  {
  }

  /** In a sequence without duplicates, an element does not occur before its
      own position. */
  lemma NoDupNotBefore<T>(xs: seq<T>, i: nat)
    requires NoDup(xs) && i < |xs|
    ensures xs[i] !in xs[..i]
  {
  }

  /** `xs` lists every element of `s` exactly once. */
  ghost predicate Enumerates<T(!new)>(xs: seq<T>, s: set<T>)
  {
    NoDup(xs) && (forall x :: x in xs <==> x in s)
  }

  /** The set of elements of a sequence. */
  function Elements<T(!new)>(xs: seq<T>): (s: set<T>)
    ensures forall x :: x in s <==> x in xs
  {
    set x | x in xs
  }

  lemma ElementsSnoc<T(!new)>(xs: seq<T>, x: T)
    ensures Elements(xs + [x]) == Elements(xs) + {x}
  {
  }

  /** A sequence without duplicates has as many elements as its set. */
  lemma {:induction false} NoDupCard<T(!new)>(xs: seq<T>)
    requires NoDup(xs)
    ensures |Elements(xs)| == |xs|
  {
    if xs != [] {
      var init, last := xs[..|xs| - 1], xs[|xs| - 1];
      assert xs == init + [last];
      NoDupNotBefore(xs, |xs| - 1);
      NoDupCard(init);
      ElementsSnoc(init, last);
    }
  }

  /** A proper subset is strictly smaller. */
  lemma ProperSubsetCard<T>(a: set<T>, b: set<T>)
    requires a < b
    ensures |a| < |b|
  {
    assert b - a != {};
    var x :| x in b - a;
    assert b == a + (b - a);
    assert b - a == {x} + (b - a - {x});
  }

  /** A subset is no larger. */
  lemma SubsetCard<T>(a: set<T>, b: set<T>)
    requires a <= b
    ensures |a| <= |b|
  {
    if a != b {
      ProperSubsetCard(a, b);
    }
  }
}

module Wrappers {
  datatype Option<T> = None | Some(value: T)
}
