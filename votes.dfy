/** Newt's votes on a command: for each key the command accesses, the vote
    ranges the processes sent, kept in a map ordered by key. */
module NewtVotes {
  import opened Ids

  /** The order of `String` keys: lexicographic on characters, a proper
      prefix first. */
  predicate KeyLess(a: Key, b: Key)
    decreases |a|
  {
    |b| > 0 && (|a| == 0 || a[0] < b[0] || (a[0] == b[0] && KeyLess(a[1..], b[1..])))
  }

  lemma {:induction false} KeyLessIrreflexive(a: Key)
    ensures !KeyLess(a, a)
    decreases |a|
  {
    if |a| > 0 {
      KeyLessIrreflexive(a[1..]);
    }
  }

  lemma {:induction false} KeyLessTransitive(a: Key, b: Key, c: Key)
    requires KeyLess(a, b) && KeyLess(b, c)
    ensures KeyLess(a, c)
    decreases |a|
  {
    if |a| > 0 && a[0] == b[0] && b[0] == c[0] {
      KeyLessTransitive(a[1..], b[1..], c[1..]);
    }
  }

  lemma {:induction false} KeyLessTotal(a: Key, b: Key)
    requires a != b
    ensures KeyLess(a, b) || KeyLess(b, a)
    decreases |a|
  {
    if |a| > 0 && |b| > 0 && a[0] == b[0] {
      assert a == [a[0]] + a[1..] && b == [b[0]] + b[1..];
      KeyLessTotal(a[1..], b[1..]);
    }
  }

  /** `VoteRange`: the process `voter` voted every value from `start` to
      `end`. */
  datatype VoteRange = VoteRange(voter: ProcessId, start: nat, end: nat)

  /** `VoteRange::new` asserts `start <= end`. */
  function NewVoteRange(voter: ProcessId, start: nat, end: nat): (r: VoteRange)
    requires start <= end
    ensures Voter(r) == voter && RangeVotes(r) == Range(start, end)
  {
    VoteRange(voter, start, end)
  }

  /** `voter`. */
  function Voter(r: VoteRange): ProcessId
  {
    r.voter
  }

  /** `start..=end`. */
  function Range(start: nat, end: nat): (vs: seq<nat>)
    ensures |vs| == if start <= end then end - start + 1 else 0
    ensures forall i :: 0 <= i < |vs| ==> vs[i] == start + i
  {
    if start <= end then seq(end - start + 1, i requires 0 <= i <= end - start => start + i) else []
  }

  /** `votes`: every value of the range, once each, ascending. */
  function RangeVotes(r: VoteRange): (vs: seq<nat>)
    ensures forall v :: v in vs <==> r.start <= v <= r.end
    ensures forall i, j :: 0 <= i < j < |vs| ==> vs[i] < vs[j]
    ensures r.start <= r.end ==> |vs| == r.end - r.start + 1
  {
    var vs := Range(r.start, r.end);
    forall v | r.start <= v <= r.end ensures v in vs {
      assert vs[v - r.start] == v;
    }
    vs
  }

  /** The derived order of `VoteRange`: by voter, then start, then end. */
  predicate RangeLess(a: VoteRange, b: VoteRange)
  {
    a.voter < b.voter || (a.voter == b.voter && (a.start < b.start || (a.start == b.start && a.end < b.end)))
  }

  /** It is a strict total order. */
  lemma RangeLessOrder(a: VoteRange, b: VoteRange, c: VoteRange)
    ensures !RangeLess(a, a)
    ensures RangeLess(a, b) && RangeLess(b, c) ==> RangeLess(a, c)
    ensures a != b ==> RangeLess(a, b) || RangeLess(b, a)
  {
  }

  /** The keys of an ordered map's entries. */
  function KeySet<V>(entries: seq<(Key, V)>): set<Key>
  {
    set i | 0 <= i < |entries| :: entries[i].0
  }

  /** Strictly ascending keys, as a `BTreeMap` walks them. */
  ghost predicate Ordered<V>(entries: seq<(Key, V)>)
  {
    forall i, j :: 0 <= i < j < |entries| ==> KeyLess(entries[i].0, entries[j].0)
  }

  /** `BTreeMap::insert` of `key` with no votes into the ordered entries:
      before the first greater key, or in place of an equal one. */
  function Insert(entries: seq<(Key, seq<VoteRange>)>, key: Key): (r: seq<(Key, seq<VoteRange>)>)
    ensures forall e :: e in r ==> e in entries || e == (key, [])
    decreases |entries|
  {
    if entries == [] then [(key, [])]
    else if entries[0].0 == key then [(key, [])] + entries[1..]
    else if KeyLess(key, entries[0].0) then [(key, [])] + entries
    else
      var rest := Insert(entries[1..], key);
      assert forall e :: e in entries[1..] ==> e in entries;
      [entries[0]] + rest
  }

  /** The tail of ordered entries holds every key but the first. */
  lemma OrderedTail<V>(entries: seq<(Key, V)>)
    requires Ordered(entries) && entries != []
    ensures Ordered(entries[1..])
    ensures KeySet(entries[1..]) == KeySet(entries) - {entries[0].0}
    ensures forall k :: k in KeySet(entries[1..]) ==> KeyLess(entries[0].0, k)
  {
    forall k | k in KeySet(entries) - {entries[0].0} ensures k in KeySet(entries[1..]) {
      var i :| 0 <= i < |entries| && entries[i].0 == k;
      assert entries[1..][i - 1] == entries[i];
    }
    forall k | k in KeySet(entries[1..]) ensures k in KeySet(entries) - {entries[0].0} && KeyLess(entries[0].0, k) {
      var i :| 0 <= i < |entries[1..]| && entries[1..][i].0 == k;
      assert entries[i + 1] == entries[1..][i];
      KeyLessIrreflexive(k);
    }
  }

  lemma KeySetCons<V>(e: (Key, V), rest: seq<(Key, V)>)
    ensures KeySet([e] + rest) == {e.0} + KeySet(rest)
  {
    var r := [e] + rest;
    assert r[0].0 in KeySet(r);
    forall k | k in KeySet(r) ensures k in {e.0} + KeySet(rest) {
      var i :| 0 <= i < |r| && r[i].0 == k;
      if i > 0 { assert r[i] == rest[i - 1]; }
    }
    forall k | k in KeySet(rest) ensures k in KeySet(r) {
      var i :| 0 <= i < |rest| && rest[i].0 == k;
      assert r[i + 1] == rest[i];
    }
  }

  lemma KeySetEmpty<V>(entries: seq<(Key, V)>)
    ensures KeySet(entries) == {} <==> entries == []
  {
    if entries != [] {
      assert entries[0].0 in KeySet(entries);
    }
  }

  lemma OrderedCons<V>(e: (Key, V), rest: seq<(Key, V)>)
    requires Ordered(rest) && forall k :: k in KeySet(rest) ==> KeyLess(e.0, k)
    ensures Ordered([e] + rest)
  {
    var r := [e] + rest;
    forall i, j | 0 <= i < j < |r| ensures KeyLess(r[i].0, r[j].0) {
      assert r[j] == rest[j - 1];
      if i == 0 {
        assert r[j].0 in KeySet(rest);
      } else {
        assert r[i] == rest[i - 1];
      }
    }
  }

  lemma Uncons<V>(entries: seq<(Key, V)>)
    requires entries != []
    ensures KeySet(entries) == {entries[0].0} + KeySet(entries[1..])
  {
    assert entries == [entries[0]] + entries[1..];
    KeySetCons(entries[0], entries[1..]);
  }

  /** Inserting keeps the entries ordered and adds exactly the key. */
  lemma {:induction false} InsertOrdered(entries: seq<(Key, seq<VoteRange>)>, key: Key)
    requires Ordered(entries)
    ensures Ordered(Insert(entries, key))
    ensures KeySet(Insert(entries, key)) == KeySet(entries) + {key}
    decreases |entries|
  {
    if entries == [] {
      KeySetCons((key, []), entries);
    } else {
      OrderedTail(entries);
      Uncons(entries);
      var e: (Key, seq<VoteRange>) := (key, []);
      if entries[0].0 == key {
        KeySetCons(e, entries[1..]);
        OrderedCons(e, entries[1..]);
      } else if KeyLess(key, entries[0].0) {
        forall k | k in KeySet(entries) ensures KeyLess(key, k) {
          if k != entries[0].0 {
            KeyLessTransitive(key, entries[0].0, k);
          }
        }
        KeySetCons(e, entries);
        OrderedCons(e, entries);
      } else {
        KeyLessTotal(key, entries[0].0);
        var rest := Insert(entries[1..], key);
        InsertOrdered(entries[1..], key);
        KeySetCons(entries[0], rest);
        OrderedCons(entries[0], rest);
      }
    }
  }

  /** The order of a `BTreeMap`'s walk depends only on its key set: ordered
      entries with the same keys list them in the same order. */
  lemma {:induction false} OrderedUnique<V, W>(a: seq<(Key, V)>, b: seq<(Key, W)>)
    requires Ordered(a) && Ordered(b) && KeySet(a) == KeySet(b)
    ensures |a| == |b| && forall i :: 0 <= i < |a| ==> a[i].0 == b[i].0
    decreases |a|
  {
    if a == [] {
      KeySetEmpty(b);
    } else {
      assert a[0].0 in KeySet(a);
      assert b != [] by { assert a[0].0 in KeySet(b); }
      OrderedTail(a);
      OrderedTail(b);
      if a[0].0 != b[0].0 {
        assert a[0].0 in KeySet(b[1..]) && b[0].0 in KeySet(a[1..]);
        KeyLessTransitive(a[0].0, b[0].0, a[0].0);
        KeyLessIrreflexive(a[0].0);
      }
      OrderedUnique(a[1..], b[1..]);
      forall i | 0 <= i < |a| ensures a[i].0 == b[i].0 {
        if i > 0 {
          assert a[i] == a[1..][i - 1] && b[i] == b[1..][i - 1];
        }
      }
    }
  }

  /** `ProcVotes`: one process's vote on each key, in key order. */
  type ProcVotes = seq<(Key, VoteRange)>

  /** The process voted on exactly the keys of the entries, in their
      order. */
  predicate SameKeys(procVotes: ProcVotes, entries: seq<(Key, seq<VoteRange>)>)
  {
    |procVotes| == |entries| && forall i :: 0 <= i < |entries| ==> procVotes[i].0 == entries[i].0
  }

  /** `Votes`: the vote ranges received so far on each key, as the ordered
      entries of a `BTreeMap`. */
  class Votes {
    var entries: seq<(Key, seq<VoteRange>)>

    ghost predicate Valid()
      reads this
    {
      Ordered(entries)
    }

    /** `uninit`: no key. */
    constructor Uninit()
      ensures Valid() && entries == []
    {
      entries := [];
    }

    /** `from`: exactly the command's keys, each with no vote yet. */
    constructor From(keys: seq<Key>)
      ensures Valid()
      ensures KeySet(entries) == Elements(keys)
      ensures forall i :: 0 <= i < |entries| ==> entries[i].1 == []
    {
      var es: seq<(Key, seq<VoteRange>)> := [];
      for i := 0 to |keys|
        invariant Ordered(es)
        invariant KeySet(es) == Elements(keys[..i])
        invariant forall j :: 0 <= j < |es| ==> es[j].1 == []
      {
        assert keys[..i + 1] == keys[..i] + [keys[i]];
        ElementsSnoc(keys[..i], keys[i]);
        var next := Insert(es, keys[i]);
        InsertOrdered(es, keys[i]);
        assert forall j :: 0 <= j < |next| ==> next[j] in next;
        es := next;
      }
      assert keys[..|keys|] == keys;
      entries := es;
    }

    /** `add`: the process voted on exactly the keys, in the same order (`add`
        asserts it); each key's list gains that key's vote at its
        end. */
    method Add(procVotes: ProcVotes)
      requires Valid() && SameKeys(procVotes, entries)
      modifies this
      ensures Valid() && |entries| == old(|entries|)
      ensures forall i :: 0 <= i < |entries| ==> entries[i] == (old(entries[i].0), old(entries[i].1) + [procVotes[i].1])
    {
      var es := entries;
      for i := 0 to |es|
        invariant |es| == |entries|
        invariant forall j :: 0 <= j < i ==> es[j] == (entries[j].0, entries[j].1 + [procVotes[j].1])
        invariant forall j :: i <= j < |es| ==> es[j] == entries[j]
      {
        es := es[i := (es[i].0, es[i].1 + [procVotes[i].1])];
      }
      entries := es;
    }

    /** `into_iter`: the entries, in ascending key order. */
    function IntoIter(): (r: seq<(Key, seq<VoteRange>)>)
      requires Valid()
      reads this
      ensures Ordered(r)
      ensures forall e :: e in r <==> e in entries
    {
      entries
    }
  }

  /** The votes on a single-key command in the `votes_flow` test: process 0
      votes 1, then process 1 votes 2. */
  method VotesFlowSingle() returns (a: seq<(Key, seq<VoteRange>)>)
    ensures |a| == 1 && a[0].0 == "A" && |a[0].1| == 2
    ensures Voter(a[0].1[0]) == 0 && RangeVotes(a[0].1[0]) == [1]
    ensures Voter(a[0].1[1]) == 1 && RangeVotes(a[0].1[1]) == [2]
  {
    var votes := new Votes.From(["A"]);
    var wanted: seq<(Key, seq<VoteRange>)> := [("A", [])];
    assert KeySet(wanted) == {"A"} == KeySet(votes.entries) by {
      assert wanted[0].0 == "A";
      assert Elements(["A"]) == {"A"};
    }
    OrderedUnique(votes.entries, wanted);
    votes.Add([("A", NewVoteRange(0, 1, 1))]);
    votes.Add([("A", NewVoteRange(1, 2, 2))]);
    a := votes.IntoIter();
    assert a == votes.entries;
  }

  /** The votes on a two-key command in the `votes_flow` test: process 1 votes
      1 on both keys, then process 0 votes 2 on `A` and 1 to 2 on `B`. */
  method VotesFlowPair() returns (ab: seq<(Key, seq<VoteRange>)>)
    ensures |ab| == 2 && ab[0].0 == "A" && ab[1].0 == "B"
    ensures |ab[0].1| == 2 && Voter(ab[0].1[0]) == 1 && Voter(ab[0].1[1]) == 0
    ensures RangeVotes(ab[0].1[0]) == [1] && RangeVotes(ab[0].1[1]) == [2]
    ensures |ab[1].1| == 2 && Voter(ab[1].1[0]) == 1 && Voter(ab[1].1[1]) == 0
    ensures RangeVotes(ab[1].1[0]) == [1] && RangeVotes(ab[1].1[1]) == [1, 2]
  {
    var votes := new Votes.From(["A", "B"]);
    var wanted: seq<(Key, seq<VoteRange>)> := [("A", []), ("B", [])];
    assert KeyLess("A", "B");
    assert KeySet(wanted) == {"A", "B"} == KeySet(votes.entries) by {
      assert wanted[0].0 == "A" && wanted[1].0 == "B";
      assert Elements(["A", "B"]) == {"A", "B"};
    }
    OrderedUnique(votes.entries, wanted);
    votes.Add([("A", NewVoteRange(1, 1, 1)), ("B", NewVoteRange(1, 1, 1))]);
    votes.Add([("A", NewVoteRange(0, 2, 2)), ("B", NewVoteRange(0, 1, 2))]);
    ab := votes.IntoIter();
    assert ab == votes.entries;
  }
}
