/** Vector clocks (`threshold::VClock`, which is not part of this model):
    for each process, the highest sequence number seen from it. A process
    the clock has no entry for counts as 0. */
module VectorClocks {
  import opened Ids

  type VClock = map<ProcessId, nat>

  /** The entry of process `p`. */
  function Get(c: VClock, p: ProcessId): nat
  {
    if p in c then c[p] else 0
  }

  function Max(a: nat, b: nat): (m: nat)
    ensures a <= m && b <= m && (m == a || m == b)
  {
    if a < b then b else a
  }

  /** The processes 1..n. */
  function ProcessIds(n: nat): (ps: set<ProcessId>)
    ensures forall p :: p in ps <==> 1 <= p <= n
  {
    if n == 0 then {} else ProcessIds(n - 1) + {n}
  }

  /** `bottom_clock(n)`: an entry 0 for each of the processes 1..n. */
  function Bottom(n: nat): (b: VClock)
    ensures forall p :: p in b <==> 1 <= p <= n
    ensures forall p :: Get(b, p) == 0
  {
    map p | p in ProcessIds(n) :: 0
  }

  /** `join`: the pointwise maximum. */
  function Join(a: VClock, b: VClock): (r: VClock)
    ensures forall p :: p in r <==> p in a || p in b
    ensures forall p :: Get(r, p) == Max(Get(a, p), Get(b, p))
  {
    map p | p in a.Keys + b.Keys :: Max(Get(a, p), Get(b, p))
  }

  /** `add(source, sequence)`: the dot is seen; the entry of its source
      becomes at least its sequence, and no other entry changes. */
  function AddDot(c: VClock, dot: Dot): (r: VClock)
    ensures forall p :: p in r <==> p in c || p == dot.source
    ensures Get(r, dot.source) == Max(Get(c, dot.source), dot.sequence)
    ensures forall p :: p != dot.source ==> Get(r, p) == Get(c, p)
  {
    c[dot.source := Max(Get(c, dot.source), dot.sequence)]
  }

  /** The clock `a` has seen no more than `b`. */
  ghost predicate Leq(a: VClock, b: VClock)
  {
    forall p :: Get(a, p) <= Get(b, p)
  }

  /** `c` has seen the dot. */
  predicate Includes(c: VClock, dot: Dot)
  {
    dot.sequence <= Get(c, dot.source)
  }

  /** The join is the least clock that has seen both. */
  lemma JoinLeast(a: VClock, b: VClock, c: VClock)
    ensures Leq(a, Join(a, b)) && Leq(b, Join(a, b))
    ensures Leq(a, c) && Leq(b, c) ==> Leq(Join(a, b), c)
  {
  }

  /** A clock that has seen more includes every dot the smaller one
      includes. */
  lemma LeqIncludes(a: VClock, b: VClock, dot: Dot)
    requires Leq(a, b) && Includes(a, dot)
    ensures Includes(b, dot)
  {
  }
}
