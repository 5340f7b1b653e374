/** Bote's quorum sizes: how many of `n` processes each protocol waits for
    when `f` of them may fail. Integer division is that of `usize`. */
module Bote {
  datatype Protocol = Atlas | FPaxos | EPaxos

  /** `quorum_size`. */
  function QuorumSize(p: Protocol, n: nat, f: nat): nat
  {
    match p
    case Atlas =>
      var half := n / 2;
      half + f
    case FPaxos => f + 1
    case EPaxos =>
      // a minority of the processes, whatever `f` was given
      var minority := n / 2;
      minority + (minority + 1) / 2
  }

  /** FPaxos does not depend on `n`, and EPaxos does not depend on `f`. */
  lemma QuorumSizeIgnores(n: nat, m: nat, f: nat, g: nat)
    ensures QuorumSize(FPaxos, n, f) == QuorumSize(FPaxos, m, f)
    ensures QuorumSize(EPaxos, n, f) == QuorumSize(EPaxos, n, g)
  {
  }

  /** Two Atlas quorums intersect as soon as one failure is tolerated, and
      the quorum fits in the system as long as `f` is at most a majority. */
  lemma AtlasQuorums(n: nat, f: nat)
    ensures 1 <= f ==> 2 * QuorumSize(Atlas, n, f) > n
    ensures QuorumSize(Atlas, n, f) <= n <==> f <= n - n / 2
  {
  }

  /** An EPaxos fast quorum (with at least two processes) is a majority
      that fits in the system, and one more than the minority `n / 2`
      plus half of it. */
  lemma EPaxosQuorums(n: nat)
    requires 2 <= n
    ensures 2 * QuorumSize(EPaxos, n, 0) > n
    ensures QuorumSize(EPaxos, n, 0) <= n
    ensures n / 2 + 1 <= QuorumSize(EPaxos, n, 0)
  {
    var m := n / 2;
    assert 1 <= m && n <= 2 * m + 1;
    assert 1 <= (m + 1) / 2 <= m;
  }

  /** The sizes the `quorum_size` test of protocol.rs checks. */
  lemma QuorumSizeValues()
    ensures QuorumSize(Atlas, 3, 1) == 2 && QuorumSize(Atlas, 5, 1) == 3 && QuorumSize(Atlas, 5, 2) == 4
    ensures QuorumSize(FPaxos, 3, 1) == 2 && QuorumSize(FPaxos, 5, 1) == 2 && QuorumSize(FPaxos, 5, 2) == 3
    ensures QuorumSize(EPaxos, 3, 0) == 2 && QuorumSize(EPaxos, 5, 0) == 3 && QuorumSize(EPaxos, 7, 0) == 5
    ensures QuorumSize(EPaxos, 9, 0) == 6 && QuorumSize(EPaxos, 11, 0) == 8 && QuorumSize(EPaxos, 13, 0) == 9
  {
  }
}
