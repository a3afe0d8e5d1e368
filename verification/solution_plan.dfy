/** Solution plans: the ordered blocks of a block-triangular decomposition.
    Indices refer to positions in the original, unpermuted system. */
module SolutionPlan {

  /** One block: a subset of the equations solved for a subset of the unknowns. */
  datatype SolutionBlock = SolutionBlock(blockIdx: nat, equationIdxs: seq<nat>, unknownIdxs: seq<nat>)

  /** `SolutionPlan::new` only stores the blocks, in the given order. */
  datatype SolutionPlan = SolutionPlan(blocks: seq<SolutionBlock>)

  /** The Rust range `0..n` collected into a vector. */
  function Range(n: nat): (r: seq<nat>)
    ensures |r| == n
    ensures forall i | 0 <= i < n :: r[i] == i
  {
    seq(n, i requires 0 <= i => i as nat)
  }

  /** No index occurs twice. */
  predicate Distinct(s: seq<nat>) {
    forall i, j | 0 <= i < j < |s| :: s[i] != s[j]
  }

  /** Every index addresses one of `n` slots. */
  predicate AllBelow(s: seq<nat>, n: nat) {
    forall i | 0 <= i < |s| :: s[i] < n
  }

  /** The single block covering a whole square system of `size` equations. */
  function NewFullprob(size: nat): (b: SolutionBlock)
    ensures b.blockIdx == 0
    ensures b.equationIdxs == b.unknownIdxs
    ensures |b.unknownIdxs| == size
    ensures forall k: nat :: k in b.unknownIdxs <==> k < size
    ensures Distinct(b.unknownIdxs) && AllBelow(b.unknownIdxs, size)
  {
    var r := Range(size);
    forall k: nat | k < size ensures k in r {
      assert r[k] == k;
    }
    assert forall k: nat | k in r :: k < size by {
      forall k: nat | k in r ensures k < size {
        var i :| 0 <= i < |r| && r[i] == k;
      }
    }
    SolutionBlock(0, r, r)
  }
}
