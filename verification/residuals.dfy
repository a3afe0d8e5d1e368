/** Residual function lists and their restriction to one solution block.

    A residual function itself is opaque to this model: the lists are generic
    in the element type, `F` for the f64 functions and `A` for their
    automatic-differentiation twins. */
module Residuals {
  import opened Wrappers
  import opened SolutionPlan

  /** `ResidualFns`: the same residual functions in two numeric forms, with
      their names. */
  datatype ResidualFns<F, A> = ResidualFns(f64: seq<F>, adfn1: seq<A>, fnNames: seq<string>)

  /** The positions `0..n` that occur in `idxs`, ascending: the positions the
      block filter keeps from a list of length `n`. */
  function KeptPositions(n: nat, idxs: seq<nat>): (r: seq<nat>)
    ensures forall i: nat :: i in r <==> i < n && i in idxs
    ensures forall k | 0 <= k < |r| :: r[k] < n
    ensures forall k, l | 0 <= k < l < |r| :: r[k] < r[l]
  {
    if n == 0 then []
    else KeptPositions(n - 1, idxs) + (if n - 1 in idxs then [n - 1] else [])
  }

  /** The free function `filter_res_fns_to_block`: keeps the functions whose
      position in `fns` is one of the block's equation indices. */
  function FilterToBlock<F>(fns: seq<F>, block: SolutionBlock): (r: seq<F>)
    ensures |r| == |KeptPositions(|fns|, block.equationIdxs)|
    ensures forall k | 0 <= k < |r| :: r[k] == fns[KeptPositions(|fns|, block.equationIdxs)[k]]
  {
    if |fns| == 0 then []
    else
      var n := |fns| - 1;
      FilterToBlock(fns[..n], block) + (if n in block.equationIdxs then [fns[n]] else [])
  }

  /** `ResidualFns::filter_res_fns_to_block`. Both function lists go through
      the positional filter; the names are looked up one per equation index,
      in the block's order, which panics on an index past the name list. */
  function FilterResFns<F, A>(fns: ResidualFns<F, A>, block: SolutionBlock): (r: Result<ResidualFns<F, A>>)
    ensures r.Ok? <==> AllBelow(block.equationIdxs, |fns.fnNames|)
    ensures r.Err? ==> r.error.Panic?
    ensures r.Ok? ==> r.value.f64 == FilterToBlock(fns.f64, block)
    ensures r.Ok? ==> r.value.adfn1 == FilterToBlock(fns.adfn1, block)
    ensures r.Ok? ==> |r.value.fnNames| == |block.equationIdxs|
    ensures r.Ok? ==> forall k | 0 <= k < |block.equationIdxs| ::
                        r.value.fnNames[k] == fns.fnNames[block.equationIdxs[k]]
  {
    var f64 := FilterToBlock(fns.f64, block);
    var adfn1 := FilterToBlock(fns.adfn1, block);
    if AllBelow(block.equationIdxs, |fns.fnNames|) then
      var names := seq(|block.equationIdxs|, k requires 0 <= k < |block.equationIdxs| =>
                         fns.fnNames[block.equationIdxs[k]]);
      Ok(ResidualFns(f64, adfn1, names))
    else
      Err(Panic("index out of bounds: equation index past the residual function names"))
  }

  /** A function is kept exactly when its position is an equation index of
      the block, and the kept functions keep their original relative order
      whatever the order of, or repetitions in, the equation indices. */
  lemma FilterKeepsExactlyBlockPositions<F>(fns: seq<F>, block: SolutionBlock)
    ensures var pos := KeptPositions(|fns|, block.equationIdxs);
            && |FilterToBlock(fns, block)| == |pos|
            && (forall i: nat :: i in pos <==> i < |fns| && i in block.equationIdxs)
            && (forall k, l | 0 <= k < l < |pos| :: pos[k] < pos[l])
            && (forall k | 0 <= k < |pos| :: FilterToBlock(fns, block)[k] == fns[pos[k]])
  {
  }

  /** Filtering two lists of equal length by the same block keeps equally
      many elements, so the f64 and AD lists stay aligned. */
  lemma FilterPreservesEqualLength<F, A>(fs: seq<F>, gs: seq<A>, block: SolutionBlock)
    requires |fs| == |gs|
    ensures |FilterToBlock(fs, block)| == |FilterToBlock(gs, block)|
  {
  }

  /** The block filter never lengthens a list. */
  lemma {:induction false} FilterNeverLengthens<F>(fns: seq<F>, block: SolutionBlock)
    ensures |FilterToBlock(fns, block)| <= |fns|
  {
    KeptPositionsAtMost(|fns|, block.equationIdxs);
  }

  lemma {:induction false} KeptPositionsAtMost(n: nat, idxs: seq<nat>)
    ensures |KeptPositions(n, idxs)| <= n
  {
    if n > 0 {
      KeptPositionsAtMost(n - 1, idxs);
    }
  }

  lemma {:induction false} KeptPositionsOfFullRange(n: nat, idxs: seq<nat>)
    requires forall i: nat | i < n :: i in idxs
    ensures KeptPositions(n, idxs) == Range(n)
  {
    if n > 0 {
      KeptPositionsOfFullRange(n - 1, idxs);
      assert Range(n) == Range(n - 1) + [n - 1];
    }
  }

  /** Filtering with the whole-problem block `0..n` gives back the function
      lists and the names unchanged. */
  lemma FilterFullBlockIsIdentity<F, A>(fns: ResidualFns<F, A>)
    requires |fns.f64| == |fns.adfn1| == |fns.fnNames|
    ensures var r := FilterResFns(fns, NewFullprob(|fns.f64|));
            r.Ok? && r.value == fns
  {
    var n := |fns.f64|;
    var block := NewFullprob(n);
    KeptPositionsOfFullRange(n, block.equationIdxs);
    var r := FilterResFns(fns, block);
    assert r.value.f64 == fns.f64;
    assert r.value.adfn1 == fns.adfn1;
    assert r.value.fnNames == fns.fnNames;
  }

  /** The names follow the equation indices while the functions follow the
      original list: with unsorted, repeated indices the two disagree. */
  lemma NamesCanMisalignWithFunctions()
    ensures var r := FilterResFns(ResidualFns([10, 11], [10, 11], ["a", "b"]),
                                  SolutionBlock(0, [1, 0, 1], [0]));
            && r.Ok?
            && r.value.f64 == [10, 11]
            && r.value.fnNames == ["b", "a", "b"]
  {
    var block := SolutionBlock(0, [1, 0, 1], [0]);
    var pos := KeptPositions(2, block.equationIdxs);
    assert 0 in pos && 1 in pos;
    assert pos == [0, 1];
  }

  /** Names are looked up eagerly: one equation index past the name list
      aborts, even though the positional function filter would ignore it. */
  lemma OutOfRangeIndexPanicsOnlyInNames()
    ensures FilterToBlock([10, 11], SolutionBlock(0, [0, 5], [0])) == [10]
    ensures FilterResFns(ResidualFns([10, 11], [10, 11], ["a", "b"]),
                         SolutionBlock(0, [0, 5], [0])).Err?
  {
    var block := SolutionBlock(0, [0, 5], [0]);
    var pos := KeptPositions(2, block.equationIdxs);
    assert 0 in pos && 1 !in pos;
    assert pos == [0];
    assert block.equationIdxs[1] == 5;
  }
}
