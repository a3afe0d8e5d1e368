/** Residual aggregation (`ResidAggHOF`): turns the transformed residual
    vector into the optimiser's output vector. Scalar aggregators
    (`ResidAggFnToScalarGen`) reduce it to one value; `ResidNoOpGaussNewton`
    passes it through for Gauss-Newton. */
module Aggregation {
  import opened SolutionPlan

  /** The to-scalar generators. `ResidAggSum` is the only one. */
  datatype ScalarAgg = ResidAggSum

  /** An aggregator: any to-scalar generator (through the blanket
      implementation) or the Gauss-Newton pass-through of width `n`. */
  datatype ResidAgg = ToScalar(gen: ScalarAgg) | ResidNoOpGaussNewton(n: nat)

  /** A left fold of `+` starting from 0: nothing sums to 0, one residual
      to itself, and residuals that are all zero to 0. */
  function FoldSum(rs: seq<real>): (total: real)
    ensures |rs| == 0 ==> total == 0.0
    ensures |rs| == 1 ==> total == rs[0]
    ensures (forall i | 0 <= i < |rs| :: rs[i] == 0.0) ==> total == 0.0
  {
    if |rs| == 0 then 0.0 else FoldSum(rs[..|rs| - 1]) + rs[|rs| - 1]
  }

  /** `make_residuals_to_scalar_fn`. */
  function ToScalarFn(gen: ScalarAgg, rs: seq<real>): real {
    match gen
    case ResidAggSum => FoldSum(rs)
  }

  /** `make_residual_operator_fn`. */
  function Operator(agg: ResidAgg, rs: seq<real>): (out: seq<real>)
    ensures agg.ToScalar? ==> out == [ScalarCost(agg, rs)]
    ensures agg.ResidNoOpGaussNewton? ==> out == rs
  {
    match agg
    case ToScalar(gen) => [ToScalarFn(gen, rs)]
    case ResidNoOpGaussNewton(_) => rs
  }

  /** `scalar_cost_f64`: whichever aggregator, the plain sum of the
      transformed residuals. */
  function ScalarCost(agg: ResidAgg, rs: seq<real>): (c: real)
    ensures c == FoldSum(rs)
  {
    match agg
    case ToScalar(gen) => ToScalarFn(gen, rs)
    case ResidNoOpGaussNewton(_) => FoldSum(rs)
  }

  /** `num_outputs`: the length of the operator's output, for any input of
      a scalar aggregator and for any input of the declared width of the
      pass-through. */
  function NumOutputs(agg: ResidAgg): (k: nat)
    ensures agg.ToScalar? ==> forall rs :: |Operator(agg, rs)| == k
    ensures agg.ResidNoOpGaussNewton? ==> forall rs | |rs| == agg.n :: |Operator(agg, rs)| == k
  {
    match agg
    case ToScalar(_) => 1
    case ResidNoOpGaussNewton(n) => n
  }

  /** `ResidNoOpGaussNewton::new_subprob`: one output per equation of the
      block. */
  function NoOpForSubprob(block: SolutionBlock): (a: ResidAgg)
    ensures NumOutputs(a) == |block.equationIdxs|
    ensures forall rs :: Operator(a, rs) == rs
  {
    ResidNoOpGaussNewton(|block.equationIdxs|)
  }

  /** `ResidNoOpGaussNewton::new_fullprob`: `n` outputs, passed through. */
  function NoOpForFullprob(n: nat): (a: ResidAgg)
    ensures NumOutputs(a) == n
    ensures forall rs :: Operator(a, rs) == rs
  {
    ResidNoOpGaussNewton(n)
  }

  /** Any scalar aggregator wraps its scalar into a vector of length one,
      which matches its declared output count, and its scalar cost is that
      same scalar. */
  lemma ScalarAggregatorShape(gen: ScalarAgg, rs: seq<real>)
    ensures |Operator(ToScalar(gen), rs)| == NumOutputs(ToScalar(gen)) == 1
    ensures Operator(ToScalar(gen), rs)[0] == ScalarCost(ToScalar(gen), rs)
  {
  }

  /** The pass-through aggregator leaves the residual vector untouched and its
      scalar cost is the plain (unsquared) sum. */
  lemma NoOpIsPassThrough(n: nat, rs: seq<real>)
    ensures Operator(ResidNoOpGaussNewton(n), rs) == rs
    ensures ScalarCost(ResidNoOpGaussNewton(n), rs) == FoldSum(rs)
  {
  }

  /** The fold splits over concatenation, so the sum does not depend on how
      the vector is cut. */
  lemma {:induction false} FoldSumAppend(a: seq<real>, b: seq<real>)
    ensures FoldSum(a + b) == FoldSum(a) + FoldSum(b)
    decreases |b|
  {
    if |b| == 0 {
      assert a + b == a;
    } else {
      var b' := b[..|b| - 1];
      assert (a + b)[..|a + b| - 1] == a + b';
      FoldSumAppend(a, b');
    }
  }

  /** A sum of non-negative terms is non-negative, and it is zero exactly when
      every term is zero. */
  lemma {:induction false} FoldSumNonNegZeroIff(rs: seq<real>)
    requires forall i | 0 <= i < |rs| :: rs[i] >= 0.0
    ensures FoldSum(rs) >= 0.0
    ensures FoldSum(rs) == 0.0 <==> forall i | 0 <= i < |rs| :: rs[i] == 0.0
  {
    if |rs| > 0 {
      var init := rs[..|rs| - 1];
      FoldSumNonNegZeroIff(init);
      if FoldSum(rs) == 0.0 {
        forall i | 0 <= i < |rs| ensures rs[i] == 0.0 {
          if i < |rs| - 1 {
            assert rs[i] == init[i];
          }
        }
      }
    }
  }
}
