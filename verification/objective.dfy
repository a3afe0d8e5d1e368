/** The objective function: residual functions of (givens, unknowns), an
    optional parameter scaler, a residual transform generator and an
    aggregator, evaluated on one input vector. */
module Objective {
  import opened Wrappers
  import LinAlg
  import opened Transformation
  import opened Aggregation

  /** Applies a coordinate function to every position of a vector. */
  function MapCoords(f: (nat, real) -> real, v: seq<real>): (r: seq<real>)
    ensures |r| == |v|
    ensures forall i | 0 <= i < |v| :: r[i] == f(i, v[i])
  {
    seq(|v|, i requires 0 <= i < |v| => f(i, v[i]))
  }

  /** `ParamScaler`: the link functions between model space and optimisation
      space. The only builder works coordinate by coordinate, so each link is
      a function of the coordinate's position and value. */
  datatype ParamScaler = ParamScaler(modelToOpt: (nat, real) -> real, optToModel: (nat, real) -> real)

  /** `ParamScaler::model_to_opt`. */
  function ModelToOpt(s: ParamScaler, p: seq<real>): (r: seq<real>)
    ensures |r| == |p|
    ensures forall i | 0 <= i < |p| :: r[i] == s.modelToOpt(i, p[i])
  {
    MapCoords(s.modelToOpt, p)
  }

  /** `ParamScaler::opt_to_model`. */
  function OptToModel(s: ParamScaler, p: seq<real>): (r: seq<real>)
    ensures |r| == |p|
    ensures forall i | 0 <= i < |p| :: r[i] == s.optToModel(i, p[i])
  {
    MapCoords(s.optToModel, p)
  }

  /** A scaler whose two links undo each other coordinate by coordinate. */
  ghost predicate RoundTrips(s: ParamScaler) {
    forall i: nat, x: real :: s.optToModel(i, s.modelToOpt(i, x)) == x
  }

  /** With inverse links, going to optimisation space and back is the
      identity on whole vectors. */
  lemma ScalerRoundTrip(s: ParamScaler, p: seq<real>)
    requires RoundTrips(s)
    ensures OptToModel(s, ModelToOpt(s, p)) == p
  {
    var q := OptToModel(s, ModelToOpt(s, p));
    forall i | 0 <= i < |p| ensures q[i] == p[i] {
      assert q[i] == s.optToModel(i, s.modelToOpt(i, p[i]));
    }
  }

  /** `l2_loss_fns(n)`: `n` loss functions, each squaring its residual. */
  function L2LossFns(n: nat): (fs: seq<LossFn>)
    ensures |fs| == n
    ensures forall i | 0 <= i < n :: Defined(fs[i]) && forall r :: ApplyLoss(fs[i], r) == LinAlg.Square(r)
  {
    seq(n, _ => SquareFn)
  }

  /** `l2_loss_fns(n)` yields the same functions as the unscaled L2
      generator of width `n`: `n` squares, each non-negative. */
  lemma L2LossFnsAreUnscaledL2(n: nat)
    ensures L2LossFns(n) == MakeLossFns(ResidTransUnscaledL2(n))
    ensures |L2LossFns(n)| == n
    ensures forall i | 0 <= i < n :: L2LossFns(n)[i] == SquareFn
  {
  }

  /** `sum_loss`: the same total as the summing aggregator's scalar cost;
      non-negative losses give a non-negative total. */
  function SumLoss(rs: seq<real>): (total: real)
    ensures total == ScalarCost(ToScalar(ResidAggSum), rs)
    ensures (forall i | 0 <= i < |rs| :: rs[i] >= 0.0) ==> total >= 0.0
  {
    if forall i | 0 <= i < |rs| :: rs[i] >= 0.0 then
      FoldSumNonNegZeroIff(rs);
      FoldSum(rs)
    else
      FoldSum(rs)
  }

  /** `sum_loss` agrees with the `ResidAggSum` aggregator's single output,
      gives 0 on no residuals and splits over concatenation. */
  lemma SumLossIsSumAggregator(rs: seq<real>, more: seq<real>)
    ensures Operator(ToScalar(ResidAggSum), rs) == [SumLoss(rs)]
    ensures SumLoss([]) == 0.0
    ensures SumLoss(rs + more) == SumLoss(rs) + SumLoss(more)
  {
    FoldSumAppend(rs, more);
  }

  /** `ObjectiveFunction`: `n` is the const generic length `N` of the input
      array. A residual function reads the givens and the model-space
      unknowns. */
  datatype ObjectiveFunction<!G> = ObjectiveFunction(
    givens: G,
    fns: seq<(G, seq<real>) -> real>,
    trans: ResidTrans,
    agg: ResidAgg,
    scaling: Option<ParamScaler>,
    n: nat)

  /** The unknowns handed to the residual functions: through `opt_to_model`
      when a scaler is present, unchanged otherwise. */
  function ModelInputs<G>(obj: ObjectiveFunction<G>, inputs: seq<real>): (p: seq<real>)
  {
    match obj.scaling
    case Some(s) => OptToModel(s, inputs)
    case None => inputs
  }

  /** Every residual function evaluated once, in list order. */
  function EvalResiduals<G>(obj: ObjectiveFunction<G>, p: seq<real>): (rs: seq<real>)
    ensures |rs| == |obj.fns|
    ensures forall i | 0 <= i < |rs| :: rs[i] == obj.fns[i](obj.givens, p)
  {
    seq(|obj.fns|, i requires 0 <= i < |obj.fns| => obj.fns[i](obj.givens, p))
  }

  /** Zips the transforms with the residuals; the longer list's extra
      elements have no partner and are dropped. */
  function ZipApply(fs: seq<LossFn>, rs: seq<real>): (out: seq<real>)
    requires forall i | 0 <= i < |fs| :: Defined(fs[i])
    ensures |out| <= |fs| && |out| <= |rs|
    ensures |out| == |fs| || |out| == |rs|
    ensures forall i | 0 <= i < |out| :: out[i] == ApplyLoss(fs[i], rs[i])
  {
    var k := if |fs| <= |rs| then |fs| else |rs|;
    seq(k, i requires 0 <= i < k => ApplyLoss(fs[i], rs[i]))
  }

  /** `ObjectiveFunction::call`. A wrong input length aborts; otherwise the
      aggregator is applied to the zipped, transformed residuals. A zero
      scale in `ResidTransScaledL2` would divide by zero, which the real
      numbers leave undefined, hence the precondition. */
  function Call<G>(obj: ObjectiveFunction<G>, inputs: seq<real>): (r: Result<seq<real>>)
    requires TransDefined(obj.trans)
    ensures r.Err? <==> |inputs| != obj.n
    ensures r.Err? ==> r.error.Panic?
    ensures r.Ok? && obj.agg.ToScalar? ==> |r.value| == 1
    ensures r.Ok? && obj.agg.ResidNoOpGaussNewton? ==>
              |r.value| == (if |MakeLossFns(obj.trans)| <= |obj.fns| then |MakeLossFns(obj.trans)| else |obj.fns|)
    ensures r.Ok? && obj.agg.ResidNoOpGaussNewton? ==>
              forall i | 0 <= i < |r.value| ::
                && i < |obj.fns| && i < |MakeLossFns(obj.trans)|
                && r.value[i] == ApplyLoss(MakeLossFns(obj.trans)[i], obj.fns[i](obj.givens, ModelInputs(obj, inputs)))
    ensures r.Ok? && obj.agg.ToScalar? ==>
              r.value[0] == ScalarCost(obj.agg, ZipApply(MakeLossFns(obj.trans), EvalResiduals(obj, ModelInputs(obj, inputs))))
  {
    if |inputs| != obj.n then
      Err(Panic("`inputs` length mismatch in `ResidualsFunctions::call`"))
    else
      var rs := EvalResiduals(obj, ModelInputs(obj, inputs));
      Ok(Operator(obj.agg, ZipApply(MakeLossFns(obj.trans), rs)))
  }

  /** `num_inputs`: the one input length a call accepts. */
  function NumInputs<G>(obj: ObjectiveFunction<G>): (k: nat)
    ensures TransDefined(obj.trans) ==> forall inputs :: Call(obj, inputs).Ok? <==> |inputs| == k
  {
    obj.n
  }

  /** `num_outputs`: the aggregator's, which is the length of every
      successful call's output when the aggregator is scalar, or when the
      pass-through's width matches the zipped residuals. */
  function NumOutputs<G>(obj: ObjectiveFunction<G>): (k: nat)
    ensures TransDefined(obj.trans) && obj.agg.ToScalar? ==>
              forall inputs | |inputs| == obj.n :: |Call(obj, inputs).value| == k
    ensures TransDefined(obj.trans) && obj.agg.ResidNoOpGaussNewton? && obj.agg.n == |obj.fns| == |MakeLossFns(obj.trans)| ==>
              forall inputs | |inputs| == obj.n :: |Call(obj, inputs).value| == k
  {
    Aggregation.NumOutputs(obj.agg)
  }

  /** A call accepts exactly the inputs of the declared input length, and a
      scalar aggregator's call yields as many outputs as it declares; so does
      the pass-through whose width matches the number of zipped residuals. */
  lemma CallMatchesDeclaredWidths<G>(obj: ObjectiveFunction<G>, inputs: seq<real>)
    requires TransDefined(obj.trans)
    ensures Call(obj, inputs).Ok? <==> |inputs| == NumInputs(obj)
    ensures Call(obj, inputs).Ok? && obj.agg.ToScalar? ==> |Call(obj, inputs).value| == NumOutputs(obj)
    ensures Call(obj, inputs).Ok? && obj.agg.ResidNoOpGaussNewton? &&
            obj.agg.n == |obj.fns| == |MakeLossFns(obj.trans)| ==>
              |Call(obj, inputs).value| == NumOutputs(obj)
  {
  }

  /** Without a scaler the residual functions see the inputs themselves;
      with one, they see the inputs mapped through `opt_to_model`. */
  lemma CallUsesModelSpace<G>(obj: ObjectiveFunction<G>, inputs: seq<real>)
    requires |inputs| == obj.n
    ensures obj.scaling.None? ==> ModelInputs(obj, inputs) == inputs
    ensures obj.scaling.Some? ==>
              forall i | 0 <= i < |inputs| ::
                ModelInputs(obj, inputs)[i] == obj.scaling.value.optToModel(i, inputs[i])
  {
  }

  /** The pass-through aggregator with the identity transform returns the raw
      residuals, one per function, in list order. */
  lemma IdentityPassThroughReturnsResiduals<G>(obj: ObjectiveFunction<G>, inputs: seq<real>)
    requires |inputs| == obj.n
    requires obj.trans == ResidTransIdentity(|obj.fns|)
    requires obj.agg.ResidNoOpGaussNewton?
    ensures Call(obj, inputs) == Ok(EvalResiduals(obj, ModelInputs(obj, inputs)))
  {
    var rs := EvalResiduals(obj, ModelInputs(obj, inputs));
    var fs := MakeLossFns(obj.trans);
    forall i | 0 <= i < |rs| ensures ZipApply(fs, rs)[i] == rs[i] {
      IdentityFnsAreIdentity(|obj.fns|, i, rs[i]);
    }
    assert ZipApply(fs, rs) == rs;
  }

  /** Residual functions past the last transform never reach the output:
      the call agrees with the call on the functions that have a partner. */
  lemma ExtraResidualsAreDropped<G>(obj: ObjectiveFunction<G>, inputs: seq<real>)
    requires TransDefined(obj.trans)
    requires |MakeLossFns(obj.trans)| <= |obj.fns|
    ensures Call(obj, inputs) == Call(obj.(fns := obj.fns[..|MakeLossFns(obj.trans)|]), inputs)
  {
    var fs := MakeLossFns(obj.trans);
    var short := obj.(fns := obj.fns[..|fs|]);
    if |inputs| == obj.n {
      var p := ModelInputs(obj, inputs);
      assert ModelInputs(short, inputs) == p;
      assert ZipApply(fs, EvalResiduals(obj, p)) == ZipApply(fs, EvalResiduals(short, p));
    }
  }

  /** With an unscaled L2 transform that covers every residual function and
      the sum aggregator, the single output is never negative, and it is
      zero exactly when every residual is zero. */
  lemma {:induction false} L2SumIsZeroExactlyAtRoots<G>(obj: ObjectiveFunction<G>, inputs: seq<real>)
    requires |inputs| == obj.n
    requires obj.trans.ResidTransUnscaledL2? && obj.trans.n >= |obj.fns|
    requires obj.agg == ToScalar(ResidAggSum)
    ensures Call(obj, inputs).Ok?
    ensures |Call(obj, inputs).value| == 1
    ensures Call(obj, inputs).value[0] >= 0.0
    ensures Call(obj, inputs).value[0] == 0.0 <==>
              forall i | 0 <= i < |obj.fns| :: obj.fns[i](obj.givens, ModelInputs(obj, inputs)) == 0.0
  {
    var rs := EvalResiduals(obj, ModelInputs(obj, inputs));
    var sq := ZipApply(MakeLossFns(obj.trans), rs);
    assert |sq| == |rs|;
    forall i | 0 <= i < |sq| ensures sq[i] >= 0.0 && (sq[i] == 0.0 <==> rs[i] == 0.0) {
      UnscaledL2FnsSquare(obj.trans.n, i, rs[i]);
    }
    FoldSumNonNegZeroIff(sq);
    assert Call(obj, inputs).value == [FoldSum(sq)];
  }

  /** The set-up every Gauss-Newton block uses (unscaled L2 losses, the
      pass-through aggregator): a call returns, for each residual function,
      the square of its residual, so every output is non-negative and all
      of them vanish exactly at a common root. */
  lemma GaussNewtonCallSquaresResiduals<G>(obj: ObjectiveFunction<G>, inputs: seq<real>)
    requires |inputs| == obj.n
    requires obj.trans.ResidTransUnscaledL2? && obj.trans.n >= |obj.fns|
    requires obj.agg.ResidNoOpGaussNewton?
    ensures Call(obj, inputs).Ok?
    ensures |Call(obj, inputs).value| == |obj.fns|
    ensures forall i | 0 <= i < |obj.fns| ::
              var r := obj.fns[i](obj.givens, ModelInputs(obj, inputs));
              Call(obj, inputs).value[i] == LinAlg.Square(r) && Call(obj, inputs).value[i] >= 0.0
    ensures (forall i | 0 <= i < |obj.fns| :: Call(obj, inputs).value[i] == 0.0) <==>
              (forall i | 0 <= i < |obj.fns| :: obj.fns[i](obj.givens, ModelInputs(obj, inputs)) == 0.0)
  {
    var out := Call(obj, inputs).value;
    var at := ModelInputs(obj, inputs);
    forall i | 0 <= i < |obj.fns|
      ensures out[i] == LinAlg.Square(obj.fns[i](obj.givens, at)) && out[i] >= 0.0
      ensures out[i] == 0.0 <==> obj.fns[i](obj.givens, at) == 0.0
    {
      LinAlg.SquareSign(obj.fns[i](obj.givens, at));
    }
  }
}
