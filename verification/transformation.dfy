/** Per-residual transforms (`ResidTransHOF`): each generator yields a list of
    scalar functions applied element-wise to the residual vector. */
module Transformation {
  import opened LinAlg

  /** The scalar functions the generators produce. */
  datatype LossFn = IdentityFn | SquareFn | ScaledSquareFn(scale: real)

  /** Real division by a zero scale has no value; f64 would give an infinity
      or NaN there, which this model leaves out. */
  predicate Defined(f: LossFn) {
    f.ScaledSquareFn? ==> f.scale != 0.0
  }

  function ApplyLoss(f: LossFn, r: real): real
    requires Defined(f)
  {
    match f
    case IdentityFn => r
    case SquareFn => Square(r)
    case ScaledSquareFn(s) => Square(r) / s
  }

  /** The three generators: `ResidTransIdentity { n }`,
      `ResidTransUnscaledL2 { n }` and `ResidTransScaledL2 { scales }`. */
  datatype ResidTrans =
    | ResidTransIdentity(n: nat)
    | ResidTransUnscaledL2(n: nat)
    | ResidTransScaledL2(scales: seq<real>)

  predicate TransDefined(t: ResidTrans) {
    t.ResidTransScaledL2? ==> forall i | 0 <= i < |t.scales| :: t.scales[i] != 0.0
  }

  /** `make_loss_fns`: generated from the generator alone, never from the
      residuals. */
  function MakeLossFns(t: ResidTrans): (fs: seq<LossFn>)
    ensures |fs| == (if t.ResidTransScaledL2? then |t.scales| else t.n)
    ensures TransDefined(t) ==> forall i | 0 <= i < |fs| :: Defined(fs[i])
  {
    match t
    case ResidTransIdentity(n) => seq(n, _ => IdentityFn)
    case ResidTransUnscaledL2(n) => seq(n, _ => SquareFn)
    case ResidTransScaledL2(scales) =>
      seq(|scales|, i requires 0 <= i < |scales| => ScaledSquareFn(scales[i]))
  }

  /** Every function of the identity generator returns its residual. */
  lemma IdentityFnsAreIdentity(n: nat, i: nat, r: real)
    requires i < n
    ensures |MakeLossFns(ResidTransIdentity(n))| == n
    ensures ApplyLoss(MakeLossFns(ResidTransIdentity(n))[i], r) == r
  {
  }

  /** Every function of the unscaled L2 generator squares its residual, so
      its output is never negative and is zero only for a zero residual. */
  lemma UnscaledL2FnsSquare(n: nat, i: nat, r: real)
    requires i < n
    ensures var f := MakeLossFns(ResidTransUnscaledL2(n))[i];
            && ApplyLoss(f, r) == Square(r)
            && ApplyLoss(f, r) >= 0.0
            && (ApplyLoss(f, r) == 0.0 <==> r == 0.0)
  {
    SquareSign(r);
  }

  /** The scaled L2 generator yields one function per scale; with a positive
      scale its output is never negative, and it is zero only for a zero
      residual. */
  lemma ScaledL2FnsDivideByScale(scales: seq<real>, i: nat, r: real)
    requires i < |scales| && scales[i] > 0.0
    ensures var f := MakeLossFns(ResidTransScaledL2(scales))[i];
            && f == ScaledSquareFn(scales[i])
            && ApplyLoss(f, r) * scales[i] == Square(r)
            && ApplyLoss(f, r) >= 0.0
            && (ApplyLoss(f, r) == 0.0 <==> r == 0.0)
  {
    SquareSign(r);
  }
}
