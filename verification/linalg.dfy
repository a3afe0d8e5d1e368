/** Two-dimensional real vectors and dense matrices, the slice of `nalgebra`
    the solver and the dynamics example use. */
module LinAlg {

  /** The square `r * r`. The second factor goes through `Same` so that the
      prover sees an ordinary product of two terms rather than a power. */
  function Square(r: real): real {
    r * Same(r)
  }

  function Same(r: real): real {
    r
  }

  /** A number and its negation have the same square. */
  lemma SquareOfNeg(r: real)
    ensures Square(-r) == Square(r)
  {
  }

  /** A square is never negative, and it is zero exactly at zero. */
  lemma SquareSign(r: real)
    ensures Square(r) >= 0.0
    ensures Square(r) == 0.0 <==> r == 0.0
  {
    if r > 0.0 {
      assert r * Same(r) > 0.0;
    } else if r < 0.0 {
      assert (-r) * (-Same(r)) > 0.0;
    }
  }

  /** The absolute value. */
  function Abs(x: real): (a: real)
    ensures a >= 0.0 && (a == x || a == -x)
  {
    if x < 0.0 then -x else x
  }

  lemma AbsOfNeg(x: real)
    ensures Abs(-x) == Abs(x)
  {
  }

  datatype Vec2 = Vec2(x: real, y: real)

  const Zero2: Vec2 := Vec2(0.0, 0.0)

  function Add(a: Vec2, b: Vec2): Vec2 {
    Vec2(a.x + b.x, a.y + b.y)
  }

  function Neg(a: Vec2): Vec2 {
    Vec2(-a.x, -a.y)
  }

  function Scale(a: Vec2, k: real): Vec2 {
    Vec2(a.x * k, a.y * k)
  }

  /** Division of a vector by a scalar; nalgebra's `v / m`. */
  function Div(a: Vec2, m: real): Vec2
    requires m != 0.0
  {
    Vec2(a.x / m, a.y / m)
  }

  function Dot(a: Vec2, b: Vec2): real {
    a.x * b.x + a.y * b.y
  }

  function NormSquared(a: Vec2): real {
    Dot(a, a)
  }

  /** Scaling either factor of a dot product scales the product. */
  lemma DotScale(a: Vec2, k: real, b: Vec2)
    ensures Dot(Scale(a, k), b) == k * Dot(a, b)
  {
    assert (a.x * k) * b.x == k * (a.x * b.x);
    assert (a.y * k) * b.y == k * (a.y * b.y);
  }

  /** A vector's squared norm is never negative, and zero only for the zero
      vector. */
  lemma NormSquaredSign(v: Vec2)
    ensures NormSquared(v) >= 0.0
    ensures NormSquared(v) == 0.0 <==> v == Zero2
  {
    SquareSign(v.x);
    SquareSign(v.y);
    assert NormSquared(v) == Square(v.x) + Square(v.y);
  }

  /** `len` is the Euclidean length `v.norm()` of `v`: non-negative with
      square `|v|^2`. Square roots are outside this model, so callers pass
      the length alongside the vector. */
  predicate IsLength(len: real, v: Vec2) {
    len >= 0.0 && Square(len) == NormSquared(v)
  }

  lemma ZeroHasLengthZero()
    ensures IsLength(0.0, Zero2)
  {
    assert Square(0.0) == 0.0;
  }

  /** Only the zero vector has length zero. */
  lemma LengthZeroIff(len: real, v: Vec2)
    requires IsLength(len, v)
    ensures len == 0.0 <==> v == Zero2
  {
    SquareSign(len);
    NormSquaredSign(v);
  }

  /** The invariant of nalgebra's `UnitVector2`: length one. It is kept as
      a predicate that the members needing it require, rather than as a
      subset type, so that the quadratic fact enters only the proofs that
      use it. */
  predicate IsUnit(v: Vec2) {
    Square(v.x) + Square(v.y) == 1.0
  }

  /** A dense `rows` x `cols` matrix stored row by row. */
  datatype RawMatrix<T> = RawMatrix(rows: nat, cols: nat, data: seq<seq<T>>) {
    ghost predicate WellShaped() {
      && |data| == rows
      && forall i | 0 <= i < |data| :: |data[i]| == cols
    }
  }

  /** nalgebra's `DMatrix`: its shape always agrees with its storage. */
  type Matrix<T> = m: RawMatrix<T> | m.WellShaped() witness RawMatrix(0, 0, [])

  function At<T>(m: Matrix<T>, i: nat, j: nat): T
    requires i < m.rows && j < m.cols
  {
    m.data[i][j]
  }

  /** A derivative of a function of `n` inputs with `outputs` outputs: at
      every input of length `n` it is an `outputs` x `n` matrix. */
  ghost predicate HasShape<T>(d: seq<real> -> Matrix<T>, n: nat, outputs: nat) {
    forall p: seq<real> | |p| == n :: d(p).rows == outputs && d(p).cols == n
  }
}
