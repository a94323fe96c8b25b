/**
 * The floating-point transforms the loader applies, over the reals. The
 * exponential and Eigen's row normalisation come from libraries outside this
 * model and are parameters here; all that is assumed of them is what their
 * types say.
 */
module Numerics {

  /** An exponential: positive everywhere. */
  type Exp = f: real -> real | forall x :: f(x) > 0.0 witness (x: real) => 1.0

  /** A vector normalisation (Eigen's normalize()): keeps the vector's length. */
  type Normalizer = f: seq<real> -> seq<real> | forall q :: |f(q)| == |q| witness (q: seq<real>) => q

  /** The library functions the loader calls, element-wise or row-wise. */
  datatype FloatOps = FloatOps(exp: Exp, normalize: Normalizer)

  /** 1 / (1 + exp(-v)), the activation applied to the stored opacity. */
  function Logistic(exp: Exp, v: real): (o: real)
    ensures 0.0 < o < 1.0
  {
    var e := exp(-v);
    assert e > 0.0;
    1.0 / (1.0 + e)
  }
}
