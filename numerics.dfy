/** Real-number helpers shared by the compressor model.
    Samples and parameters are modelled as exact reals instead of f32. The
    transcendental functions the source calls (`f32::sqrt`, `f32::exp`, and
    nih_plug's `db_to_gain` / `gain_to_db`) are code outside this model: they are
    passed in as function values, and the few laws a proof relies on are stated
    as predicates that the proofs take as premises. */
module Numerics {

  /** A value, or `None` where the f32 computation divides by zero on the path
      taken (a 0/0 or x/0); the model does not trace that value further. */
  datatype Option<T> = None | Some(value: T)

  function Abs(x: real): (r: real)
    ensures r >= 0.0 && (r == x || r == -x)
  {
    if x < 0.0 then -x else x
  }

  function Square(x: real): (r: real)
    ensures r >= 0.0
  {
    x * x
  }

  /** `r` lies on the closed segment between `a` and `b`, whichever is larger. */
  predicate Between(r: real, a: real, b: real)
  {
    (a <= r <= b) || (b <= r <= a)
  }

  /** The laws of `db_to_gain` (10^(dB/20), and 0 at or below -100 dB) that the
      proofs use: 0 dB is unity gain, no gain is negative, and the conversion is
      monotone. */
  ghost predicate DbToGainLaws(dbToGain: real -> real)
  {
    dbToGain(0.0) == 1.0 &&
    (forall x: real :: dbToGain(x) >= 0.0) &&
    forall x: real, y: real :: x <= y ==> dbToGain(x) <= dbToGain(y)
  }

  /** The law of `exp` that the proofs use: it maps negative arguments into (0, 1). */
  ghost predicate ExpLaws(exp: real -> real)
  {
    forall x: real :: x < 0.0 ==> 0.0 < exp(x) < 1.0
  }
}
