/** The one-pole recursive blend used twice in the source: by the compressor's
    attack/release smoother (dsp/src/lib.rs, `update_gain`) and by the low-pass
    filter (src/dsp.rs, `LPF::process`). Both compute
    `(1 - c) * input + c * previous` for a coefficient `c`. */
module OnePole {
  import opened Numerics

  /** The new state of a one-pole filter with coefficient `coefficient` that was
      in state `previous` and is fed `input`. */
  function Blend(input: real, coefficient: real, previous: real): (r: real)
    // a zero coefficient follows the input at once
    ensures coefficient == 0.0 ==> r == input
    // a unit coefficient holds the previous state
    ensures coefficient == 1.0 ==> r == previous
    // a state equal to the input is a fixed point for every coefficient
    ensures previous == input ==> r == input
    // with a coefficient in [0, 1] the new state is a convex combination
    ensures 0.0 <= coefficient <= 1.0 ==> Between(r, previous, input)
    // the step moves towards the input by the fraction 1 - coefficient
    ensures r - previous == (1.0 - coefficient) * (input - previous)
  {
    BlendStep(input, coefficient, previous);
    (1.0 - coefficient) * input + coefficient * previous
  }

  lemma BlendStep(input: real, coefficient: real, previous: real)
    ensures var r := (1.0 - coefficient) * input + coefficient * previous;
      r - previous == (1.0 - coefficient) * (input - previous) &&
      (0.0 <= coefficient <= 1.0 ==> Between(r, previous, input))
  {
    var r := (1.0 - coefficient) * input + coefficient * previous;
    assert r - previous == (1.0 - coefficient) * (input - previous);
    if 0.0 <= coefficient <= 1.0 {
      if previous <= input {
        assert 0.0 <= (1.0 - coefficient) * (input - previous) <= input - previous;
      } else {
        assert 0.0 <= (1.0 - coefficient) * (previous - input) <= previous - input;
      }
    }
  }
}
