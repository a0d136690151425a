/** The one-pole low-pass filter of the plugin crate (src/dsp.rs, `LPF`). */
module Lpf {
  import opened Numerics
  import opened OnePole

  class Lpf {
    /** The filter state, which is also its last output. */
    var z: real

    /** `LPF::new`: the state starts at 0. */
    constructor New()
      ensures z == 0.0
    {
      z := 0.0;
    }

    /** `LPF::process`: blend `input` into the state with weight `1 - cutoff`
        and return the new state. */
    method Process(input: real, cutoff: real) returns (output: real)
      modifies this
      ensures z == Blend(input, cutoff, old(z))
      ensures output == z
      // cutoff 0 passes the input through; cutoff 1 holds the state
      ensures cutoff == 0.0 ==> output == input
      ensures cutoff == 1.0 ==> z == old(z)
      // a cutoff in [0, 1] keeps the output between the previous state and the input
      ensures 0.0 <= cutoff <= 1.0 ==> Between(output, old(z), input)
      // a state equal to the input is kept
      ensures old(z) == input ==> output == input
    {
      var b := 1.0 - cutoff;
      var a := cutoff;
      z := (input * b) + (z * a);
      output := z;
    }
  }
}
