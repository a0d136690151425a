/** The RMS level detector of the compressor crate (dsp/src/lib.rs,
    `RmsLevelDetector`): a window of the last `BufferSize` samples kept in a
    circular buffer, newest at the front, and a running sum of their squares. */
module LevelDetector {
  import opened Numerics

  /** The fixed sample rate of the compressor crate, in Hz. */
  const SampleRate: real := 44100.0

  /** Window length in samples: 44100 * 1e-3 = 44.1, truncated by the
      conversion to an integer. */
  const BufferSize: nat := 44

  /** Sum of the squares of the samples in `s`. */
  function SumOfSquares(s: seq<real>): real
  {
    if s == [] then 0.0 else Square(s[0]) + SumOfSquares(s[1..])
  }

  lemma {:induction false} SumOfSquaresNonNegative(s: seq<real>)
    ensures SumOfSquares(s) >= 0.0
  {
    if s != [] {
      SumOfSquaresNonNegative(s[1..]);
    }
  }

  /** Appending a sample at the back adds its square. */
  lemma {:induction false} SumOfSquaresAppend(s: seq<real>, x: real)
    ensures SumOfSquares(s + [x]) == SumOfSquares(s) + Square(x)
  {
    if s != [] {
      assert (s + [x])[1..] == s[1..] + [x];
      SumOfSquaresAppend(s[1..], x);
    }
  }

  /** A window holding `n` copies of `c` has sum of squares `n * c^2`. */
  lemma {:induction false} SumOfSquaresConstant(n: nat, c: real)
    ensures SumOfSquares(seq(n, _ => c)) == n as real * Square(c)
  {
    if n > 0 {
      assert seq(n, _ => c)[1..] == seq(n - 1, _ => c);
      SumOfSquaresConstant(n - 1, c);
    }
  }

  /** The window after one update: `input` pushed at the front, the oldest
      (back) sample dropped. */
  function Slide(window: seq<real>, input: real): seq<real>
    requires |window| > 0
  {
    [input] + window[..|window| - 1]
  }

  /** The running-sum update of `calculate_rms` (add the new square, subtract
      the dropped one) keeps the sum equal to the sum of squares of the window. */
  lemma SlideSumOfSquares(window: seq<real>, input: real)
    requires |window| > 0
    ensures |Slide(window, input)| == |window|
    ensures SumOfSquares(Slide(window, input))
         == SumOfSquares(window) + Square(input) - Square(window[|window| - 1])
  {
    var n := |window|;
    assert Slide(window, input)[1..] == window[..n - 1];
    assert window == window[..n - 1] + [window[n - 1]];
    SumOfSquaresAppend(window[..n - 1], window[n - 1]);
  }

  /** Mean of the squares of a non-empty window: the argument handed to `sqrt`. */
  function MeanSquare(window: seq<real>): (m: real)
    requires |window| > 0
    ensures m >= 0.0
    ensures (forall i :: 0 <= i < |window| ==> window[i] == 0.0) ==> m == 0.0
  {
    SumOfSquaresNonNegative(window);
    SumOfSquaresSilence(window);
    SumOfSquares(window) / |window| as real
  }

  lemma SumOfSquaresSilence(window: seq<real>)
    ensures (forall i :: 0 <= i < |window| ==> window[i] == 0.0) ==> SumOfSquares(window) == 0.0
  {
    if forall i :: 0 <= i < |window| ==> window[i] == 0.0 {
      assert window == seq(|window|, _ => 0.0);
      SumOfSquaresConstant(|window|, 0.0);
    }
  }

  /** A window filled with one value `c` has mean square `c^2`, so its RMS is |c|. */
  lemma MeanSquareConstant(n: nat, c: real)
    requires n > 0
    ensures MeanSquare(seq(n, _ => c)) == Square(c)
  {
    SumOfSquaresConstant(n, c);
  }

  /** Pushing `count` copies of `c` through a window of `count` samples leaves
      a window holding only `c`. */
  lemma {:induction false} SlideConstantFills(window: seq<real>, c: real, count: nat)
    requires |window| > 0 && count <= |window|
    ensures SlideMany(window, c, count)[..count] == seq(count, _ => c)
    ensures |SlideMany(window, c, count)| == |window|
    ensures count == |window| ==> SlideMany(window, c, count) == seq(|window|, _ => c)
  {
    if count > 0 {
      SlideConstantFills(window, c, count - 1);
      var w := SlideMany(window, c, count - 1);
      assert Slide(w, c)[..count] == [c] + w[..count - 1];
    }
  }

  /** A constant signal `c`, fed for one full window length, makes the mean
      square `c^2`, whatever the window held before; the RMS is then |c|. */
  lemma ConstantSignalMeanSquare(window: seq<real>, c: real)
    requires |window| > 0
    ensures MeanSquare(SlideMany(window, c, |window|)) == Square(c)
  {
    SlideConstantFills(window, c, |window|);
    MeanSquareConstant(|window|, c);
  }

  /** The window after `count` updates with the same input `c`. */
  function SlideMany(window: seq<real>, c: real, count: nat): (w: seq<real>)
    requires |window| > 0
    ensures |w| == |window|
  {
    if count == 0 then window else Slide(SlideMany(window, c, count - 1), c)
  }

  class RmsLevelDetector {
    /** Running sum of the squares of the window's samples. */
    var squaredSum: real
    /** Circular storage of the window. */
    const buffer: array<real>
    /** Index in `buffer` of the front (most recent) sample. */
    var front: nat

    /** The window, front (newest) to back (oldest). */
    ghost function Window(): (w: seq<real>)
      reads this, buffer
      requires front <= buffer.Length
      ensures |w| == buffer.Length
    {
      buffer[front..] + buffer[..front]
    }

    ghost predicate Valid()
      reads this, buffer
    {
      buffer.Length == BufferSize &&
      front < BufferSize &&
      squaredSum == SumOfSquares(Window())
    }

    /** `RmsLevelDetector::default`: a full window of zeros, sum zero. */
    constructor ()
      ensures Valid() && fresh(buffer)
      ensures Window() == seq(BufferSize, _ => 0.0)
      ensures squaredSum == 0.0
    {
      squaredSum := 0.0;
      buffer := new real[BufferSize](_ => 0.0);
      front := 0;
      new;
      assert Window() == seq(BufferSize, _ => 0.0);
      SumOfSquaresConstant(BufferSize, 0.0);
    }

    /** `calculate_rms`: pop the back sample, push `input` at the front, update
        the running sum and return the square root of its mean. */
    method CalculateRms(input: real, sqrt: real -> real) returns (level: real)
      requires Valid()
      modifies this, buffer
      ensures Valid()
      ensures Window() == Slide(old(Window()), input)
      ensures squaredSum == old(squaredSum) + Square(input) - Square(old(Window())[BufferSize - 1])
      ensures squaredSum >= 0.0
      ensures level == sqrt(MeanSquare(Window()))
    {
      ghost var before := Window();
      // the back of the window sits just before the front, circularly
      var back := if front == 0 then BufferSize - 1 else front - 1;
      assert buffer[back] == before[BufferSize - 1];
      var oldSample := buffer[back];
      buffer[back] := input;
      front := back;
      assert Window() == Slide(before, input) by {
        assert buffer[front..] == [input] + buffer[front + 1..];
        if back == BufferSize - 1 {
          assert before == old(buffer[..]);
        } else {
          assert before == old(buffer[back + 1..]) + old(buffer[..back]) + [oldSample];
        }
      }
      squaredSum := squaredSum + Square(input);
      squaredSum := squaredSum - Square(oldSample);
      SlideSumOfSquares(before, input);
      SumOfSquaresNonNegative(Window());
      level := sqrt(squaredSum / BufferSize as real);
    }
  }
}
