/** The PCM clock: resampling by a causal cubic, at output times that are counted from the start of the stream. The
    arithmetic is exact; rounding is not modelled. */
module NfmPcmClock {
  import opened Samples

  /** The curve from the second of four samples, at time 0, to the third, at time 1; the outer two give its slopes. */
  function Cubic(ym1: real, y0: real, y1: real, y2: real, t: real): real {
    var c1 := 0.5 * (y1 - ym1);
    var c2 := ym1 - 2.5 * y0 + 2.0 * y1 - 0.5 * y2;
    var c3 := 0.5 * (y2 - ym1) + 1.5 * (y0 - y1);
    y0 + c1 * t + c2 * (t * t) + c3 * (t * t * t)
  }

  function Parabola(p: real, q: real, r: real, t: real): real { p + q * t + r * (t * t) }

  /** It meets its middle samples, and reproduces every polynomial of degree two or less. */
  lemma CubicInterpolates(ym1: real, y0: real, y1: real, y2: real, p: real, q: real, r: real, t: real)
    ensures Cubic(ym1, y0, y1, y2, 0.0) == y0 && Cubic(ym1, y0, y1, y2, 1.0) == y1
    ensures Cubic(Parabola(p, q, r, -1.0), Parabola(p, q, r, 0.0), Parabola(p, q, r, 1.0), Parabola(p, q, r, 2.0), t)
         == Parabola(p, q, r, t)
  {}

  /** The cubic with these values and slopes at 0 and 1. */
  function Hermite(y0: real, m0: real, y1: real, m1: real, t: real): real {
    var u := 1.0 - t;
    y0 * ((1.0 + 2.0 * t) * (u * u)) + m0 * (t * (u * u)) + y1 * ((t * t) * (3.0 - 2.0 * t)) - m1 * ((t * t) * u)
  }

  /** Between two samples it is the Hermite cubic whose slope at each of them is half the difference of its
      neighbours, so that the pieces join without a kink. */
  lemma CubicIsHermite(ym1: real, y0: real, y1: real, y2: real, t: real)
    ensures Cubic(ym1, y0, y1, y2, t) == Hermite(y0, 0.5 * (y1 - ym1), y1, 0.5 * (y2 - y0), t)
  {}

  /** Value and slope of a Hermite cubic at its ends: what is left beyond them is of second order. */
  lemma HermiteEnds(y0: real, m0: real, y1: real, m1: real, t: real)
    ensures Hermite(y0, m0, y1, m1, t)
         == y0 + m0 * t + (t * t) * (3.0 * (y1 - y0) - 2.0 * m0 - m1 + t * (m0 + m1 - 2.0 * (y1 - y0)))
    ensures var h := t - 1.0;
      Hermite(y0, m0, y1, m1, t)
      == y1 + m1 * h + (h * h) * (3.0 * (y0 - y1) + m0 + 2.0 * m1 + h * (m0 + m1 - 2.0 * (y1 - y0)))
  {}

  /** The k-th output of the whole input x: the cubic at time k*step of x delayed by two samples. */
  function OutputAt(x: seq<real>, step: real, k: nat): real {
    var time := k as real * step;
    var f := time.Floor;
    Cubic(At(x, f - 3, 0.0), At(x, f - 2, 0.0), At(x, f - 1, 0.0), At(x, f, 0.0), time - f as real)
  }

  /** At whole times the outputs are the samples of two before. */
  lemma DelayIsTwoSamples(x: seq<real>, step: real, k: nat, n: nat)
    requires k as real * step == n as real
    ensures OutputAt(x, step, k) == At(x, n - 2, 0.0)
  {
    assert (n as real).Floor == n;
  }

  function Ceil(r: real): int { -((-r).Floor) }

  /** The number of outputs due after n inputs: those whose time is before n. */
  function Due(n: nat, step: real): int
    requires step > 0.0
  {
    Ceil(n as real / step)
  }

  lemma DueExactly(n: nat, step: real, k: int)
    requires step > 0.0
    ensures k < Due(n, step) <==> k as real * step < n as real
    ensures Due(n, step) >= 0 && (n == 0 ==> Due(n, step) == 0)
  {
    var q := n as real / step;
    assert q * step == n as real;
    assert k < Due(n, step) <==> (k as real) < q;
    assert (k as real - q) * step == k as real * step - n as real;
    if k as real < q {
      assert (q - k as real) * step > 0.0;
    } else {
      assert (k as real - q) * step >= 0.0;
    }
  }

  /** Blocks of n and m inputs together are due no more outputs than each would be by itself. */
  lemma DueSubadditive(n: nat, m: nat, step: real)
    requires step > 0.0
    ensures Due(n, step) <= Due(n + m, step) <= Due(n, step) + Due(m, step)
  {
    var a, b := Due(n, step), Due(m, step);
    DueExactly(n, step, a);
    DueExactly(m, step, b);
    DueExactly(n + m, step, a + b);
    assert (a + b) as real * step == a as real * step + b as real * step;
    DueExactly(n, step, a - 1);
    DueExactly(n + m, step, a - 1);
  }

  /** All outputs due for the whole input x. */
  function Resampled(x: seq<real>, step: real): (y: seq<real>)
    requires step > 0.0
    ensures |y| == Due(|x|, step)
  {
    DueExactly(|x|, step, 0);
    seq(Due(|x|, step), k requires 0 <= k => OutputAt(x, step, k))
  }

  /** An output does not change when the input goes on. */
  lemma ResampledGrows(x: seq<real>, y: seq<real>, step: real)
    requires step > 0.0
    ensures |Resampled(x, step)| <= |Resampled(x + y, step)|
    ensures Resampled(x, step) == Resampled(x + y, step)[..|Resampled(x, step)|]
  {
    DueSubadditive(|x|, |y|, step);
    forall k | 0 <= k < Due(|x|, step)
      ensures OutputAt(x, step, k) == OutputAt(x + y, step, k)
    {
      DueExactly(|x|, step, k);
    }
  }

  class NfmPcmClock {
    var inputRate: real
    var outputRate: real
    var input: nat
    var output: nat
    const history: array<real>
    ghost var seen: seq<real>

    predicate Running()
      reads this
    {
      inputRate > 0.0 && outputRate > 0.0
    }

    ghost function Step(): (step: real)
      requires Running()
      reads this
      ensures step > 0.0
    {
      assert inputRate / outputRate > 0.0;
      inputRate / outputRate
    }

    /** The counters and the four latest samples are those of the input seen since the last reset, and all outputs
        due for it have been emitted. */
    ghost predicate Valid()
      reads this, history
    {
      && history.Length == 4 && input == |seen|
      && (forall i :: 0 <= i < 4 ==> history[i] == At(seen, input - 4 + i, 0.0))
      && (if Running() then output == Due(input, Step()) else input == output == 0)
    }

    constructor ()
      ensures Valid() && fresh(history) && seen == []
    {
      inputRate, outputRate, input, output := 0.0, 0.0, 0, 0;
      history := new real[4](_ => 0.0);
      seen := [];
    }

    /** As many outputs as fit the time of the input: the k-th is out exactly when its time, at the output rate, is
        before the end of the input, at the input rate. */
    lemma KeepsRate(k: nat)
      requires Valid() && Running()
      ensures k < output <==> k as real * inputRate < input as real * outputRate
    {
      var step := Step();
      assert step * outputRate == inputRate;
      DueExactly(input, step, k);
      var ahead := input as real - k as real * step;
      assert ahead * outputRate == input as real * outputRate - k as real * (step * outputRate);
      if ahead > 0.0 {
        assert ahead * outputRate > 0.0;
      } else {
        assert -ahead * outputRate >= 0.0;
      }
    }

    method Configure(inRate: real, outRate: real, reset: bool) returns (changed: bool)
      requires Valid()
      modifies this, history
      ensures Valid() && inputRate == inRate && outputRate == outRate
      ensures changed == (reset || inRate != old(inputRate) || outRate != old(outputRate))
      ensures seen == if changed then [] else old(seen)
    {
      if !reset && inRate == inputRate && outRate == outputRate {
        return false;
      }
      inputRate, outputRate, input, output := inRate, outRate, 0, 0;
      history[0], history[1], history[2], history[3] := 0.0, 0.0, 0.0, 0.0;
      seen := [];
      if Running() {
        DueExactly(0, Step(), 0);
      }
      changed := true;
    }

    method Process(samples: seq<real>) returns (result: seq<real>)
      requires Valid()
      modifies this, history
      ensures Valid() && inputRate == old(inputRate) && outputRate == old(outputRate)
      ensures if !Running() then result == [] && seen == old(seen)
              else seen == old(seen) + samples
                   && Resampled(old(seen), Step()) + result == Resampled(seen, Step())
                   && |result| <= Ceil(|samples| as real / Step()) + 1
    {
      result := [];
      if inputRate <= 0.0 || outputRate <= 0.0 {
        return;
      }
      var step := inputRate / outputRate;
      var i := 0;
      while i < |samples|
        invariant 0 <= i <= |samples| && seen == old(seen) + samples[..i]
        invariant inputRate == old(inputRate) && outputRate == old(outputRate) && Valid()
        invariant Resampled(old(seen), step) + result == Resampled(seen, step)
      {
        var out := ProcessOne(samples[i], step);
        assert samples[..i + 1] == samples[..i] + [samples[i]];
        result := result + out;
        i := i + 1;
      }
      DueSubadditive(|old(seen)|, |samples|, step);
    }

    /** One input sample: shifts it into the history, and emits the outputs that are now due. */
    method ProcessOne(value: real, step: real) returns (out: seq<real>)
      requires Valid() && Running() && step == Step()
      modifies this, history
      ensures Valid() && inputRate == old(inputRate) && outputRate == old(outputRate)
      ensures seen == old(seen) + [value] && Resampled(old(seen), step) + out == Resampled(seen, step)
    {
      Shift(value);
      ResampledGrows(old(seen), [value], step);
      out := EmitDue(step);
    }

    method Shift(value: real)
      requires history.Length == 4 && input == |seen|
      requires forall i :: 0 <= i < 4 ==> history[i] == At(seen, input - 4 + i, 0.0)
      modifies `input, `seen, history
      ensures input == |seen| && seen == old(seen) + [value]
      ensures forall i :: 0 <= i < 4 ==> history[i] == At(seen, input - 4 + i, 0.0)
    {
      history[0], history[1], history[2], history[3] := history[1], history[2], history[3], value;
      input := input + 1;
      seen := seen + [value];
    }

    /** The output with the present index. */
    method NextOutput(step: real) returns (y: real)
      requires step > 0.0 && history.Length == 4 && input == |seen| > 0
      requires Due(input - 1, step) <= output && output as real * step < input as real
      requires forall i :: 0 <= i < 4 ==> history[i] == At(seen, input - 4 + i, 0.0)
      ensures output < Due(input, step) && y == Resampled(seen, step)[output]
    {
      var time := output as real * step;
      var t := time - time.Floor as real;
      var ym1, y0, y1, y2 := history[0], history[1], history[2], history[3];
      OutputNow(seen, step, output, ym1, y0, y1, y2, time, t);
      y := Cubic(ym1, y0, y1, y2, t);
    }

    /** The inner loop: all outputs whose time is before the present input count. */
    method EmitDue(step: real) returns (out: seq<real>)
      requires step > 0.0 && history.Length == 4 && input == |seen| > 0
      requires output == Due(input - 1, step) <= Due(input, step)
      requires forall i :: 0 <= i < 4 ==> history[i] == At(seen, input - 4 + i, 0.0)
      modifies `output
      ensures output == Due(input, step) && out == Resampled(seen, step)[old(output)..]
    {
      out := [];
      while output as real * step < input as real
        invariant Due(input - 1, step) <= output <= Due(input, step)
        invariant out == Resampled(seen, step)[old(output)..output]
        decreases Due(input, step) - output
      {
        var y := NextOutput(step);
        out := out + [y];
        output := output + 1;
      }
      DueExactly(input, step, output);
    }
  }

  /** An output that the latest sample makes due is the cubic of the four latest samples. */
  lemma OutputNow(x: seq<real>, step: real, k: nat, ym1: real, y0: real, y1: real, y2: real, time: real, t: real)
    requires step > 0.0 && x != [] && Due(|x| - 1, step) <= k && time == k as real * step < |x| as real
    requires ym1 == At(x, |x| - 4, 0.0) && y0 == At(x, |x| - 3, 0.0)
    requires y1 == At(x, |x| - 2, 0.0) && y2 == At(x, |x| - 1, 0.0)
    requires t == time - time.Floor as real
    ensures k < Due(|x|, step) && Resampled(x, step)[k] == Cubic(ym1, y0, y1, y2, t)
  {
    DueExactly(|x|, step, k);
    DueExactly(|x| - 1, step, k);
    assert time.Floor == |x| - 1;
  }
}
