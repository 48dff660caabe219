/** The finite impulse response filter as a function of the whole input. Addition and scaling are left uninterpreted,
    so equal results mean equal order of accumulation as well. */
module StreamingFir {
  import opened Division
  import opened Samples

  /** The sample arithmetic a filter uses. */
  datatype Ops<!S, !K> = Ops(zero: S, add: (S, S) -> S, scale: (K, S) -> S)

  /** The sum of the first k taps at index n of the input, newest sample first. */
  function Fir<S, K>(ops: Ops<S, K>, taps: seq<K>, x: seq<S>, n: int, k: nat): S
    requires k <= |taps|
  {
    if k == 0 then ops.zero
    else ops.add(Fir(ops, taps, x, n, k - 1), ops.scale(taps[k - 1], At(x, n - (k - 1), ops.zero)))
  }

  /** The arithmetic of the program, without rounding, for real samples. */
  function RealOps(): Ops<real, real> {
    Ops(0.0, (a: real, b: real) => a + b, (k: real, s: real) => k * s)
  }

  /** A single one, followed by n zeros. */
  function Impulse(n: nat): seq<real> {
    seq(n + 1, i => if i == 0 then 1.0 else 0.0)
  }

  /** The filter answers an impulse with its taps, in their order, and then with zeros. */
  lemma {:induction false} ImpulseGivesTaps(taps: seq<real>, m: nat, n: nat, k: nat)
    requires n <= m && k <= |taps|
    ensures Fir(RealOps(), taps, Impulse(m), n, k) == if n < k then taps[n] else 0.0
  {
    if k > 0 {
      ImpulseGivesTaps(taps, m, n, k - 1);
      assert At(Impulse(m), n - (k - 1), 0.0) == if n == k - 1 then 1.0 else 0.0;
    }
  }

  /** The direct convolution at every input index. */
  function FullRate<S, K>(ops: Ops<S, K>, taps: seq<K>, x: seq<S>): seq<S> {
    seq(|x|, n requires 0 <= n => Fir(ops, taps, x, n, |taps|))
  }

  /** The direct convolution at the last index of every complete group of factor samples. */
  function Decimated<S, K>(ops: Ops<S, K>, taps: seq<K>, x: seq<S>, factor: nat): seq<S>
    requires factor > 0
  {
    seq(|x| / factor, j requires 0 <= j => Fir(ops, taps, x, (j + 1) * factor - 1, |taps|))
  }

  lemma {:induction false} FirCausal<S, K>(ops: Ops<S, K>, taps: seq<K>, x: seq<S>, y: seq<S>, n: int, k: nat)
    requires k <= |taps| && n < |x|
    ensures Fir(ops, taps, x + y, n, k) == Fir(ops, taps, x, n, k)
  {
    if k > 0 {
      FirCausal(ops, taps, x, y, n, k - 1);
    }
  }

  /** Decimation keeps every factor-th output of the full-rate filter. */
  lemma DecimatedFromFullRate<S, K>(ops: Ops<S, K>, taps: seq<K>, x: seq<S>, factor: nat, j: nat)
    requires factor > 0 && j < |x| / factor
    ensures 0 <= (j + 1) * factor - 1 < |x|
    ensures Decimated(ops, taps, x, factor)[j] == FullRate(ops, taps, x)[(j + 1) * factor - 1]
  {
    MulGap(0, j + 1, factor);
    MulGap(j, |x| / factor, factor);
    Distribute(j, 1, factor);
    assert |x| == (|x| / factor) * factor + |x| % factor;
  }

  /** One sequence holds the last element of every complete group of n elements of another. */
  ghost predicate IsEveryNth<S>(out: seq<S>, full: seq<S>, n: nat) {
    && n > 0 && |out| == |full| / n
    && forall j :: 0 <= j < |out| ==> 0 <= (j + 1) * n - 1 < |full| && out[j] == full[(j + 1) * n - 1]
  }

  lemma DecimatedIsEveryNth<S, K>(ops: Ops<S, K>, taps: seq<K>, x: seq<S>, factor: nat)
    requires factor > 0
    ensures IsEveryNth(Decimated(ops, taps, x, factor), FullRate(ops, taps, x), factor)
  {
    var out, full := Decimated(ops, taps, x, factor), FullRate(ops, taps, x);
    forall j | 0 <= j < |out|
      ensures 0 <= (j + 1) * factor - 1 < |full| && out[j] == full[(j + 1) * factor - 1]
    {
      DecimatedFromFullRate(ops, taps, x, factor, j);
    }
  }

  /** One more sample adds one output at full rate. */
  lemma FullRateGrows<S, K>(ops: Ops<S, K>, taps: seq<K>, x: seq<S>, y: seq<S>)
    ensures FullRate(ops, taps, x + y)[..|x|] == FullRate(ops, taps, x)
  {
    forall n | 0 <= n < |x|
      ensures FullRate(ops, taps, x + y)[n] == FullRate(ops, taps, x)[n]
    {
      FirCausal(ops, taps, x, y, n, |taps|);
    }
  }

  /** The outputs at full rate for the part y of an input that comes behind x; without taps, y itself. */
  function Filtered<S, K>(ops: Ops<S, K>, taps: seq<K>, x: seq<S>, y: seq<S>): (out: seq<S>)
    ensures |out| == |y|
  {
    if taps == [] then y else FullRate(ops, taps, x + y)[|x|..]
  }

  /** What comes in leaves the earlier outputs as they are and adds its own. */
  lemma FilteredContinues<S, K>(ops: Ops<S, K>, taps: seq<K>, x: seq<S>, y: seq<S>, z: seq<S>)
    ensures Filtered(ops, taps, x, y + z) == Filtered(ops, taps, x, y) + Filtered(ops, taps, x + y, z)
  {
    assert x + (y + z) == x + y + z;
    FullRateGrows(ops, taps, x + y, z);
  }

  /** One more sample adds an output to the decimated stream exactly when it completes a group. */
  lemma DecimatedStep<S, K>(ops: Ops<S, K>, taps: seq<K>, x: seq<S>, s: S, factor: nat, groups: nat, phase: nat)
    requires factor > 0 && phase < factor && |x| == groups * factor + phase
    ensures Decimated(ops, taps, x + [s], factor) == Decimated(ops, taps, x, factor) +
      if phase + 1 == factor then [Fir(ops, taps, x + [s], |x|, |taps|)] else []
  {
    var x' := x + [s];
    Quotient(|x|, factor, groups, phase);
    if phase + 1 == factor {
      Distribute(groups, 1, factor);
      Quotient(|x'|, factor, groups + 1, 0);
    } else {
      Quotient(|x'|, factor, groups, phase + 1);
    }
    forall j | 0 <= j < groups
      ensures Decimated(ops, taps, x', factor)[j] == Decimated(ops, taps, x, factor)[j]
    {
      MulGap(j, groups, factor);
      Distribute(j, 1, factor);
      FirCausal(ops, taps, x, [s], (j + 1) * factor - 1, |taps|);
    }
  }
}
