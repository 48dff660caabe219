/** The WFM speech filter: full-rate filtering in place, block by block, four outputs at a time and then the rest. */
module WfmSpeechFir {
  import opened Samples
  import opened StreamingFir

  class WfmSpeechFir<S(0), K> {
    const ops: Ops<S, K>
    var tapCount: nat
    var history: array<S>
    ghost var seen: seq<S>

    /** The history holds the latest tapCount - 1 samples of the input seen since the number of taps last changed. */
    ghost predicate Valid()
      reads this, history
    {
      && history.Length == (if tapCount == 0 then 0 else tapCount - 1)
      && forall i :: 0 <= i < history.Length ==> history[i] == At(seen, |seen| - history.Length + i, ops.zero)
    }

    constructor (ops: Ops<S, K>)
      ensures Valid() && fresh(history) && tapCount == 0 && seen == [] && this.ops == ops
    {
      this.ops, tapCount, seen := ops, 0, [];
      history := new S[0];
    }

    method Reset()
      requires Valid()
      modifies this
      ensures Valid() && tapCount == 0 && seen == [] && fresh(history)
    {
      history := new S[0];
      tapCount, seen := 0, [];
    }

    /** Filters a block in place. The outputs of one block continue those of all the blocks before it, since the number
        of taps last changed, whatever the cut. */
    method Process(samples: array<S>, taps: seq<K>)
      requires Valid() && samples != history
      modifies this, history, samples
      ensures Valid() && (history == old(history) || fresh(history))
      ensures var x := if tapCount == old(tapCount) then old(seen) else [];
        if taps == [] || samples.Length == 0 then
          samples[..] == old(samples[..]) && seen == old(seen) && tapCount == old(tapCount)
        else tapCount == |taps| && seen == x + old(samples[..]) && samples[..] == FullRate(ops, taps, seen)[|x|..]
    {
      if taps == [] || samples.Length == 0 {
        return;
      }
      var delay := |taps| - 1;
      if tapCount != |taps| {
        history := new S[delay](_ => ops.zero);
        tapCount, seen := |taps|, [];
      }
      var input := Gather(samples);
      ghost var x := seen;
      seen := seen + samples[..];
      Carry(input);
      Convolve(samples, input, taps, x);
    }

    /** The history followed by the block. */
    method Gather(samples: array<S>) returns (input: array<S>)
      requires Valid()
      ensures fresh(input) && input.Length == history.Length + samples.Length
      ensures forall p :: 0 <= p < input.Length ==>
        input[p] == At(seen + samples[..], |seen| - history.Length + p, ops.zero)
    {
      var delay := history.Length;
      input := new S[delay + samples.Length](_ => ops.zero);
      forall i | 0 <= i < delay {
        input[i] := history[i];
      }
      forall i | 0 <= i < samples.Length {
        input[delay + i] := samples[i];
      }
    }

    /** The end of the gathered input becomes the history. */
    method Carry(input: array<S>)
      requires input != history && history.Length <= input.Length <= history.Length + |seen|
      requires forall p :: 0 <= p < input.Length ==> input[p] == At(seen, |seen| - input.Length + p, ops.zero)
      modifies history
      ensures forall i :: 0 <= i < history.Length ==> history[i] == At(seen, |seen| - history.Length + i, ops.zero)
    {
      forall i | 0 <= i < history.Length {
        history[i] := input[input.Length - history.Length + i];
      }
    }

    /** The inner loop of the wide part: four neighbouring outputs at once. */
    method SumFour(input: array<S>, taps: seq<K>, n: nat, ghost x: seq<S>) returns (s0: S, s1: S, s2: S, s3: S)
      requires taps != [] && |taps| - 1 + n + 4 <= input.Length
      requires forall p :: 0 <= p < input.Length ==> input[p] == At(seen, |x| - (|taps| - 1) + p, ops.zero)
      ensures s0 == Fir(ops, taps, seen, |x| + n, |taps|) && s1 == Fir(ops, taps, seen, |x| + n + 1, |taps|)
      ensures s2 == Fir(ops, taps, seen, |x| + n + 2, |taps|) && s3 == Fir(ops, taps, seen, |x| + n + 3, |taps|)
    {
      s0, s1, s2, s3 := ops.zero, ops.zero, ops.zero, ops.zero;
      var delay, k := |taps| - 1, 0;
      while k < |taps|
        invariant 0 <= k <= |taps|
        invariant s0 == Fir(ops, taps, seen, |x| + n, k) && s1 == Fir(ops, taps, seen, |x| + n + 1, k)
        invariant s2 == Fir(ops, taps, seen, |x| + n + 2, k) && s3 == Fir(ops, taps, seen, |x| + n + 3, k)
      {
        var t, p := taps[k], delay + n - k;
        s0, s1 := ops.add(s0, ops.scale(t, input[p])), ops.add(s1, ops.scale(t, input[p + 1]));
        s2, s3 := ops.add(s2, ops.scale(t, input[p + 2])), ops.add(s3, ops.scale(t, input[p + 3]));
        k := k + 1;
      }
    }

    /** The filter proper, over the gathered input of a block that follows x. */
    method Convolve(samples: array<S>, input: array<S>, taps: seq<K>, ghost x: seq<S>)
      requires taps != [] && samples != input && input.Length == |taps| - 1 + samples.Length
      requires |seen| == |x| + samples.Length
      requires forall p :: 0 <= p < input.Length ==> input[p] == At(seen, |x| - (|taps| - 1) + p, ops.zero)
      modifies samples
      ensures samples[..] == FullRate(ops, taps, seen)[|x|..]
    {
      var delay, n := |taps| - 1, 0;
      while n + 4 <= samples.Length
        invariant 0 <= n <= samples.Length
        invariant forall p :: 0 <= p < n ==> samples[p] == Fir(ops, taps, seen, |x| + p, |taps|)
      {
        var s0, s1, s2, s3 := SumFour(input, taps, n, x);
        samples[n], samples[n + 1], samples[n + 2], samples[n + 3] := s0, s1, s2, s3;
        n := n + 4;
      }
      while n < samples.Length
        invariant 0 <= n <= samples.Length
        invariant forall p :: 0 <= p < n ==> samples[p] == Fir(ops, taps, seen, |x| + p, |taps|)
      {
        var sum, k := ops.zero, 0;
        while k < |taps|
          invariant 0 <= k <= |taps| && sum == Fir(ops, taps, seen, |x| + n, k)
        {
          sum := ops.add(sum, ops.scale(taps[k], input[delay + n - k]));
          k := k + 1;
        }
        samples[n] := sum;
        n := n + 1;
      }
    }
  }
}
