/** The NFM input decimator: a filter with a circular history that is evaluated only at the retained outputs. */
module NfmInputDecimator {
  import opened Division
  import opened Samples
  import opened StreamingFir

  class NfmInputDecimator<S(0), K> {
    const ops: Ops<S, K>
    /** The tap design, which depends on the factor alone. */
    const design: nat -> seq<K>
    var factor: nat
    var phase: nat
    var write: nat
    var taps: seq<K>
    var history: array<S>
    ghost var seen: seq<S>
    ghost var groups: nat

    /** The history holds the latest samples of the input seen since the last reset, newest just before the write
        position, around the end of the ring. */
    ghost predicate HistoryValid()
      reads this, history
    {
      var n := history.Length;
      && (write < n || write == n == 0)
      && (forall i :: 0 <= i < write ==> history[i] == At(seen, |seen| - write + i, ops.zero))
      && (forall i :: write <= i < n ==> history[i] == At(seen, |seen| - write - n + i, ops.zero))
    }

    ghost predicate Valid()
      reads this, history
    {
      && HistoryValid() && history.Length == |taps|
      && (if factor == 0 then taps == [] && seen == []
          else taps == design(factor) && phase < factor && |seen| == groups * factor + phase)
    }

    constructor (ops: Ops<S, K>, design: nat -> seq<K>)
      ensures Valid() && fresh(history) && factor == 0 && seen == [] && this.ops == ops && this.design == design
    {
      this.ops, this.design := ops, design;
      factor, phase, write, taps := 0, 0, 0, [];
      history := new S[0];
      seen, groups := [], 0;
    }

    method Reset()
      requires Valid()
      modifies this, history
      ensures Valid() && seen == [] && factor == old(factor) && taps == old(taps) && history == old(history)
    {
      var i := 0;
      while i < history.Length
        invariant 0 <= i <= history.Length && forall k :: 0 <= k < i ==> history[k] == ops.zero
        modifies history
      {
        history[i] := ops.zero;
        i := i + 1;
      }
      write, phase := 0, 0;
      seen, groups := [], 0;
    }

    method Configure(newFactor: nat)
      requires Valid()
      modifies this, history
      ensures Valid() && factor == (if newFactor > 1 then newFactor else 1) && taps == design(factor)
      ensures seen == if factor == old(factor) then old(seen) else []
      ensures history == old(history) || fresh(history)
    {
      var f := if newFactor > 1 then newFactor else 1;
      if f == factor {
        return;
      }
      factor, taps := f, design(f);
      history := new S[|taps|](_ => ops.zero);
      write, phase := 0, 0;
      seen, groups := [], 0;
    }

    /** Stores one sample at the write position. */
    method Store(s: S)
      requires HistoryValid() && history.Length > 0
      modifies history, `seen
      ensures seen == old(seen) + [s]
      ensures forall i :: 0 <= i <= write ==> history[i] == At(seen, |seen| - 1 - write + i, ops.zero)
      ensures forall i :: write < i < history.Length ==>
        history[i] == At(seen, |seen| - 1 - write - history.Length + i, ops.zero)
    {
      history[write] := s;
      seen := seen + [s];
    }

    /** The inner loop: the taps over the history, from the newest sample back. */
    method Accumulate() returns (sum: S)
      requires history.Length == |taps| && write < |taps|
      requires forall i :: 0 <= i <= write ==> history[i] == At(seen, |seen| - 1 - write + i, ops.zero)
      requires forall i :: write < i < history.Length ==>
        history[i] == At(seen, |seen| - 1 - write - history.Length + i, ops.zero)
      ensures sum == Fir(ops, taps, seen, |seen| - 1, |taps|)
    {
      sum := ops.zero;
      var at, k := write, 0;
      while k < |taps|
        invariant 0 <= k <= |taps| && at < history.Length
        invariant at == if k <= write then write - k else write - k + history.Length
        invariant sum == Fir(ops, taps, seen, |seen| - 1, k)
      {
        sum := ops.add(sum, ops.scale(taps[k], history[at]));
        at := if at == 0 then history.Length - 1 else at - 1;
        k := k + 1;
      }
    }

    /** The outputs of one block continue those of all the blocks before it, whatever the cut. */
    method Process(input: seq<S>) returns (output: seq<S>)
      requires Valid()
      modifies this, history
      ensures Valid() && factor == old(factor) && taps == old(taps) && history == old(history)
      ensures if taps == [] then output == [] && seen == old(seen)
              else seen == old(seen) + input
                   && Decimated(ops, taps, old(seen), factor) + output == Decimated(ops, taps, seen, factor)
    {
      output := [];
      if taps == [] {
        return;
      }
      var i := 0;
      while i < |input|
        invariant 0 <= i <= |input| && Valid() && seen == old(seen) + input[..i]
        invariant factor == old(factor) && taps == old(taps) && history == old(history)
        invariant Decimated(ops, taps, old(seen), factor) + output == Decimated(ops, taps, seen, factor)
      {
        var out := ProcessOne(input[i]);
        output := output + out;
        assert input[..i + 1] == input[..i] + [input[i]];
        i := i + 1;
      }
    }

    method ProcessOne(s: S) returns (out: seq<S>)
      requires Valid() && taps != []
      modifies this, history
      ensures Valid() && factor == old(factor) && taps == old(taps) && history == old(history)
      ensures seen == old(seen) + [s]
      ensures Decimated(ops, taps, old(seen), factor) + out == Decimated(ops, taps, seen, factor)
    {
      hide Fir, Decimated, At;
      out := [];
      DecimatedStep(ops, taps, seen, s, factor, groups, phase);
      Store(s);
      phase := phase + 1;
      if phase == factor {
        phase := 0;
        Distribute(groups, 1, factor);
        groups := groups + 1;
        var sum := Accumulate();
        out := [sum];
      }
      Advance();
    }

    /** The write position moves past the sample just stored. */
    method Advance()
      requires write < history.Length
      requires forall i :: 0 <= i <= write ==> history[i] == At(seen, |seen| - 1 - write + i, ops.zero)
      requires forall i :: write < i < history.Length ==>
        history[i] == At(seen, |seen| - 1 - write - history.Length + i, ops.zero)
      modifies `write
      ensures HistoryValid()
    {
      write := write + 1;
      if write == history.Length {
        write := 0;
      }
    }
  }
}
