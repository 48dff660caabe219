/** The Inmarsat filter history: a ring kept twice over, so that the latest N samples always lie in a row. */
module InmarsatFirHistory {
  import opened Samples
  import opened StreamingFir

  /** The filter over the latest |taps| samples of x, oldest first, up to the k-th. */
  function Correlate<S, K>(ops: Ops<S, K>, taps: seq<K>, x: seq<S>, k: nat): S
    requires k <= |taps|
  {
    if k == 0 then ops.zero
    else ops.add(Correlate(ops, taps, x, k - 1), ops.scale(taps[k - 1], At(x, |x| - |taps| + k - 1, ops.zero)))
  }

  /** An impulse j samples ago is answered with the j-th coefficient from the end, and after the last with zero:
      the newest sample meets the last coefficient. */
  lemma {:induction false} ImpulseFromTheEnd(taps: seq<real>, j: nat, k: nat)
    requires k <= |taps|
    ensures Correlate(RealOps(), taps, Impulse(j), k)
         == if j < |taps| && |taps| - 1 - j < k then taps[|taps| - 1 - j] else 0.0
  {
    if k > 0 {
      ImpulseFromTheEnd(taps, j, k - 1);
      var at := j + 1 - |taps| + k - 1;
      assert At(Impulse(j), at, 0.0) == if at == 0 then 1.0 else 0.0;
    }
  }

  /** A ring of n samples kept twice over, with the oldest of the latest n inputs at the cursor. */
  ghost predicate Mirrors<S>(ring: seq<S>, n: nat, cursor: nat, x: seq<S>, silence: S) {
    && |ring| == 2 * n && cursor < n
    && (forall i :: 0 <= i < n ==> ring[i + n] == ring[i])
    && (forall i :: 0 <= i < cursor ==> ring[i] == At(x, |x| - cursor + i, silence))
    && (forall i :: cursor <= i < n ==> ring[i] == At(x, |x| - cursor - n + i, silence))
  }

  lemma MirrorsNext<S>(ring: seq<S>, n: nat, cursor: nat, x: seq<S>, silence: S, value: S)
    requires Mirrors(ring, n, cursor, x, silence)
    ensures var ring' := ring[cursor := value][cursor + n := value];
      Mirrors(ring', n, if cursor + 1 == n then 0 else cursor + 1, x + [value], silence)
  {
    var ring', x' := ring[cursor := value][cursor + n := value], x + [value];
    forall i | 0 <= i < n
      ensures ring'[i + n] == ring'[i]
      ensures ring'[i] == At(x', |x| - cursor - (if i <= cursor then 0 else n) + i, silence)
    {}
  }

  class InmarsatFirHistory<S, K> {
    const ops: Ops<S, K>
    const n: nat
    const history: array<S>
    var cursor: nat
    ghost var pushed: seq<S>

    ghost predicate Valid()
      reads this, history
    {
      Mirrors(history[..], n, cursor, pushed, ops.zero)
    }

    /** From the cursor on, the latest n samples lie in a row, oldest first. */
    lemma InARow(i: nat)
      requires Valid() && i < n
      ensures history[cursor + i] == At(pushed, |pushed| - n + i, ops.zero)
    {
      var ring := history[..];
      if cursor + i >= n {
        assert ring[cursor + i - n + n] == ring[cursor + i - n];
      }
    }

    constructor (ops: Ops<S, K>, n: nat)
      requires n > 0
      ensures Valid() && fresh(history) && pushed == [] && this.ops == ops && this.n == n
    {
      this.ops, this.n := ops, n;
      history := new S[2 * n](_ => ops.zero);
      cursor := 0;
      pushed := [];
    }

    method Push(value: S)
      requires Valid()
      modifies this, history
      ensures Valid() && pushed == old(pushed) + [value]
    {
      ghost var ring := history[..];
      MirrorsNext(ring, n, cursor, pushed, ops.zero, value);
      history[cursor], history[cursor + n] := value, value;
      assert history[..] == ring[cursor := value][cursor + n := value];
      pushed := pushed + [value];
      cursor := cursor + 1;
      if cursor == n {
        cursor := 0;
      }
    }

    /** The latest n samples, oldest to newest, against the coefficients in their order. */
    method Filter(coefficients: seq<K>) returns (sum: S)
      requires Valid() && |coefficients| == n
      ensures sum == Correlate(ops, coefficients, pushed, n)
    {
      sum := ops.zero;
      var i := 0;
      while i < n
        invariant 0 <= i <= n && sum == Correlate(ops, coefficients, pushed, i)
      {
        InARow(i);
        sum := ops.add(sum, ops.scale(coefficients[i], history[cursor + i]));
        i := i + 1;
      }
    }
  }
}
