/** The streaming filters driven by callers that cut the input into blocks as they please. */
module BlockPartitions {
  import opened Blocks
  import opened StreamingFir
  import Decimator = NfmInputDecimator
  import Speech = WfmSpeechFir
  import Clock = NfmPcmClock

  /** From reset, the decimator's outputs over all blocks are the decimated convolution of the whole input. */
  method DecimateBlocks<S(0), K>(d: Decimator.NfmInputDecimator<S, K>, blocks: seq<seq<S>>) returns (out: seq<S>)
    requires d.Valid() && d.factor > 0 && d.taps != [] && d.seen == []
    modifies d, d.history
    ensures out == Decimated(d.ops, old(d.taps), Joined(blocks), old(d.factor))
  {
    out := [];
    var i := 0;
    assert Joined(blocks[..0]) == [];
    while i < |blocks|
      invariant 0 <= i <= |blocks| && d.Valid() && d.seen == Joined(blocks[..i])
      invariant d.taps == old(d.taps) && d.factor == old(d.factor) && d.history == old(d.history)
      invariant out == Decimated(d.ops, d.taps, d.seen, d.factor)
    {
      JoinedNext(blocks, i);
      var o := d.Process(blocks[i]);
      out := out + o;
      i := i + 1;
    }
    assert blocks[..i] == blocks;
  }

  /** What the speech filter has seen that counts for these taps: nothing when their number changes. */
  ghost function Context<S(0), K>(f: Speech.WfmSpeechFir<S, K>, taps: seq<K>): seq<S>
    reads f
  {
    if f.tapCount == |taps| then f.seen else []
  }

  /** From any state, the speech filter's outputs over all blocks are the convolution of the whole input, behind what
      the filter has seen with as many taps; from reset, or with another number of taps, that is nothing. Without taps
      the blocks stay as they are. */
  method FilterBlocks<S(0), K>(f: Speech.WfmSpeechFir<S, K>, taps: seq<K>, blocks: seq<seq<S>>) returns (out: seq<S>)
    requires f.Valid()
    modifies f, f.history
    ensures f.Valid() && out == Filtered(f.ops, taps, old(Context(f, taps)), Joined(blocks))
  {
    out := [];
    var i := 0;
    hide Filtered;
    ghost var x, done := Context(f, taps), [];
    assert x + done == x;
    while i < |blocks|
      invariant 0 <= i <= |blocks| && f.Valid() && (f.history == old(f.history) || fresh(f.history))
      invariant done == Joined(blocks[..i]) && out == Filtered(f.ops, taps, x, done)
      invariant taps != [] ==> Context(f, taps) == x + done
    {
      JoinedNext(blocks, i);
      FilteredContinues(f.ops, taps, x, done, blocks[i]);
      var o := FilterBlock(f, taps, blocks[i], x + done);
      assert x + (done + blocks[i]) == x + done + blocks[i];
      out, done := out + o, done + blocks[i];
      i := i + 1;
    }
    assert blocks[..i] == blocks;
  }

  /** One block, in an array of its own. */
  method FilterBlock<S(0), K>(f: Speech.WfmSpeechFir<S, K>, taps: seq<K>, block: seq<S>, ghost before: seq<S>)
    returns (out: seq<S>)
    requires f.Valid() && (taps != [] ==> before == Context(f, taps))
    modifies f, f.history
    ensures f.Valid() && (f.history == old(f.history) || fresh(f.history))
    ensures out == Filtered(f.ops, taps, before, block)
    ensures taps != [] ==> Context(f, taps) == before + block
  {
    var samples := new S[|block|](k requires 0 <= k < |block| => block[k]);
    assert samples[..] == block;
    f.Process(samples, taps);
    out := samples[..];
    assert block == [] ==> before + block == before;
  }

  /** The two agree: the decimator over one cutting of an input gives every factor-th output of the speech filter, with
      the same taps and arithmetic, over any other cutting of it. The speech filter may be new, reset, or set up for
      another number of taps. */
  method DecimateAndFilter<S(0), K>(d: Decimator.NfmInputDecimator<S, K>, cut: seq<seq<S>>,
                                    f: Speech.WfmSpeechFir<S, K>, otherCut: seq<seq<S>>)
    returns (decimated: seq<S>, full: seq<S>)
    requires d.Valid() && d.factor > 0 && d.taps != [] && d.seen == []
    requires f.Valid() && Context(f, d.taps) == [] && f.ops == d.ops
    requires Joined(cut) == Joined(otherCut) && d.history != f.history
    modifies d, d.history, f, f.history
    ensures full == FullRate(f.ops, old(d.taps), Joined(cut)) && IsEveryNth(decimated, full, old(d.factor))
  {
    ghost var x, factor, taps := Joined(cut), d.factor, d.taps;
    DecimatedIsEveryNth(d.ops, taps, x, factor);
    full := FilterBlocks(f, d.taps, otherCut);
    assert [] + x == x;
    decimated := DecimateBlocks(d, cut);
  }

  /** The two from scratch, as a receiver sets them up. */
  method DecimateAndFilterNew<S(0), K>(ops: Ops<S, K>, design: nat -> seq<K>, factor: nat, cut: seq<seq<S>>,
                                       otherCut: seq<seq<S>>)
    returns (decimated: seq<S>, full: seq<S>)
    requires factor > 0 && design(factor) != [] && Joined(cut) == Joined(otherCut)
    ensures full == FullRate(ops, design(factor), Joined(cut)) && IsEveryNth(decimated, full, factor)
  {
    var d := new Decimator.NfmInputDecimator(ops, design);
    d.Configure(factor);
    assert d.factor == factor && d.taps == design(factor);
    var f := new Speech.WfmSpeechFir(ops);
    decimated, full := DecimateAndFilter(d, cut, f, otherCut);
  }

  /** From reset, the clock's outputs over all blocks are the resampling of the whole input. */
  method ResampleBlocks(c: Clock.NfmPcmClock, blocks: seq<seq<real>>) returns (out: seq<real>)
    requires c.Valid() && c.Running() && c.seen == []
    modifies c, c.history
    ensures out == Clock.Resampled(Joined(blocks), old(c.Step()))
  {
    out := [];
    var i := 0;
    Clock.DueExactly(0, c.Step(), 0);
    while i < |blocks|
      invariant 0 <= i <= |blocks| && c.Valid() && c.seen == Joined(blocks[..i])
      invariant c.inputRate == old(c.inputRate) && c.outputRate == old(c.outputRate)
      invariant out == Clock.Resampled(c.seen, c.Step())
    {
      JoinedNext(blocks, i);
      var o := c.Process(blocks[i]);
      out := out + o;
      i := i + 1;
    }
    assert blocks[..i] == blocks;
  }
}
