/** The voice capture: a mono 16-bit WAV file that is written as samples arrive and whose sizes are filled in when it
    is closed. */
module Pcm16WavCapture {
  import opened WavBytes

  /** A sample from the audio path; infinities and NaN are not numbers. */
  datatype Sample = Finite(value: real) | NotFinite

  function Clamp(x: real): real {
    if x < -1.0 then -1.0 else if x > 1.0 then 1.0 else x
  }

  /** To the nearest integer, halves away from zero. */
  function Round(x: real): int {
    if x >= 0.0 then (x + 0.5).Floor else -((0.5 - x).Floor)
  }

  /** The 16-bit word of a sample, in two's complement. */
  function Quantized(s: Sample): (w: Word16)
    ensures -32767 <= Signed(w) <= 32767
  {
    var v := Round((if s.Finite? then Clamp(s.value) else 0.0) * 32767.0);
    if v < 0 then v + TWO_16 else v
  }

  function QuantizedAll(samples: seq<Sample>): (words: seq<Word16>)
    ensures |words| == |samples|
  {
    seq(|samples|, i requires 0 <= i < |samples| => Quantized(samples[i]))
  }

  /** The format fields: PCM, one channel, rate, byte rate (computed in 32 bits), frame size, 16 bits. */
  function Fields(rate: Word32): (s: seq<Byte>)
    ensures |s| == 16
  {
    Bytes16(1) + Bytes16(1) + Bytes32(rate) + Bytes32(rate * 2 % TWO_32) + Bytes16(2) + Bytes16(16)
  }

  /** What follows the size of the RIFF chunk, up to the size of the data chunk. */
  function Format(rate: Word32): (s: seq<Byte>)
    ensures |s| == 32
  {
    WAVE + FMT + Bytes32(16) + Fields(rate) + DATA
  }

  function File(rate: Word32, riffSize: Word32, dataBytes: Word32, words: seq<Word16>): seq<Byte> {
    RIFF + Bytes32(riffSize) + Format(rate) + Bytes32(dataBytes) + Data(words)
  }

  /** Four bytes of a sequence replaced by others of their length. */
  lemma Patch(a: seq<Byte>, b: seq<Byte>, b': seq<Byte>, c: seq<Byte>)
    requires |b| == |b'|
    ensures var f := a + b + c; f[..|a|] + b' + f[|a| + |b'|..] == a + b' + c
  {}

  lemma PatchSizes(rate: Word32, riffSize: Word32, dataBytes: Word32, words: seq<Word16>)
    ensures var f := File(rate, 0, 0, words); var g := File(rate, riffSize, 0, words);
      && |f| == |g| == 44 + 2 * |words|
      && f[..4] + Bytes32(riffSize) + f[8..] == g
      && g[..40] + Bytes32(dataBytes) + g[44..] == File(rate, riffSize, dataBytes, words)
  {
    var rest := Format(rate) + Bytes32(0) + Data(words);
    assert File(rate, 0, 0, words) == RIFF + Bytes32(0) + rest;
    assert File(rate, riffSize, 0, words) == RIFF + Bytes32(riffSize) + rest;
    Patch(RIFF, Bytes32(0), Bytes32(riffSize), rest);
    Patch(RIFF + Bytes32(riffSize) + Format(rate), Bytes32(0), Bytes32(dataBytes), Data(words));
  }

  /** The size of the data chunk as close records it, capped to 32 bits. */
  function DataSize(count: nat): Word32 {
    if 2 * count <= 0xffff_ffff then 2 * count else 0xffff_ffff
  }

  /** The size of the RIFF chunk as close records it; the sum is computed in 32 bits. */
  function RiffSize(dataBytes: Word32): Word32 {
    if dataBytes <= 0xffff_fff7 then (36 + dataBytes) % TWO_32 else 0xffff_ffff
  }

  /** The file that is left after close. */
  function Closed(rate: Word32, words: seq<Word16>): seq<Byte> {
    File(rate, RiffSize(DataSize(|words|)), DataSize(|words|), words)
  }

  function RateOrDefault(rate: Word32): Word32 {
    if rate > 0 then rate else 48000
  }

  class Pcm16WavCapture {
    var active: bool
    var file: seq<Byte>
    var position: nat
    var rate: Word32
    var count: nat
    ghost var words: seq<Word16>

    /** While open, the file holds a header with empty sizes and the samples written so far. */
    ghost predicate Valid()
      reads this
    {
      active ==> file == File(rate, 0, 0, words) && position == |file| && count == |words|
    }

    constructor ()
      ensures Valid() && !active
    {
      active, file, position, rate, count := false, [], 0, 48000, 0;
      words := [];
    }

    /** The stream's write: over what is there, and on beyond the end. */
    method Write(bytes: seq<Byte>)
      requires position <= |file|
      modifies `file, `position
      ensures position == old(position) + |bytes|
      ensures file == old(file)[..old(position)] + bytes + if position <= |old(file)| then old(file)[position..] else []
    {
      var after := position + |bytes|;
      file := file[..position] + bytes + if after <= |file| then file[after..] else [];
      position := after;
    }

    /** A write at the end of the file, where done has been added to base so far. */
    method Extend(bytes: seq<Byte>, ghost base: seq<Byte>, ghost done: seq<Byte>)
      requires file == base + done && position == |file|
      modifies `file, `position
      ensures file == base + (done + bytes) && position == |file|
    {
      Write(bytes);
    }

    method WriteU16(w: Word16)
      requires position == |file|
      modifies `file, `position
      ensures file == old(file) + Bytes16(w) && position == |file|
    {
      Write([w % 256, w / 256]);
    }

    method WriteU32(w: Word32)
      requires position <= |file|
      modifies `file, `position
      ensures position == old(position) + 4
      ensures file == old(file)[..old(position)] + Bytes32(w)
                      + if position <= |old(file)| then old(file)[position..] else []
    {
      Write(Bytes32(w));
    }

    /** Seeks into the file and writes a word there. */
    method Overwrite(at: nat, w: Word32)
      requires at + 4 <= |file|
      modifies `file, `position
      ensures file == old(file)[..at] + Bytes32(w) + old(file)[at + 4..]
    {
      position := at;
      WriteU32(w);
    }

    method WriteFields()
      requires position == |file|
      modifies `file, `position
      ensures file == old(file) + Fields(rate) && position == |file|
    {
      ghost var base := file;
      Extend(Bytes16(1), base, []);
      Extend(Bytes16(1), base, [] + Bytes16(1));
      Extend(Bytes32(rate), base, [] + Bytes16(1) + Bytes16(1));
      Extend(Bytes32(rate * 2 % TWO_32), base, [] + Bytes16(1) + Bytes16(1) + Bytes32(rate));
      Extend(Bytes16(2), base, [] + Bytes16(1) + Bytes16(1) + Bytes32(rate) + Bytes32(rate * 2 % TWO_32));
      Extend(Bytes16(16), base, [] + Bytes16(1) + Bytes16(1) + Bytes32(rate) + Bytes32(rate * 2 % TWO_32) + Bytes16(2));
      assert [] + Bytes16(1) == Bytes16(1);
    }

    method WriteHeader()
      requires file == [] && position == 0
      modifies `file, `position
      ensures file == File(rate, 0, 0, []) && position == |file|
    {
      Write(RIFF);
      WriteU32(0);
      ghost var base := file;
      assert base == RIFF + Bytes32(0);
      WriteFormat();
      assert file == base + Format(rate);
      WriteU32(0);
      assert Data([]) == [];
    }

    method WriteFormat()
      requires position == |file|
      modifies `file, `position
      ensures file == old(file) + Format(rate) && position == |file|
    {
      ghost var base, head := file, WAVE + FMT + Bytes32(16);
      WriteTags();
      WriteFields();
      assert base + head + Fields(rate) == base + (head + Fields(rate));
      Extend(DATA, base, head + Fields(rate));
    }

    method WriteTags()
      requires position == |file|
      modifies `file, `position
      ensures file == old(file) + (WAVE + FMT + Bytes32(16)) && position == |file|
    {
      ghost var base := file;
      Write(WAVE);
      Extend(FMT, base, WAVE);
      Extend(Bytes32(16), base, WAVE + FMT);
    }

    /** opens and good stand for the success of opening the file and of writing its header. */
    method Open(sampleRate: Word32, opens: bool, good: bool) returns (ok: bool)
      requires Valid()
      modifies this
      ensures Valid() && ok == active == (opens && good)
      ensures ok ==> rate == RateOrDefault(sampleRate) && words == []
    {
      Close();
      rate, count := if sampleRate > 0 then sampleRate else 48000, 0;
      file, position, words := [], 0, [];
      if !opens {
        return false;
      }
      WriteHeader();
      active := good;
      ok := good;
    }

    method Append(samples: seq<Sample>)
      requires Valid()
      modifies this
      ensures Valid() && active == old(active) && rate == old(rate)
      ensures words == if active then old(words) + QuantizedAll(samples) else old(words)
    {
      if !active || samples == [] {
        assert old(words) + QuantizedAll([]) == old(words);
        return;
      }
      var i := 0;
      while i < |samples|
        invariant 0 <= i <= |samples| && Valid() && active && rate == old(rate)
        invariant words == old(words) + QuantizedAll(samples[..i])
      {
        var w := Quantized(samples[i]);
        DataAppends(words, w);
        WriteU16(w);
        count := count + 1;
        words := words + [w];
        assert QuantizedAll(samples[..i + 1]) == QuantizedAll(samples[..i]) + [w];
        i := i + 1;
      }
      assert samples[..i] == samples;
    }

    /** The two size fields, over the zeros that the header left there. */
    method FillIn(riffSize: Word32, dataBytes: Word32)
      requires file == File(rate, 0, 0, words)
      modifies `file, `position
      ensures file == File(rate, riffSize, dataBytes, words)
    {
      PatchSizes(rate, riffSize, dataBytes, words);
      hide File, Bytes32;
      Overwrite(4, riffSize);
      Overwrite(40, dataBytes);
    }

    method Close()
      requires Valid()
      modifies this
      ensures Valid() && !active && words == old(words) && rate == old(rate)
      ensures file == if old(active) then Closed(old(rate), words) else old(file)
    {
      if !active {
        return;
      }
      var dataBytes := if 2 * count <= 0xffff_ffff then 2 * count else 0xffff_ffff;
      var riffSize := if dataBytes <= 0xffff_fff7 then (36 + dataBytes) % TWO_32 else 0xffff_ffff;
      FillIn(riffSize, dataBytes);
      position := |file|;
      active := false;
    }
  }
}
