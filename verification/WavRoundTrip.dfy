/** The reader over the writer's files: exactly which captures are read back, and how closely. */
module WavRoundTrip {
  import opened WavBytes
  import opened Pcm16WavCapture
  import opened ComparePcmWav
  import opened Blocks

  /** Where everything is in a file of the writer. */
  ghost predicate Laid(f: seq<Byte>, rate: Word32, riffSize: Word32, dataBytes: Word32, words: seq<Word16>) {
    && |f| == 44 + 2 * |words|
    && f[..4] == RIFF && f[4..8] == Bytes32(riffSize) && f[8..12] == WAVE
    && f[12..16] == FMT && f[16..20] == Bytes32(16) && f[20..36] == Fields(rate)
    && f[36..40] == DATA && f[40..44] == Bytes32(dataBytes) && f[44..] == Data(words)
  }

  lemma FileIsLaid(rate: Word32, riffSize: Word32, dataBytes: Word32, words: seq<Word16>)
    ensures Laid(File(rate, riffSize, dataBytes, words), rate, riffSize, dataBytes, words)
  {}

  /** What the writer's format fields say. */
  function Written(rate: Word32): ComparePcmWav.Format {
    ComparePcmWav.Format(1, 1, rate, rate * 2 % TWO_32, 2, 16)
  }

  lemma FieldsParsed(rate: Word32)
    ensures ParseFormat(Fields(rate)) == Written(rate)
  {
    var p, byteRate: Word32 := Fields(rate), rate * 2 % TWO_32;
    assert p[0..2] == Bytes16(1) && p[2..4] == Bytes16(1) && p[4..8] == Bytes32(rate) && p[8..12] == Bytes32(byteRate);
    assert p[12..14] == Bytes16(2) && p[14..16] == Bytes16(16);
    Word32RoundTrip(rate);
    Word32RoundTrip(byteRate);
  }

  lemma FormatChunkRead(f: seq<Byte>, rate: Word32, riffSize: Word32, dataBytes: Word32, words: seq<Word16>, end: nat)
    requires Laid(f, rate, riffSize, dataBytes, words)
    ensures NextChunk(f, Cursor(12, Missing, []), end)
         == if end < 36 then Err(ChunkExceedsRiff) else Ok(Cursor(36, Present(Written(rate)), []))
  {
    Word32RoundTrip(16);
    FieldsParsed(rate);
    assert FMT != DATA by { assert FMT[0] != DATA[0]; }
  }

  lemma DataChunkRead(f: seq<Byte>, rate: Word32, riffSize: Word32, dataBytes: Word32, words: seq<Word16>,
                      fmt: FormatOption, end: nat)
    requires Laid(f, rate, riffSize, dataBytes, words) && dataBytes == DataSize(|words|)
    ensures var d: int := dataBytes;
      && (44 + d > end ==> NextChunk(f, Cursor(36, fmt, []), end).Err?)
      && (d == 2 * |words| && 44 + d <= end ==>
           NextChunk(f, Cursor(36, fmt, []), end) == Ok(Cursor(44 + 2 * |words|, fmt, Data(words))))
  {
    Word32RoundTrip(dataBytes);
    assert DATA != FMT by { assert FMT[0] != DATA[0]; }
    if dataBytes == 2 * |words| {
      assert f[44..44 + dataBytes] == f[44..];
      assert [] + Data(words) == Data(words);
    }
  }

  /** The recorded sizes of a capture of count samples: consistent when they fit in 32 bits; otherwise the RIFF chunk
      ends before the format does, or before the data does. */
  lemma RecordedSizes(count: nat)
    ensures var d: int, end: int := DataSize(count), RiffSize(DataSize(count)) + 8;
      if 2 * count <= 0xffff_ffdb then d == 2 * count && end == 44 + d
      else end < 36 || end < 44 + d
  {}

  /** The chunks of a closed file are read to the end exactly when its size fits the RIFF header. */
  lemma ChunksOfClosed(f: seq<Byte>, rate: Word32, words: seq<Word16>)
    requires Laid(f, rate, RiffSize(DataSize(|words|)), DataSize(|words|), words)
    ensures var r := Chunks(f, Cursor(12, Missing, []), RiffSize(DataSize(|words|)) + 8);
      if 2 * |words| <= 0xffff_ffdb then r == Ok(Cursor(44 + 2 * |words|, Present(Written(rate)), Data(words)))
      else r.Err? || r.value.format.Missing?
  {
    var d := DataSize(|words|);
    var end := RiffSize(d) + 8;
    var start, middle := Cursor(12, Missing, []), Cursor(36, Present(Written(rate)), []);
    RecordedSizes(|words|);
    FormatChunkRead(f, rate, RiffSize(d), d, words, end);
    DataChunkRead(f, rate, RiffSize(d), d, words, middle.format, end);
    if end >= 36 {
      assert Chunks(f, start, end) == Chunks(f, middle, end);
    }
    if 2 * |words| <= 0xffff_ffdb {
      var last := Cursor(44 + 2 * |words|, Present(Written(rate)), Data(words));
      assert middle.pos < end ==> Chunks(f, middle, end) == Chunks(f, last, end);
    }
  }

  lemma WrittenDecodes(rate: Word32, words: seq<Word16>)
    requires rate > 0
    ensures var r := Decode(Written(rate), Data(words));
      (r.Ok? <==> rate < 0x8000_0000) && (r.Ok? ==> r.value == Wav(rate, 1, Pcm(Scaled(words))))
  {
    DataRoundTrip(words);
    assert Consistent(Written(rate)) <==> rate < 0x8000_0000;
  }

  /** The reader accepts the file left after close, and gives back the rate, one channel and the written samples,
      exactly when the byte rate fits in 32 bits and the data and header together do. */
  lemma ClosedReadsBackIff(rate: Word32, words: seq<Word16>)
    requires rate > 0
    ensures var r := ReadWav(Closed(rate, words));
      && (r.Ok? <==> rate < 0x8000_0000 && 2 * |words| <= 0xffff_ffdb)
      && (r.Ok? ==> r.value == Wav(rate, 1, Pcm(Scaled(words))))
  {
    var d := DataSize(|words|);
    FileIsLaid(rate, RiffSize(d), d, words);
    Word32RoundTrip(RiffSize(d));
    ChunksOfClosed(Closed(rate, words), rate, words);
    WrittenDecodes(rate, words);
  }

  /** An empty capture at 2^31 Hz is written but not read back. */
  lemma HighRateIsRejected()
    ensures ReadWav(Closed(0x8000_0000, [])).Err?
  {
    ClosedReadsBackIff(0x8000_0000, []);
  }

  /** A number within full scale comes back within one and a half steps. */
  lemma SampleComesBackClose(s: Sample)
    ensures var y := Signed(Quantized(s)) as real / 32768.0;
      && -1.0 < y < 1.0
      && (s.Finite? && -1.0 <= s.value <= 1.0 ==> -1.5 / 32768.0 <= y - s.value <= 1.5 / 32768.0)
      && (s.Finite? && s.value > 1.0 ==> y == 32767.0 / 32768.0)
      && (s.Finite? && s.value < -1.0 ==> y == -32767.0 / 32768.0)
      && (s.NotFinite? ==> y == 0.0)
  {
    var v := (if s.Finite? then Clamp(s.value) else 0.0) * 32767.0;
    RoundIsNearest(v);
  }

  lemma RoundIsNearest(x: real)
    ensures -0.5 <= Round(x) as real - x <= 0.5 && Round(-x) == -Round(x)
  {}

  lemma QuantizedJoins(a: seq<Sample>, b: seq<Sample>)
    ensures QuantizedAll(a + b) == QuantizedAll(a) + QuantizedAll(b)
  {}

  /** A whole capture: open, any appends, close, read. */
  method CaptureAndRead(sampleRate: Word32, blocks: seq<seq<Sample>>) returns (r: Result<Wav>)
    ensures var rate := if sampleRate > 0 then sampleRate else 48000; var samples := Joined(blocks);
      && (r.Ok? <==> rate < 0x8000_0000 && 2 * |samples| <= 0xffff_ffdb)
      && (r.Ok? ==> r.value == Wav(rate, 1, Pcm(Scaled(QuantizedAll(samples)))))
  {
    var c := new Pcm16WavCapture();
    var ok := c.Open(sampleRate, true, true);
    var i := 0;
    while i < |blocks|
      invariant 0 <= i <= |blocks| && c.Valid() && c.active && c.rate == RateOrDefault(sampleRate)
      invariant c.words == QuantizedAll(Joined(blocks[..i]))
    {
      JoinedNext(blocks, i);
      QuantizedJoins(Joined(blocks[..i]), blocks[i]);
      c.Append(blocks[i]);
      i := i + 1;
    }
    assert blocks[..i] == blocks;
    c.Close();
    r := Read(c.file);
    ClosedReadsBackIff(c.rate, c.words);
  }
}
