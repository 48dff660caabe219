/** RIFF WAVE files in general, as any program may write them, and what the comparison reader makes of them. */
module WavFiles {
  import opened WavBytes
  import opened ComparePcmWav
  import Division

  /** A chunk: its tag and its content, to be padded to an even length. */
  datatype Chunk = Chunk(tag: seq<Byte>, content: seq<Byte>) {
    predicate Valid() {
      |tag| == 4 && |content| < TWO_32
    }

    function Bytes(): (b: seq<Byte>)
      requires Valid()
      ensures |b| == 8 + |content| + |content| % 2
    {
      tag + Bytes32(|content|) + content + if |content| % 2 == 1 then [0] else []
    }
  }

  predicate AllValid(chunks: seq<Chunk>) {
    forall i :: 0 <= i < |chunks| ==> chunks[i].Valid()
  }

  function Body(chunks: seq<Chunk>): seq<Byte>
    requires AllValid(chunks)
  {
    if chunks == [] then [] else chunks[0].Bytes() + Body(chunks[1..])
  }

  function FileOf(chunks: seq<Chunk>): seq<Byte>
    requires AllValid(chunks) && 4 + |Body(chunks)| < TWO_32
  {
    RIFF + Bytes32(4 + |Body(chunks)|) + WAVE + Body(chunks)
  }

  /** What a chunk adds to the data. */
  function DataOf(chunk: Chunk): seq<Byte> {
    if chunk.tag == DATA then chunk.content else []
  }

  /** The content of all data chunks, in order. */
  function AllData(chunks: seq<Chunk>): seq<Byte> {
    if chunks == [] then [] else DataOf(chunks[0]) + AllData(chunks[1..])
  }

  /** Format chunks have room for the format. */
  predicate LongFormats(chunks: seq<Chunk>) {
    forall i :: 0 <= i < |chunks| && chunks[i].tag == FMT ==> |chunks[i].content| >= 16
  }

  /** The last format chunk, or the one given when there is none. */
  function LastFormat(chunks: seq<Chunk>, before: FormatOption): FormatOption
    requires LongFormats(chunks)
  {
    if chunks == [] then before
    else LastFormat(chunks[1..], if chunks[0].tag == FMT then Present(ParseFormat(chunks[0].content)) else before)
  }

  lemma SliceOfSlice(f: seq<Byte>, p: nat, n: nat, i: nat, j: nat)
    requires p + n <= |f| && i <= j <= n
    ensures f[p + i..p + j] == f[p..p + n][i..j]
  {
    var part := f[p..p + n];
    assert forall k :: i <= k < j ==> part[k] == f[p + k];
  }

  /** Where the parts of a chunk are. */
  lemma ChunkIsLaid(chunk: Chunk)
    requires chunk.Valid()
    ensures var b, size := chunk.Bytes(), |chunk.content|;
      b[..4] == chunk.tag && b[4..8] == Bytes32(size) && b[8..8 + size] == chunk.content
  {}

  lemma ChunkInFile(f: seq<Byte>, p: nat, chunk: Chunk)
    requires chunk.Valid() && p + |chunk.Bytes()| <= |f| && f[p..p + |chunk.Bytes()|] == chunk.Bytes()
    ensures var size := |chunk.content|;
      f[p..p + 4] == chunk.tag && ToWord32(f[p + 4..p + 8]) == size && f[p + 8..p + 8 + size] == chunk.content
  {
    var b, size := chunk.Bytes(), |chunk.content|;
    Word32RoundTrip(size);
    ChunkIsLaid(chunk);
    hide Bytes32, ToWord32, Chunk.Bytes;
    SliceOfSlice(f, p, |b|, 0, 4);
    SliceOfSlice(f, p, |b|, 4, 8);
    SliceOfSlice(f, p, |b|, 8, 8 + size);
  }

  /** One chunk in the middle of a file is read as what it is; chunks with other tags are passed over. */
  lemma ChunkIsRead(f: seq<Byte>, c: Cursor, end: nat, chunk: Chunk)
    requires chunk.Valid() && (chunk.tag == FMT ==> |chunk.content| >= 16)
    requires c.pos + |chunk.Bytes()| <= end <= |f| && f[c.pos..c.pos + |chunk.Bytes()|] == chunk.Bytes()
    ensures NextChunk(f, c, end)
         == Ok(Cursor(c.pos + |chunk.Bytes()|,
                      if chunk.tag == FMT then Present(ParseFormat(chunk.content)) else c.format,
                      if chunk.tag == DATA then c.data + chunk.content else c.data))
  {
    hide *;
    ChunkInFile(f, c.pos, chunk);
    NextChunkIs(f, c, end, chunk.tag, chunk.content);
  }

  lemma NextChunkIs(f: seq<Byte>, c: Cursor, end: nat, tag: seq<Byte>, payload: seq<Byte>)
    requires (tag == FMT ==> |payload| >= 16) && c.pos + 8 + |payload| + |payload| % 2 <= end <= |f|
    requires f[c.pos..c.pos + 4] == tag && ToWord32(f[c.pos + 4..c.pos + 8]) == |payload|
    requires f[c.pos + 8..c.pos + 8 + |payload|] == payload
    ensures NextChunk(f, c, end)
         == Ok(Cursor(c.pos + 8 + |payload| + |payload| % 2,
                      if tag == FMT then Present(ParseFormat(payload)) else c.format,
                      if tag == DATA then c.data + payload else c.data))
  {
    hide ToWord32, ParseFormat;
  }

  /** A chunk is read exactly when it is there with its padding, within the RIFF chunk, and long enough for a format if
      it is to hold one. */
  lemma ChunkIsReadIff(f: seq<Byte>, c: Cursor, end: nat)
    ensures NextChunk(f, c, end).Ok? <==>
      && c.pos + 8 <= |f|
      && var size := ToWord32(f[c.pos + 4..c.pos + 8]); var after := c.pos + 8 + size + size % 2;
         after <= end && after <= |f| && (f[c.pos..c.pos + 4] == FMT ==> size >= 16)
  {
    hide ToWord32, ParseFormat;
  }

  lemma DataIsAdded(read: seq<Byte>, chunk: Chunk)
    ensures read + DataOf(chunk) == if chunk.tag == DATA then read + chunk.content else read
  {}

  /** The first chunk of a body, and what follows it. */
  lemma BodyUnfolds(f: seq<Byte>, pos: nat, chunks: seq<Chunk>)
    requires AllValid(chunks) && chunks != [] && pos <= |f| && f[pos..] == Body(chunks)
    ensures var n := |chunks[0].Bytes()|;
      pos + n <= |f| && f[pos..pos + n] == chunks[0].Bytes() && f[pos + n..] == Body(chunks[1..])
  {
    var b, rest := chunks[0].Bytes(), Body(chunks[1..]);
    var n := |b|;
    assert f[pos..] == b + rest;
    assert f[pos..][..n] == b && f[pos..][n..] == rest;
    assert f[pos..pos + n] == f[pos..][..n] && f[pos + n..] == f[pos..][n..];
  }

  lemma Regroup(a: seq<Byte>, b: seq<Byte>, c: seq<Byte>)
    ensures a + (b + c) == a + b + c
  {}

  lemma NothingBefore(s: seq<Byte>)
    ensures [] + s == s
  {}

  lemma {:induction false} ChunksAreRead(f: seq<Byte>, c: Cursor, chunks: seq<Chunk>)
    requires AllValid(chunks) && c.pos <= |f| && f[c.pos..] == Body(chunks)
    requires LongFormats(chunks)
    ensures Chunks(f, c, |f|) == Ok(Cursor(|f|, LastFormat(chunks, c.format), c.data + AllData(chunks)))
    decreases |chunks|
  {
    if chunks == [] {
      assert c.pos == |f| && c.data + [] == c.data;
    } else {
      var rest, n := chunks[1..], |chunks[0].Bytes()|;
      hide NextChunk, Body, Chunk.Bytes, ParseFormat, Chunk.Valid, DataOf;
      assert AllValid(rest) && LongFormats(rest) && chunks[0].Valid();
      BodyUnfolds(f, c.pos, chunks);
      ChunkIsRead(f, c, |f|, chunks[0]);
      var c' := NextChunk(f, c, |f|).value;
      ChunksAreRead(f, c', rest);
      DataIsAdded(c.data, chunks[0]);
      Regroup(c.data, DataOf(chunks[0]), AllData(rest));
    }
  }

  lemma FileIsLaid(chunks: seq<Chunk>)
    requires AllValid(chunks) && 4 + |Body(chunks)| < TWO_32
    ensures var f, size := FileOf(chunks), 4 + |Body(chunks)|;
      |f| == 8 + size && f[..4] == RIFF && ToWord32(f[4..8]) == size && f[8..12] == WAVE && f[12..] == Body(chunks)
  {
    var f, size := FileOf(chunks), 4 + |Body(chunks)|;
    Word32RoundTrip(size);
    hide Bytes32, ToWord32, Body;
    assert f[4..8] == Bytes32(size);
  }

  /** Whatever chunks a file has, of even or odd length: it is read as its last format and all its data together, and
      refused when it has no format. */
  lemma FileIsRead(chunks: seq<Chunk>)
    requires AllValid(chunks) && 4 + |Body(chunks)| < TWO_32
    requires LongFormats(chunks)
    ensures var format := LastFormat(chunks, Missing);
      ReadWav(FileOf(chunks))
      == if format.Missing? then Err(MissingFormat) else Decode(format.format, AllData(chunks))
  {
    var f := FileOf(chunks);
    FileIsLaid(chunks);
    hide FileOf, Body, Decode, LastFormat, AllData, ToWord32, Chunks;
    ChunksAreRead(f, Cursor(12, Missing, []), chunks);
    NothingBefore(AllData(chunks));
  }

  // ---- Formats ------------------------------------------------------------------------------

  function FormatBytes(m: Format): (b: seq<Byte>)
    ensures |b| == 16
  {
    Bytes16(m.codec) + Bytes16(m.channels) + Bytes32(m.rate) + Bytes32(m.byteRate) + Bytes16(m.align) + Bytes16(m.bits)
  }

  lemma FormatReadsBack(m: Format)
    ensures ParseFormat(FormatBytes(m)) == m
  {
    var p := FormatBytes(m);
    assert p[0..2] == Bytes16(m.codec) && p[2..4] == Bytes16(m.channels) && p[4..8] == Bytes32(m.rate);
    assert p[8..12] == Bytes32(m.byteRate) && p[12..14] == Bytes16(m.align) && p[14..16] == Bytes16(m.bits);
    Word32RoundTrip(m.rate);
    Word32RoundTrip(m.byteRate);
  }

  /** A file of one format and one data chunk, with another chunk between them. */
  function Simple(m: Format, other: Chunk, data: seq<Byte>): seq<Chunk> {
    [Chunk(FMT, FormatBytes(m)), other, Chunk(DATA, data)]
  }

  lemma SimpleBody(a: Chunk, b: Chunk, c: Chunk)
    requires a.Valid() && b.Valid() && c.Valid()
    ensures AllValid([a, b, c]) && Body([a, b, c]) == a.Bytes() + (b.Bytes() + c.Bytes())
    ensures |Body([a, b, c])| <= 27 + |a.content| + |b.content| + |c.content|
  {
    var chunks := [a, b, c];
    assert chunks[1..] == [b, c] && [b, c][1..] == [c] && [c][1..] == [];
    hide Chunk.Bytes;
    assert Body([c]) == c.Bytes() + Body([]) == c.Bytes();
  }

  lemma SimpleParts(m: Format, other: Chunk, data: seq<Byte>)
    requires other.tag != FMT && other.tag != DATA
    ensures LongFormats(Simple(m, other, data))
    ensures AllData(Simple(m, other, data)) == data
    ensures LastFormat(Simple(m, other, data), Missing) == Present(m)
  {
    var chunks, last := Simple(m, other, data), [Chunk(DATA, data)];
    assert chunks[0].tag == FMT && FMT[0] != DATA[0];
    assert chunks[1..] == [other] + last && ([other] + last)[1..] == last && last[1..] == [];
    assert DataOf(chunks[0]) == [] && DataOf(other) == [] && DataOf(last[0]) == data;
    FormatReadsBack(m);
    hide ParseFormat, FormatBytes, DataOf;
    assert AllData(last) == data + AllData([]) == data;
    NothingBefore(data);
    assert LastFormat(last, Present(m)) == LastFormat([], Present(m)) == Present(m);
    assert LastFormat([other] + last, Present(m)) == LastFormat(last, Present(m));
  }

  /** Such a file is decoded by its format, and the other chunk is passed over. */
  lemma SimpleIsDecoded(m: Format, other: Chunk, data: seq<Byte>)
    requires other.Valid() && other.tag != FMT && other.tag != DATA && |data| + |other.content| < TWO_32 - 100
    ensures AllValid(Simple(m, other, data)) && 4 + |Body(Simple(m, other, data))| < TWO_32
    ensures ReadWav(FileOf(Simple(m, other, data))) == Decode(m, data)
  {
    SimpleBody(Chunk(FMT, FormatBytes(m)), other, Chunk(DATA, data));
    SimpleParts(m, other, data);
    hide Body, LastFormat, AllData, Decode, ReadWav, FormatBytes;
    assert FMT[0] != DATA[0];
    FileIsRead(Simple(m, other, data));
  }

  /** 16-bit PCM with any number of channels comes back with its rate, its channels and its samples, interleaved as they
      are, exactly when they make whole frames. */
  lemma PcmIsDecoded(channels: nat, rate: Word32, words: seq<Word16>)
    requires 0 < channels < 0x8000 && 0 < rate && rate * (2 * channels) < TWO_32
    ensures Decode(Format(1, channels, rate, rate * (2 * channels), 2 * channels, 16), Data(words))
         == if |words| % channels == 0 then Ok(Wav(rate, channels, Pcm(Scaled(words)))) else Err(PartialFrame)
  {
    assert channels * 16 / 8 == 2 * channels;
    DataRoundTrip(words);
    FrameIff(|words|, channels);
  }

  lemma FrameIff(n: nat, channels: nat)
    requires channels > 0
    ensures (2 * n) % (2 * channels) == 0 <==> n % channels == 0
  {
    var q, m := n / channels, n % channels;
    assert n == q * channels + m;
    assert 2 * n == q * (2 * channels) + 2 * m;
    QuotientOf(2 * n, 2 * channels, q, 2 * m);
  }

  lemma QuotientOf(p: nat, d: nat, q: nat, m: nat)
    requires p == q * d + m && m < d
    ensures p % d == m
  {
    Division.Quotient(p, d, q, m);
  }

  /** Samples of 32 bits in a row, low byte first. */
  function Data32(words: seq<Word32>): (s: seq<Byte>)
    ensures |s| == 4 * |words|
  {
    seq(4 * |words|, p requires 0 <= p < 4 * |words| => Bytes32(words[p / 4])[p % 4])
  }

  lemma Data32At(words: seq<Word32>, i: nat, j: nat)
    requires i < |words| && j < 4
    ensures Data32(words)[4 * i + j] == Bytes32(words[i])[j]
  {
    hide Bytes32;
    assert (4 * i + j) / 4 == i && (4 * i + j) % 4 == j;
  }

  lemma Data32RoundTrip(words: seq<Word32>)
    ensures Words32(Data32(words)) == words
  {
    var d := Data32(words);
    hide Bytes32, ToWord32, Data32;
    forall i | 0 <= i < |words|
      ensures Words32(d)[i] == words[i]
    {
      Data32At(words, i, 0);
      Data32At(words, i, 1);
      Data32At(words, i, 2);
      Data32At(words, i, 3);
      assert d[4 * i..4 * i + 4] == Bytes32(words[i]);
      Word32RoundTrip(words[i]);
    }
  }

  /** Infinities and NaN, of either sign, are the words from 0x7f800000 and from 0xff800000 on. */
  lemma FiniteIff(w: Word32)
    ensures FiniteFloat(w) <==> w < 0x7f80_0000 || 0x8000_0000 <= w < 0xff80_0000
  {}

  /** 32-bit float samples come back as they are, in stereo here, exactly when all of them are finite. */
  lemma StereoFloatIsDecoded(rate: Word32, words: seq<Word32>)
    requires 0 < rate < 0x2000_0000 && |words| % 2 == 0
    ensures Decode(Format(3, 2, rate, rate * 8, 8, 32), Data32(words))
         == if forall i :: 0 <= i < |words| ==> FiniteFloat(words[i]) then Ok(Wav(rate, 2, Float(words)))
            else Err(NonFinite)
  {
    Data32RoundTrip(words);
    hide Data32, Words32, FiniteFloat;
    assert |Data32(words)| == 8 * (|words| / 2);
  }

  /** What is refused: other codecs and widths, fields that do not agree, and no channel or no rate. */
  lemma OddFormatsAreRefused(m: Format, data: seq<Byte>)
    ensures Decode(m, data) == Err(Unsupported) <==> !(m.codec == 1 && m.bits == 16) && !(m.codec == 3 && m.bits == 32)
    ensures Decode(m, data).Ok? ==>
      && m.channels > 0 && m.rate > 0 && 8 * m.align == m.channels * m.bits && m.byteRate == m.rate * m.align
      && |data| % m.align == 0 && Decode(m, data).value.channels == m.channels && Decode(m, data).value.rate == m.rate
  {
    if Decode(m, data).Ok? {
      Widths(m.channels, m.bits, m.align);
    }
    hide Scaled, Words, Words32, FiniteFloat;
  }

  lemma Widths(channels: nat, bits: nat, align: nat)
    requires (bits == 16 || bits == 32) && align == channels * bits / 8
    ensures 8 * align == channels * bits
  {
    if bits == 16 {
      assert align == channels * 16 / 8 == channels * 2;
    } else {
      assert align == channels * 32 / 8 == channels * 4;
    }
  }
}
