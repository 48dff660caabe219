/** The comparison script's strict RIFF WAVE reader. */
module ComparePcmWav {
  import opened WavBytes

  datatype Error =
    | NotRiffWave | TruncatedChunkHeader | ChunkExceedsRiff | TruncatedChunk | TruncatedFormat | MissingPadding
    | MissingFormat | Unsupported | InconsistentFormat | PartialFrame | NonFinite

  datatype Result<+T> = Ok(value: T) | Err(error: Error)

  datatype Format = Format(codec: Word16, channels: Word16, rate: Word32, byteRate: Word32, align: Word16, bits: Word16)

  datatype FormatOption = Missing | Present(format: Format)

  /** PCM values are scaled to [-1, 1); float samples are kept as their 32-bit words. */
  datatype Values = Pcm(values: seq<real>) | Float(words: seq<Word32>)

  datatype Wav = Wav(rate: nat, channels: nat, values: Values)

  function ParseFormat(p: seq<Byte>): Format
    requires |p| >= 16
  {
    Format(ToWord16(p[0..2]), ToWord16(p[2..4]), ToWord32(p[4..8]), ToWord32(p[8..12]),
           ToWord16(p[12..14]), ToWord16(p[14..16]))
  }

  /** How far the reader is, and what the chunks so far have left. */
  datatype Cursor = Cursor(pos: nat, format: FormatOption, data: seq<Byte>)

  /** Past the chunk at the cursor. */
  function NextChunk(f: seq<Byte>, c: Cursor, end: nat): (r: Result<Cursor>)
    ensures r.Ok? ==> r.value.pos > c.pos
  {
    if c.pos + 8 > |f| then Err(TruncatedChunkHeader)
    else
      var tag, size, body := f[c.pos..c.pos + 4], ToWord32(f[c.pos + 4..c.pos + 8]), c.pos + 8;
      if body + size + size % 2 > end then Err(ChunkExceedsRiff)
      else if body + size > |f| then Err(TruncatedChunk)
      else if tag == FMT && size < 16 then Err(TruncatedFormat)
      else if size % 2 == 1 && body + size == |f| then Err(MissingPadding)
      else
        var payload := f[body..body + size];
        Ok(Cursor(body + size + size % 2,
                  if tag == FMT then Present(ParseFormat(payload)) else c.format,
                  if tag == DATA then c.data + payload else c.data))
  }

  /** Past all the chunks up to the end of the RIFF chunk. */
  function Chunks(f: seq<Byte>, c: Cursor, end: nat): Result<Cursor>
    decreases if end > c.pos then end - c.pos else 0
  {
    if c.pos >= end then Ok(c)
    else
      match NextChunk(f, c, end)
      case Err(e) => Err(e)
      case Ok(c') => Chunks(f, c', end)
  }

  function Words32(data: seq<Byte>): seq<Word32>
    requires |data| % 4 == 0
  {
    seq(|data| / 4, i requires 0 <= i < |data| / 4 => ToWord32(data[4 * i..4 * i + 4]))
  }

  /** The exponent of an IEEE 754 single is all ones in infinities and NaN. */
  predicate FiniteFloat(w: Word32) {
    w / 0x80_0000 % 0x100 != 0xff
  }

  function Scaled(words: seq<Word16>): seq<real> {
    seq(|words|, i requires 0 <= i < |words| => Signed(words[i]) as real / 32768.0)
  }

  predicate Consistent(m: Format) {
    m.channels != 0 && m.rate != 0 && m.align == m.channels * m.bits / 8 && m.byteRate == m.rate * m.align
  }

  function Decode(m: Format, data: seq<Byte>): Result<Wav> {
    if !((m.codec == 1 && m.bits == 16) || (m.codec == 3 && m.bits == 32)) then Err(Unsupported)
    else if !Consistent(m) then Err(InconsistentFormat)
    else if |data| % m.align != 0 then Err(PartialFrame)
    else
      WholeFrames(m.align, m.channels, m.bits, |data|);
      if m.codec == 1 then Ok(Wav(m.rate, m.channels, Pcm(Scaled(Words(data)))))
      else if exists w :: w in Words32(data) && !FiniteFloat(w) then Err(NonFinite)
      else Ok(Wav(m.rate, m.channels, Float(Words32(data))))
  }

  /** Whole frames are whole samples. */
  lemma WholeFrames(align: nat, channels: nat, bits: nat, size: nat)
    requires align == channels * bits / 8 > 0 && size % align == 0
    ensures bits == 16 ==> size % 2 == 0
    ensures bits == 32 ==> size % 4 == 0
  {
    var q := size / align;
    assert size == q * align;
    if bits == 16 {
      assert align == channels * 2;
      assert size == (q * channels) * 2;
    } else if bits == 32 {
      assert align == channels * 4;
      assert size == (q * channels) * 4;
    }
  }

  function ReadWav(f: seq<Byte>): Result<Wav> {
    if |f| < 12 || f[..4] != RIFF || f[8..12] != WAVE then Err(NotRiffWave)
    else
      match Chunks(f, Cursor(12, Missing, []), ToWord32(f[4..8]) + 8)
      case Err(e) => Err(e)
      case Ok(c) => if c.format.Missing? then Err(MissingFormat) else Decode(c.format.format, c.data)
  }

  /** The body of the reader's loop: one chunk. */
  method ReadChunk(f: seq<Byte>, c: Cursor, end: nat) returns (next: Result<Cursor>)
    ensures next == NextChunk(f, c, end)
  {
    var fmt, data, pos := c.format, c.data, c.pos;
    if pos + 8 > |f| {
      return Err(TruncatedChunkHeader);
    }
    var tag, size := f[pos..pos + 4], ToWord32(f[pos + 4..pos + 8]);
    pos := pos + 8;
    if pos + size + size % 2 > end {
      return Err(ChunkExceedsRiff);
    }
    if pos + size > |f| {
      return Err(TruncatedChunk);
    }
    var payload := f[pos..pos + size];
    pos := pos + size;
    if tag == FMT {
      if |payload| < 16 {
        return Err(TruncatedFormat);
      }
      fmt := Present(ParseFormat(payload));
    } else if tag == DATA {
      data := data + payload;
    }
    if size % 2 == 1 {
      if pos == |f| {
        return Err(MissingPadding);
      }
      pos := pos + 1;
    }
    next := Ok(Cursor(pos, fmt, data));
  }

  method Read(f: seq<Byte>) returns (result: Result<Wav>)
    ensures result == ReadWav(f)
  {
    if |f| < 12 || f[..4] != RIFF || f[8..12] != WAVE {
      return Err(NotRiffWave);
    }
    var end := ToWord32(f[4..8]) + 8;
    var c := Cursor(12, Missing, []);
    while c.pos < end
      invariant Chunks(f, c, end) == Chunks(f, Cursor(12, Missing, []), end)
      decreases end - c.pos
    {
      var next := ReadChunk(f, c, end);
      if next.Err? {
        return Err(next.error);
      }
      c := next.value;
    }
    if c.format.Missing? {
      return Err(MissingFormat);
    }
    result := Decode(c.format.format, c.data);
  }
}
