/** Little-endian bytes, and the parts of a RIFF WAVE file that the capture writer and the comparison reader share
    (RIFF and WAVE as in Multimedia Programming Interface and Data Specifications 1.0). */
module WavBytes {

  type Byte = b: int | 0 <= b < 256

  const TWO_16 := 0x1_0000
  const TWO_32 := 0x1_0000_0000

  type Word16 = w: int | 0 <= w < TWO_16
  type Word32 = w: int | 0 <= w < TWO_32

  const RIFF: seq<Byte> := [0x52, 0x49, 0x46, 0x46]
  const WAVE: seq<Byte> := [0x57, 0x41, 0x56, 0x45]
  const FMT: seq<Byte> := [0x66, 0x6d, 0x74, 0x20]
  const DATA: seq<Byte> := [0x64, 0x61, 0x74, 0x61]

  function Bytes16(w: Word16): seq<Byte> {
    [w % 256, w / 256]
  }

  function Bytes32(w: Word32): (s: seq<Byte>)
    ensures |s| == 4
  {
    var high := w / 0x1_0000;
    var low := w % 0x1_0000;
    [low % 256, low / 256, high % 256, high / 256]
  }

  function ToWord16(s: seq<Byte>): Word16
    requires |s| == 2
  {
    var b0: int, b1: int := s[0], s[1];
    b0 + 256 * b1
  }

  function ToWord32(s: seq<Byte>): Word32
    requires |s| == 4
  {
    var b0: int, b1: int, b2: int, b3: int := s[0], s[1], s[2], s[3];
    b0 + 0x100 * b1 + 0x1_0000 * b2 + 0x100_0000 * b3
  }

  lemma Word32RoundTrip(w: Word32)
    ensures ToWord32(Bytes32(w)) == w
  {
    var high, low := w / 0x1_0000, w % 0x1_0000;
    assert low == low % 256 + 256 * (low / 256) && high == high % 256 + 256 * (high / 256);
  }

  /** Samples in a row, low byte first. */
  function Data(words: seq<Word16>): (s: seq<Byte>)
    ensures |s| == 2 * |words|
  {
    seq(2 * |words|, p requires 0 <= p < 2 * |words| => if p % 2 == 0 then words[p / 2] % 256 else words[p / 2] / 256)
  }

  lemma DataAppends(words: seq<Word16>, w: Word16)
    ensures Data(words + [w]) == Data(words) + Bytes16(w)
  {}

  /** The signed value of a 16-bit word. */
  function Signed(w: Word16): int {
    if w < 0x8000 then w else w - TWO_16
  }

  function Words(data: seq<Byte>): seq<Word16>
    requires |data| % 2 == 0
  {
    seq(|data| / 2, i requires 0 <= i < |data| / 2 => ToWord16(data[2 * i..2 * i + 2]))
  }

  lemma DataRoundTrip(words: seq<Word16>)
    ensures Words(Data(words)) == words
  {
    forall i | 0 <= i < |words|
      ensures Words(Data(words))[i] == words[i]
    {
      var d := Data(words);
      assert d[2 * i..2 * i + 2] == [d[2 * i], d[2 * i + 1]];
    }
  }
}
