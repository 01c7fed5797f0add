/** Sample formats of the capture pipeline: bytes as delivered by the audio
    device, 16-bit signed PCM samples (numpy int16) and the 32-bit signed
    arithmetic (numpy int32) the mixer widens them to. */
module Pcm {

  import opened Results

  newtype byte = x: int | 0 <= x < 256

  const Int16Min: int := -0x8000
  const Int16Max: int := 0x7FFF
  const Int32Min: int := -0x8000_0000
  const Int32Max: int := 0x7FFF_FFFF

  predicate IsInt16(x: int) { Int16Min <= x <= Int16Max }

  predicate IsInt32(x: int) { Int32Min <= x <= Int32Max }

  predicate AllInt16(s: seq<int>) { forall i :: 0 <= i < |s| ==> IsInt16(s[i]) }

  predicate AllInt32(s: seq<int>) { forall i :: 0 <= i < |s| ==> IsInt32(s[i]) }

  /** Two's-complement wrap-around of numpy int32 arithmetic. */
  function Wrap32(x: int): (r: int)
    ensures IsInt32(r)
    ensures (x - r) % 0x1_0000_0000 == 0
    ensures IsInt32(x) ==> r == x
  {
    (x + 0x8000_0000) % 0x1_0000_0000 - 0x8000_0000
  }

  /** One little-endian int16 sample from its low and high byte. */
  function SampleOf(lo: byte, hi: byte): (s: int)
    ensures IsInt16(s)
  {
    var u := lo as int + 256 * hi as int;
    if u >= 0x8000 then u - 0x1_0000 else u
  }

  /** numpy.frombuffer(b, dtype=numpy.int16) on a little-endian machine:
      fails (None) when the byte count is odd. */
  function DecodeInt16(b: seq<byte>): (r: Option<seq<int>>)
    ensures r.Some? <==> |b| % 2 == 0
    ensures r.Some? ==> |r.value| == |b| / 2 && AllInt16(r.value)
  {
    if |b| % 2 != 0 then None
    else Some(seq(|b| / 2, i requires 0 <= i < |b| / 2 => SampleOf(b[2 * i], b[2 * i + 1])))
  }

  function LowByte(x: int): byte { ((x % 0x1_0000) % 256) as byte }

  function HighByte(x: int): byte { ((x % 0x1_0000) / 256) as byte }

  /** ndarray.astype(int16).tobytes(): the little-endian bytes of int16 samples. */
  function EncodeInt16(s: seq<int>): (b: seq<byte>)
    ensures |b| == 2 * |s|
  {
    seq(2 * |s|, j requires 0 <= j < 2 * |s| => if j % 2 == 0 then LowByte(s[j / 2]) else HighByte(s[j / 2]))
  }

  lemma SampleOfBytes(x: int)
    requires IsInt16(x)
    ensures SampleOf(LowByte(x), HighByte(x)) == x
  {
    var u := x % 0x1_0000;
    assert u == (if x < 0 then x + 0x1_0000 else x);
    assert LowByte(x) as int + 256 * HighByte(x) as int == u;
  }

  /** Encoding samples and decoding the bytes gives the samples back. */
  lemma DecodeEncode(s: seq<int>)
    requires AllInt16(s)
    ensures DecodeInt16(EncodeInt16(s)) == Some(s)
  {
    var b := EncodeInt16(s);
    var d := DecodeInt16(b).value;
    assert |d| == |s|;
    forall i | 0 <= i < |s| ensures d[i] == s[i] {
      assert b[2 * i] == LowByte(s[i]);
      assert b[2 * i + 1] == HighByte(s[i]);
      SampleOfBytes(s[i]);
    }
    assert d == s;
  }

  lemma BytesOfSample(lo: byte, hi: byte)
    ensures LowByte(SampleOf(lo, hi)) == lo && HighByte(SampleOf(lo, hi)) == hi
  {
    var u := lo as int + 256 * hi as int;
    assert SampleOf(lo, hi) % 0x1_0000 == u;
  }

  /** Decoding an even number of bytes and encoding the samples gives the bytes back. */
  lemma EncodeDecode(b: seq<byte>)
    requires |b| % 2 == 0
    ensures EncodeInt16(DecodeInt16(b).value) == b
  {
    var s := DecodeInt16(b).value;
    var e := EncodeInt16(s);
    assert |e| == |b|;
    forall j | 0 <= j < |b| ensures e[j] == b[j] {
      var i := j / 2;
      assert s[i] == SampleOf(b[2 * i], b[2 * i + 1]);
      BytesOfSample(b[2 * i], b[2 * i + 1]);
    }
  }
}
