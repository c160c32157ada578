/** The packed little-endian 24-bit samples of the stream. */
module Codec {
  import opened Protocol

  const HALF: int := 0x80_0000          // 2^23
  const WHOLE: int := 0x100_0000        // 2^24

  predicate InRange(v: int) {
    -HALF <= v < HALF
  }

  /** Three bytes joined, then sign-extended when bit 23, the top one of the 24, is set. */
  function ReadInt24(p0: byte, p1: byte, p2: byte): (v: int)
    ensures InRange(v)
  {
    var val := p0 as int + p1 as int * 0x100 + p2 as int * 0x1_0000;
    if val >= HALF then val - WHOLE else val
  }

  /** The low three bytes of the two's-complement value; `/` and `%` floor, as shifts and masks do. */
  function Int24Bytes(val: int): (p: seq<byte>)
    ensures |p| == 3
  {
    [(val % 0x100) as byte, (val / 0x100 % 0x100) as byte, (val / 0x1_0000 % 0x100) as byte]
  }

  function SampleAt(bytes: seq<byte>, i: nat): (v: int)
    requires 3 * (i + 1) <= |bytes|
    ensures InRange(v)
  {
    ReadInt24(bytes[3 * i], bytes[3 * i + 1], bytes[3 * i + 2])
  }

  function Encode(samples: seq<int>): (bytes: seq<byte>)
    ensures |bytes| == 3 * |samples|
  {
    if samples == [] then []
    else Encode(samples[..|samples| - 1]) + Int24Bytes(samples[|samples| - 1])
  }

  function Decode(bytes: seq<byte>): (samples: seq<int>)
    requires |bytes| % 3 == 0
    ensures |samples| == |bytes| / 3
  {
    if bytes == [] then []
    else
      var n := |bytes| - 3;
      Decode(bytes[..n]) + [ReadInt24(bytes[n], bytes[n + 1], bytes[n + 2])]
  }

  // ---- The byte order ----

  /** v and the little-endian number in the bytes p0, p1, p2 agree modulo 2^24. */
  predicate LittleEndian(v: int, p0: byte, p1: byte, p2: byte) {
    (v - (p0 as int + 0x100 * p1 as int + 0x1_0000 * p2 as int)) % 0x100_0000 == 0
  }

  /** Reading gives the one signed 24-bit value that is the little-endian number modulo 2^24 ... */
  lemma ReadIsLittleEndian(p0: byte, p1: byte, p2: byte)
    ensures var v := ReadInt24(p0, p1, p2);
            && -0x80_0000 <= v < 0x80_0000
            && (v - (p0 as int + 0x100 * p1 as int + 0x1_0000 * p2 as int)) % 0x100_0000 == 0
            && LittleEndian(v, p0, p1, p2)
  {
  }

  /** ... and writing leaves bytes whose little-endian number is the value modulo 2^24. */
  lemma WriteIsLittleEndian(v: int)
    ensures var b := Int24Bytes(v);
            && (v - (b[0] as int + 0x100 * b[1] as int + 0x1_0000 * b[2] as int)) % 0x100_0000 == 0
            && LittleEndian(v, b[0], b[1], b[2])
  {
    Digits(v);
    Multiple(v / WHOLE);
  }

  /** Sample i of a buffer comes from bytes 3i, 3i + 1 and 3i + 2, the least significant first. */
  lemma DecodedIsLittleEndian(bytes: seq<byte>, i: nat)
    requires |bytes| % 3 == 0 && i < |bytes| / 3
    ensures -0x80_0000 <= Decode(bytes)[i] < 0x80_0000
    ensures LittleEndian(Decode(bytes)[i], bytes[3 * i], bytes[3 * i + 1], bytes[3 * i + 2])
  {
    DecodeAt(bytes, i);
    ReadIsLittleEndian(bytes[3 * i], bytes[3 * i + 1], bytes[3 * i + 2]);
  }

  lemma {:induction false} EncodedAt(samples: seq<int>, i: nat)
    requires i < |samples|
    ensures Encode(samples)[3 * i..3 * i + 3] == Int24Bytes(samples[i])
  {
    if i < |samples| - 1 {
      EncodedAt(samples[..|samples| - 1], i);
    }
  }

  /** ... and goes there when it is encoded. */
  lemma EncodedIsLittleEndian(samples: seq<int>, i: nat)
    requires i < |samples|
    ensures var b := Encode(samples); LittleEndian(samples[i], b[3 * i], b[3 * i + 1], b[3 * i + 2])
  {
    EncodedAt(samples, i);
    WriteIsLittleEndian(samples[i]);
    ThreeBytes(Encode(samples), 3 * i, Int24Bytes(samples[i]));
  }

  lemma ThreeBytes(bytes: seq<byte>, at: nat, three: seq<byte>)
    requires at + 3 <= |bytes| && bytes[at..at + 3] == three
    ensures three[0] == bytes[at] && three[1] == bytes[at + 1] && three[2] == bytes[at + 2]
  {
  }

  lemma {:induction false} DecodeAt(bytes: seq<byte>, i: nat)
    requires |bytes| % 3 == 0 && i < |bytes| / 3
    ensures Decode(bytes)[i] == SampleAt(bytes, i)
  {
    if i < |bytes| / 3 - 1 {
      DecodeAt(bytes[..|bytes| - 3], i);
    }
  }

  /** The representative of v modulo 2^24 in the signed 24-bit range. */
  function SignedResidue(v: int): int {
    (v + HALF) % WHOLE - HALF
  }

  lemma SignedResidueMeaning(v: int, r: int)
    ensures r == SignedResidue(v) <==> InRange(r) && (v - r) % WHOLE == 0
  {
  }

  lemma Digits(v: int)
    ensures v == v % 0x100 + v / 0x100 % 0x100 * 0x100 + v / 0x1_0000 % 0x100 * 0x1_0000 + v / WHOLE * WHOLE
  {
    assert v / 0x1_0000 == v / 0x100 / 0x100;
    assert v / WHOLE == v / 0x1_0000 / 0x100;
  }

  lemma DecodeOne(v: int)
    ensures ReadInt24(Int24Bytes(v)[0], Int24Bytes(v)[1], Int24Bytes(v)[2]) == SignedResidue(v)
  {
    Digits(v);
    var low := v % 0x100 + v / 0x100 % 0x100 * 0x100 + v / 0x1_0000 % 0x100 * 0x1_0000;
    var r := if low < HALF then low else low - WHOLE;
    assert ReadInt24(Int24Bytes(v)[0], Int24Bytes(v)[1], Int24Bytes(v)[2]) == r;
    Multiple(v / WHOLE + if low < HALF then 0 else 1);
    SignedResidueMeaning(v, r);
  }

  lemma Multiple(k: int)
    ensures (k * WHOLE) % WHOLE == 0
  {
  }

  lemma EncodeOne(p0: byte, p1: byte, p2: byte)
    ensures Int24Bytes(ReadInt24(p0, p1, p2)) == [p0, p1, p2]
  {
    var val := p0 as int + p1 as int * 0x100 + p2 as int * 0x1_0000;
    LowBytes(val, p0 as int, p1 as int, p2 as int);
    LowBytes(val - WHOLE, p0 as int, p1 as int, p2 as int - 0x100);
  }

  lemma LowBytes(val: int, a: int, b: int, c: int)
    requires val == a + b * 0x100 + c * 0x1_0000 && 0 <= a < 0x100 && 0 <= b < 0x100
    ensures val % 0x100 == a && val / 0x100 % 0x100 == b && val / 0x1_0000 == c
  {
  }

  /** Every sample reduced to its signed 24-bit residue. */
  function Residues(samples: seq<int>): (r: seq<int>)
    ensures |r| == |samples|
  {
    if samples == [] then []
    else Residues(samples[..|samples| - 1]) + [SignedResidue(samples[|samples| - 1])]
  }

  /** What decoding an encoded buffer yields, whatever the samples. */
  lemma {:induction false} DecodeEncode(samples: seq<int>)
    ensures Decode(Encode(samples)) == Residues(samples)
  {
    if samples != [] {
      var front, v := samples[..|samples| - 1], samples[|samples| - 1];
      DecodeEncode(front);
      DecodeOne(v);
      assert Encode(samples)[..3 * |front|] == Encode(front);
    }
  }

  lemma {:induction false} ResiduesOfInRange(samples: seq<int>)
    requires forall v <- samples :: InRange(v)
    ensures Residues(samples) == samples
  {
    if samples != [] {
      var v := samples[|samples| - 1];
      ResiduesOfInRange(samples[..|samples| - 1]);
      SignedResidueMeaning(v, v);
    }
  }

  /** Samples in range survive the round trip unchanged. */
  lemma InRangeRoundTrip(samples: seq<int>)
    requires forall v <- samples :: InRange(v)
    ensures Decode(Encode(samples)) == samples
  {
    DecodeEncode(samples);
    ResiduesOfInRange(samples);
  }

  /** Every buffer of whole samples is the encoding of what it decodes to. */
  lemma {:induction false} EncodeDecode(bytes: seq<byte>)
    requires |bytes| % 3 == 0
    ensures Encode(Decode(bytes)) == bytes
  {
    if bytes != [] {
      var n := |bytes| - 3;
      EncodeDecode(bytes[..n]);
      EncodeLast(Decode(bytes[..n]), bytes[n], bytes[n + 1], bytes[n + 2]);
      ThreeMore(bytes);
    }
  }

  lemma EncodeLast(samples: seq<int>, p0: byte, p1: byte, p2: byte)
    ensures Encode(samples + [ReadInt24(p0, p1, p2)]) == Encode(samples) + [p0, p1, p2]
  {
    var v := ReadInt24(p0, p1, p2);
    assert (samples + [v])[..|samples|] == samples;
    EncodeOne(p0, p1, p2);
  }

  lemma ThreeMore(bytes: seq<byte>)
    requires |bytes| >= 3
    ensures var n := |bytes| - 3; bytes == bytes[..n] + [bytes[n], bytes[n + 1], bytes[n + 2]]
  {
  }

  lemma {:induction false} EncodeJoin(a: seq<int>, b: seq<int>)
    ensures Encode(a + b) == Encode(a) + Encode(b)
  {
    if b == [] {
      assert a + b == a;
    } else {
      EncodeJoin(a, b[..|b| - 1]);
      assert (a + b)[..|a + b| - 1] == a + b[..|b| - 1];
    }
  }

  lemma ThreeParts(samples: seq<int>, lo: nat, hi: nat)
    requires lo <= hi <= |samples|
    ensures samples == samples[..lo] + samples[lo..hi] + samples[hi..]
  {
    assert samples[..hi] == samples[..lo] + samples[lo..hi];
  }

  lemma Middle(whole: seq<byte>, a: seq<byte>, b: seq<byte>, c: seq<byte>)
    requires whole == a + b + c
    ensures whole[|a|..|a| + |b|] == b
  {
  }

  /** A cut of the encoding at sample boundaries is the encoding of that cut of the samples. */
  lemma EncodeSlice(samples: seq<int>, lo: nat, hi: nat)
    requires lo <= hi <= |samples|
    ensures Encode(samples)[3 * lo..3 * hi] == Encode(samples[lo..hi])
  {
    var a, b, c := samples[..lo], samples[lo..hi], samples[hi..];
    ThreeParts(samples, lo, hi);
    EncodeJoin(a, b);
    EncodeJoin(a + b, c);
    var x, y := Encode(a), Encode(b);
    assert |x| == 3 * lo && |x| + |y| == 3 * hi;
    Middle(Encode(samples), x, y, Encode(c));
  }

  /** ... so it decodes to that cut of the samples. */
  lemma DecodeSlice(samples: seq<int>, lo: nat, hi: nat)
    requires lo <= hi <= |samples| && forall v <- samples :: InRange(v)
    ensures Encode(samples)[3 * lo..3 * hi] == Encode(samples[lo..hi])
    ensures Decode(Encode(samples[lo..hi])) == samples[lo..hi]
  {
    EncodeSlice(samples, lo, hi);
    InRangeRoundTrip(samples[lo..hi]);
  }

  method WriteInt24(p: array<byte>, at: nat, val: int)
    requires at + 3 <= p.Length
    modifies p
    ensures p[..] == old(p[..])[..at] + Int24Bytes(val) + old(p[..])[at + 3..]
    ensures LittleEndian(val, p[at], p[at + 1], p[at + 2])
  {
    WriteIsLittleEndian(val);
    p[at] := (val % 0x100) as byte;
    p[at + 1] := (val / 0x100 % 0x100) as byte;
    p[at + 2] := (val / 0x1_0000 % 0x100) as byte;
  }
}
