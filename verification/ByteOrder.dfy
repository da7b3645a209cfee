/**
 Integers on the wire: the fixed-width, big-endian, two's complement form that every buffer
 and every network header of the middleware uses.
 */
module ByteOrder {
  import opened Division

  type byte = x: int | 0 <= x < 256

  function Zeros(n: nat): (z: seq<byte>)
    ensures |z| == n
  {
    seq(n, _ => 0)
  }

  /** Room for some bytes of which the first n are there. */
  function Started(b: seq<byte>, n: nat): (r: seq<byte>)
    requires n <= |b|
    ensures |r| == |b|
  {
    b[..n] + Zeros(|b| - n)
  }

  const LONG_MIN: int := -0x8000_0000_0000_0000
  const LONG_MAX: int := 0x7fff_ffff_ffff_ffff

  /** The 64-bit signed host integer. */
  type long = x: int | LONG_MIN <= x <= LONG_MAX witness 0

  /** Number of values that fit in `width` bytes. */
  function Span(width: nat): (r: int)
    ensures r >= 1
  {
    if width == 0 then 1 else 256 * Span(width - 1)
  }

  /** `v` fits in `width` bytes as a two's complement number. */
  predicate Fits(v: int, width: nat)
  {
    -Span(width) <= 2 * v < Span(width)
  }

  /** The unsigned big-endian form, most significant byte first. */
  function EncodeUnsigned(v: nat, width: nat): (r: seq<byte>)
    requires v < Span(width)
    ensures |r| == width
  {
    if width == 0 then [] else EncodeUnsigned(v / 256, width - 1) + [v % 256]
  }

  function DecodeUnsigned(b: seq<byte>): (r: nat)
    ensures r < Span(|b|)
  {
    if b == [] then 0 else 256 * DecodeUnsigned(b[..|b| - 1]) + b[|b| - 1]
  }

  lemma {:induction false} DecodeEncodeUnsigned(v: nat, width: nat)
    requires v < Span(width)
    ensures DecodeUnsigned(EncodeUnsigned(v, width)) == v
  {
    if width > 0 {
      DecodeEncodeUnsigned(v / 256, width - 1);
      var r := EncodeUnsigned(v, width);
      assert r[..|r| - 1] == EncodeUnsigned(v / 256, width - 1);
    }
  }

  lemma {:induction false} EncodeDecodeUnsigned(b: seq<byte>)
    ensures EncodeUnsigned(DecodeUnsigned(b), |b|) == b
  {
    if b != [] {
      EncodeDecodeUnsigned(b[..|b| - 1]);
      assert DecodeUnsigned(b) / 256 == DecodeUnsigned(b[..|b| - 1]);
      assert b == b[..|b| - 1] + [b[|b| - 1]];
    }
  }

  /** Byte i stands for the multiples of 256 to the power of the bytes after it. */
  lemma {:induction false} UnsignedByteAt(v: nat, width: nat, i: nat)
    requires v < Span(width) && i < width
    ensures EncodeUnsigned(v, width)[i] == v / Span(width - 1 - i) % 256
  {
    if i < width - 1 {
      UnsignedByteAt(v / 256, width - 1, i);
      QuotientTwice(v, 256, Span(width - 2 - i));
    }
  }

  function Encode(v: int, width: nat): (r: seq<byte>)
    requires Fits(v, width)
    ensures |r| == width
  {
    EncodeUnsigned(if v < 0 then v + Span(width) else v, width)
  }

  function Decode(b: seq<byte>): (r: int)
    requires b != []
    ensures Fits(r, |b|)
  {
    var u := DecodeUnsigned(b);
    if 2 * u < Span(|b|) then u else u - Span(|b|)
  }

  /** Host to network and back is the identity, for every width and every value of that width. */
  lemma DecodeEncode(v: int, width: nat)
    requires width > 0 && Fits(v, width)
    ensures Decode(Encode(v, width)) == v
  {
    DecodeEncodeUnsigned(if v < 0 then v + Span(width) else v, width);
  }

  /** Network to host and back is the identity: no two byte strings decode to the same number. */
  lemma EncodeDecode(b: seq<byte>)
    requires b != []
    ensures Encode(Decode(b), |b|) == b
  {
    EncodeDecodeUnsigned(b);
  }

  /** Byte i of a number in two's complement, counted from the most significant. */
  lemma ByteAt(v: int, width: nat, i: nat)
    requires Fits(v, width) && i < width
    ensures Encode(v, width)[i] == (if v < 0 then v + Span(width) else v) / Span(width - 1 - i) % 256
  {
    UnsignedByteAt(if v < 0 then v + Span(width) else v, width, i);
  }

  lemma {:induction false} ZeroBytes(width: nat)
    ensures EncodeUnsigned(0, width) == Zeros(width)
  {
    if width > 0 {
      ZeroBytes(width - 1);
    }
  }

  lemma SpanOfLong()
    ensures Span(8) == 0x1_0000_0000_0000_0000
  {
    assert Span(4) == 0x1_0000_0000 by {
      assert Span(2) == 65536;
    }
    assert Span(6) == 0x1_0000_0000_0000;
  }

  function EncodeLong(v: long): (r: seq<byte>)
    ensures |r| == 8
  {
    SpanOfLong();
    Encode(v, 8)
  }

  function DecodeLong(b: seq<byte>): (r: long)
    requires |b| == 8
  {
    SpanOfLong();
    Decode(b)
  }

  /** The unsigned number whose 64 bits are those of a long. */
  function Bits(v: long): (u: nat)
    ensures u < 0x1_0000_0000_0000_0000
  {
    if v < 0 then v + 0x1_0000_0000_0000_0000 else v
  }

  /** Byte i of a long, negative or not, counted from the most significant. */
  lemma LongByteAt(v: long, i: nat)
    requires i < 8
    ensures EncodeLong(v)[i] == Bits(v) / Span(7 - i) % 256
  {
    SpanOfLong();
    UnsignedByteAt(Bits(v), 8, i);
  }

  /** The numbers those bytes are multiples of. */
  lemma SpanPowers()
    ensures Span(0) == 1 && Span(1) == 0x100 && Span(2) == 0x1_0000 && Span(3) == 0x100_0000
    ensures Span(4) == 0x1_0000_0000 && Span(5) == 0x100_0000_0000 && Span(6) == 0x1_0000_0000_0000
    ensures Span(7) == 0x100_0000_0000_0000
  {
    assert Span(2) == 0x1_0000;
    assert Span(4) == 0x1_0000_0000;
    assert Span(6) == 0x1_0000_0000_0000;
  }

  lemma DecodeEncodeLong(v: long)
    ensures DecodeLong(EncodeLong(v)) == v
  {
    SpanOfLong();
    DecodeEncode(v, 8);
  }

  lemma EncodeDecodeLong(b: seq<byte>)
    requires |b| == 8
    ensures EncodeLong(DecodeLong(b)) == b
  {
    SpanOfLong();
    EncodeDecode(b);
  }
}
