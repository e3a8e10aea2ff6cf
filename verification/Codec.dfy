/** Fixed-width little-endian integers (net/utils/utils.go). */
module Codec {
  import opened Bits

  /** The `width` little-endian bytes of v. */
  function LittleEndian(v: nat, width: nat): (r: seq<byte>)
    ensures |r| == width
    decreases width
  {
    if width == 0 then [] else [v % 256] + LittleEndian(v / 256, width - 1)
  }

  function FromLittleEndian(bs: seq<byte>): nat {
    if |bs| == 0 then 0 else bs[0] + 256 * FromLittleEndian(bs[1..])
  }

  /** Decoding undoes encoding on every value that fits the width. */
  lemma {:induction false} DecodeEncode(v: nat, width: nat)
    requires v < Pow2(8 * width)
    ensures FromLittleEndian(LittleEndian(v, width)) == v
    decreases width
  {
    if width > 0 {
      Pow2Eight();
      Pow2Add(8, 8 * (width - 1));
      DecodeEncode(v / 256, width - 1);
      assert LittleEndian(v, width)[1..] == LittleEndian(v / 256, width - 1);
    }
  }

  /** Encoding undoes decoding on every byte string, and decoding stays in range. */
  lemma {:induction false} EncodeDecode(bs: seq<byte>)
    ensures LittleEndian(FromLittleEndian(bs), |bs|) == bs
    ensures FromLittleEndian(bs) < Pow2(8 * |bs|)
  {
    if |bs| > 0 {
      EncodeDecode(bs[1..]);
      Pow2Eight();
      Pow2Add(8, 8 * (|bs| - 1));
      var v := FromLittleEndian(bs);
      assert v % 256 == bs[0] && v / 256 == FromLittleEndian(bs[1..]);
      assert bs == [bs[0]] + bs[1..];
    }
  }

  /** EncodeUint16 (width 2) and EncodeUint64 (width 8). */
  method Encode(v: nat, width: nat) returns (bs: seq<byte>)
    requires v < Pow2(8 * width)
    ensures bs == LittleEndian(v, width)
  {
    var buf := new byte[width];
    var rest := v;
    for i := 0 to width
      invariant LittleEndian(v, width) == buf[..i] + LittleEndian(rest, width - i)
    {
      buf[i] := rest % 256;
      assert buf[..i + 1] == buf[..i] + [buf[i]];
      rest := rest / 256;
    }
    assert buf[..width] == buf[..];
    return buf[..];
  }

  datatype Decoded = Decoded(value: nat) | WrongSize

  /** DecodeUint16 (width 2) and DecodeUint64 (width 8). */
  method Decode(bs: seq<byte>, width: nat) returns (r: Decoded)
    ensures r == if |bs| == width then Decoded(FromLittleEndian(bs)) else WrongSize
    ensures r.Decoded? ==> r.value < Pow2(8 * width)
  {
    if |bs| != width {
      return WrongSize;
    }
    var v: nat := 0;
    for i := width downto 0
      invariant v == FromLittleEndian(bs[i..])
    {
      assert bs[i..][0] == bs[i] && bs[i..][1..] == bs[i + 1..];
      v := v * 256 + bs[i];
    }
    EncodeDecode(bs);
    assert bs[0..] == bs;
    return Decoded(v);
  }
}
