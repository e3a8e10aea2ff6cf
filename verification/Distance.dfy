/** The Kademlia metric on node identities: distances as the program computes them, byte by
    byte, and what they mean as numbers (net/rlpx/p2p/discv5/node.go). */
module Distance {
  import opened Bits

  /** A hash is a byte string read as a big-endian number. */
  function Value(h: seq<byte>): nat {
    if h == [] then 0 else h[0] * Pow2(8 * (|h| - 1)) + Value(h[1..])
  }

  lemma MulStep(a: int, b: int, p: nat)
    requires a < b
    ensures a * p + p <= b * p
  {
    MulMonotone(a + 1, b, p);
    assert (a + 1) * p == a * p + p;
  }

  function XorBytes(a: seq<byte>, b: seq<byte>): (r: seq<byte>)
    requires |a| == |b|
    ensures |r| == |a|
  {
    seq(|a|, i requires 0 <= i < |a| => XorByte(a[i], b[i]))
  }

  lemma {:induction false} ValueBound(h: seq<byte>)
    ensures Value(h) < Pow2(8 * |h|)
  {
    if h != [] {
      ValueBound(h[1..]);
      var p := Pow2(8 * (|h| - 1));
      Pow2Add(8, 8 * (|h| - 1));
      Pow2Eight();
      MulStep(h[0], 256, p);
    }
  }

  /** The byte-wise exclusive or is the exclusive or of the numbers. */
  lemma {:induction false} XorValue(a: seq<byte>, b: seq<byte>)
    requires |a| == |b|
    ensures Value(XorBytes(a, b)) == Xor(Value(a), Value(b))
  {
    if a == [] {
      assert Xor(0, 0) == 0;
    } else {
      XorValue(a[1..], b[1..]);
      var x := XorBytes(a, b);
      assert x[1..] == XorBytes(a[1..], b[1..]);
      XorValueStep(|a| - 1, a[0], Value(a[1..]), b[0], Value(b[1..])) by {
        ValueBound(a[1..]);
        ValueBound(b[1..]);
      }
    }
  }

  lemma XorValueStep(n: nat, a: nat, x: nat, b: nat, y: nat)
    requires x < Pow2(8 * n) && y < Pow2(8 * n)
    ensures Xor(a * Pow2(8 * n) + x, b * Pow2(8 * n) + y) == Xor(a, b) * Pow2(8 * n) + Xor(x, y)
  {
    XorSplit(8 * n, a, x, b, y, a * Pow2(8 * n) + x, b * Pow2(8 * n) + y);
  }

  /** The distance between two identities: their exclusive or, as a number. */
  function Dist(a: seq<byte>, b: seq<byte>): nat
    requires |a| == |b|
  {
    Xor(Value(a), Value(b))
  }

  function Sign(x: int): int {
    if x < 0 then -1 else if x == 0 then 0 else 1
  }

  /** How the first `i` bytes fix the order of two numbers. */
  lemma {:induction false} ValueOrder(x: seq<byte>, y: seq<byte>, i: nat)
    requires |x| == |y| && i < |x|
    requires x[..i] == y[..i] && x[i] < y[i]
    ensures Value(x) < Value(y)
  {
    var p := Pow2(8 * (|x| - 1));
    if i == 0 {
      ValueBound(x[1..]);
      MulStep(x[0], y[0], p);
    } else {
      assert x[0] == x[..i][0] == y[..i][0] == y[0];
      assert x[1..][..i - 1] == x[..i][1..] == y[..i][1..] == y[1..][..i - 1];
      ValueOrder(x[1..], y[1..], i - 1);
    }
  }

  /** distcmp: -1 if a is closer to target, 1 if b is closer, 0 if they are equally far. */
  method DistCmp(target: seq<byte>, a: seq<byte>, b: seq<byte>) returns (r: int)
    requires |target| == |a| == |b|
    ensures r == Sign(Dist(a, target) - Dist(b, target))
    ensures r == 0 <==> a == b
  {
    hide Xor, Value;
    ghost var x, y := XorBytes(a, target), XorBytes(b, target);
    XorValue(a, target);
    XorValue(b, target);
    for i := 0 to |target|
      invariant x[..i] == y[..i]
      invariant a[..i] == b[..i]
    {
      var da, db := XorByte(a[i], target[i]), XorByte(b[i], target[i]);
      assert x[i] == da && y[i] == db;
      if da > db {
        ValueOrder(y, x, i);
        return 1;
      } else if da < db {
        ValueOrder(x, y, i);
        return -1;
      }
      XorCancel(a[i], target[i]);
      XorCancel(b[i], target[i]);
      assert a[i] == b[i];
      assert a[..i + 1] == a[..i] + [a[i]] && b[..i + 1] == b[..i] + [b[i]];
      assert x[..i + 1] == x[..i] + [x[i]] && y[..i + 1] == y[..i] + [y[i]];
    }
    assert a[..|a|] == a && b[..|b|] == b;
    return 0;
  }

  /** The table of leading zero counts of a byte. */
  function LzCount(x: byte): nat {
    if x == 0 then 8
    else if x == 1 then 7
    else if x < 4 then 6
    else if x < 8 then 5
    else if x < 16 then 4
    else if x < 32 then 3
    else if x < 64 then 2
    else if x < 128 then 1
    else 0
  }

  /** The table is right: zeros in front plus significant bits make eight. */
  lemma LzCountIsBitLen(x: byte)
    ensures LzCount(x) + BitLen(x) == 8
  {
    Pow2Eight();
    assert Pow2(1) == 2 && Pow2(2) == 4 && Pow2(3) == 8 && Pow2(4) == 16;
    assert Pow2(5) == 32 && Pow2(6) == 64 && Pow2(7) == 128;
    if x > 0 {
      BitLenUnique(x, 7 - LzCount(x));
    }
  }

  /** The number of bits of a big-endian number whose first nonzero byte is at i. */
  lemma {:induction false} BitLenFromByte(x: seq<byte>, i: nat)
    requires i < |x| && x[i] != 0
    requires forall j :: 0 <= j < i ==> x[j] == 0
    ensures BitLen(Value(x)) == 8 * (|x| - 1 - i) + BitLen(x[i])
  {
    if i > 0 {
      assert Value(x) == Value(x[1..]);
      BitLenFromByte(x[1..], i - 1);
    } else {
      ValueBound(x[1..]);
      BitLenShift(8 * (|x| - 1), x[0], Value(x[1..]));
    }
  }

  lemma BitLenShift(n: nat, h: nat, low: nat)
    requires h > 0 && low < Pow2(n)
    ensures BitLen(h * Pow2(n) + low) == n + BitLen(h)
  {
    hide Pow2, BitLen;
    var l := BitLen(h);
    BitLenBounds(h);
    ShiftBelow(n, h, low, l);
    ShiftAbove(n, h, low, l - 1);
    BitLenUnique(h * Pow2(n) + low, n + l - 1);
  }

  lemma ShiftBelow(n: nat, h: nat, low: nat, l: nat)
    requires h < Pow2(l) && low < Pow2(n)
    ensures h * Pow2(n) + low < Pow2(n + l)
  {
    hide Pow2;
    Pow2Add(l, n);
    MulStep(h, Pow2(l), Pow2(n));
  }

  lemma ShiftAbove(n: nat, h: nat, low: nat, k: nat)
    requires Pow2(k) <= h
    ensures Pow2(n + k) <= h * Pow2(n) + low
  {
    hide Pow2;
    Pow2Add(k, n);
    MulMonotone(Pow2(k), h, Pow2(n));
  }

  lemma {:induction false} ValueOfZeros(x: seq<byte>)
    requires forall j :: 0 <= j < |x| ==> x[j] == 0
    ensures Value(x) == 0
  {
    if x != [] {
      ValueOfZeros(x[1..]);
    }
  }

  /** logdist: the number of significant bits of the distance. */
  method LogDist(a: seq<byte>, b: seq<byte>) returns (d: int)
    requires |a| == |b|
    ensures d == BitLen(Dist(a, b))
  {
    ghost var x := XorBytes(a, b);
    XorValue(a, b);
    var lz := 0;
    var i := 0;
    while i < |a|
      invariant 0 <= i <= |a| && lz == 8 * i
      invariant forall j :: 0 <= j < i ==> x[j] == 0
    {
      var c := XorByte(a[i], b[i]);
      assert c == x[i];
      if c == 0 {
        lz := lz + 8;
      } else {
        lz := lz + LzCount(c);
        LzCountIsBitLen(c);
        BitLenFromByte(x, i);
        return |a| * 8 - lz;
      }
      i := i + 1;
    }
    ValueOfZeros(x);
    return |a| * 8 - lz;
  }

  /** hashAtDistance: flips the bit at position n and takes the bytes after it from `tail`,
      which stands for the random generator. */
  method HashAtDistance(a: seq<byte>, n: nat, tail: seq<byte>) returns (b: seq<byte>)
    requires n <= 8 * |a| && |tail| == |a|
    ensures |b| == |a|
    ensures BitLen(Dist(a, b)) == n
  {
    if n == 0 {
      XorSelf(Value(a));
      return a;
    }
    b := a;
    var pos := |a| - n / 8 - 1;
    // 1 << (byte(n % 8) - 1): a shift by 255 when n is a multiple of eight, which leaves 0.
    var bit := if n % 8 == 0 then 0 else Pow2(n % 8 - 1);
    if bit == 0 {
      pos := pos + 1;
      bit := 0x80;
    }
    Pow2Eight();
    assert Pow2(7) == 128;
    BitLenUnique(bit, if n % 8 == 0 then 7 else n % 8 - 1);
    Pow2Monotone(if n % 8 == 0 then 7 else n % 8 - 1, 7);
    b := b[pos := XorByte(a[pos], bit)];
    for i := pos + 1 to |a|
      invariant |b| == |a|
      invariant forall j :: 0 <= j < pos ==> b[j] == a[j]
      invariant b[pos] == XorByte(a[pos], bit)
    {
      b := b[i := tail[i]];
    }
    ghost var x := XorBytes(a, b);
    XorValue(a, b);
    XorComm(a[pos], bit);
    XorCancel(bit, a[pos]);
    XorComm(a[pos], Xor(a[pos], bit));
    assert x[pos] == bit;
    forall j | 0 <= j < pos ensures x[j] == 0 {
      XorSelf(a[j]);
    }
    BitLenFromByte(x, pos);
  }

  /** A smaller logarithmic distance means a smaller distance. */
  lemma LogDistRefinesOrder(target: seq<byte>, a: seq<byte>, b: seq<byte>)
    requires |target| == |a| == |b|
    requires BitLen(Dist(a, target)) < BitLen(Dist(b, target))
    ensures Dist(a, target) < Dist(b, target)
  {
    BitLenMonotone(Dist(a, target), Dist(b, target));
  }

  /** A target and a distance determine the identity. */
  lemma DistInjective(target: seq<byte>, a: seq<byte>, b: seq<byte>)
    requires |target| == |a| == |b|
    requires Dist(a, target) == Dist(b, target)
    ensures a == b
  {
    XorCancel(Value(a), Value(target));
    XorCancel(Value(b), Value(target));
    hide Xor, Value;
    if a != b {
      var i := FirstDifference(a, b);
      if a[i] < b[i] {
        ValueOrder(a, b, i);
      } else {
        ValueOrder(b, a, i);
      }
    }
  }

  lemma {:induction false} FirstDifference(a: seq<byte>, b: seq<byte>) returns (i: nat)
    requires |a| == |b| && a != b
    ensures i < |a| && a[..i] == b[..i] && a[i] != b[i]
  {
    if a[0] != b[0] {
      i := 0;
    } else {
      assert a == [a[0]] + a[1..] && b == [b[0]] + b[1..];
      var j := FirstDifference(a[1..], b[1..]);
      i := j + 1;
      assert a[..i] == [a[0]] + a[1..][..j] && b[..i] == [b[0]] + b[1..][..j];
    }
  }
}
