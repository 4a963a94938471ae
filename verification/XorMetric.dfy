// 256-bit node identifiers under the XOR metric.

module XorMetric {

  const ID_BYTES: nat := 32

  type Id = s: seq<bv8> | |s| == ID_BYTES witness seq(ID_BYTES, _ => 0)

  // ------------------------------------------------------------------ distance

  /** Bytewise XOR of two strings of the same length. */
  function Xor(a: seq<bv8>, b: seq<bv8>): (d: seq<bv8>)
    requires |a| == |b|
    ensures |d| == |a|
    ensures forall i :: 0 <= i < |a| ==> d[i] == a[i] ^ b[i]
  {
    if a == [] then [] else Xor(a[..|a| - 1], b[..|b| - 1]) + [a[|a| - 1] ^ b[|b| - 1]]
  }

  method XORDistance(a: Id, b: Id) returns (dist: Id)
    ensures dist == Xor(a, b)
  {
    var d := new bv8[ID_BYTES](_ => 0);
    for i := 0 to ID_BYTES
      invariant forall k :: 0 <= k < i ==> d[k] == a[k] ^ b[k]
    {
      d[i] := a[i] ^ b[i];
    }
    dist := d[..];
    assert dist == Xor(a, b);
  }

  function Bit(x: bv8, m: bv8, w: nat): nat { if x & m != 0 then w else 0 }

  /** The number a byte stands for. */
  function Byte(x: bv8): nat
  {
    Bit(x, 1, 1) + Bit(x, 2, 2) + Bit(x, 4, 4) + Bit(x, 8, 8)
    + Bit(x, 16, 16) + Bit(x, 32, 32) + Bit(x, 64, 64) + Bit(x, 128, 128)
  }

  /** The number a big-endian byte string stands for. */
  function Value(d: seq<bv8>): nat
  {
    if d == [] then 0 else 256 * Value(d[..|d| - 1]) + Byte(d[|d| - 1])
  }

  lemma ByteOrder(x: bv8, y: bv8)
    ensures x < y <==> Byte(x) < Byte(y)
    ensures x == y <==> Byte(x) == Byte(y)
    ensures Byte(x) < 256
  {
    ByteGrows(x, y);
    ByteGrows(y, x);
  }

  lemma ByteGrows(x: bv8, y: bv8)
    ensures x < y ==> Byte(x) < Byte(y)
  {
  }

  lemma XorBit(x: bv8, y: bv8, m: bv8, w: nat)
    ensures Bit(x ^ y, m, w) <= Bit(x, m, w) + Bit(y, m, w)
  {
    if x & m == 0 && y & m == 0 { assert (x ^ y) & m == 0; }
  }

  lemma XorByte(x: bv8, y: bv8)
    ensures Byte(x ^ y) <= Byte(x) + Byte(y)
  {
    XorBit(x, y, 1, 1); XorBit(x, y, 2, 2); XorBit(x, y, 4, 4); XorBit(x, y, 8, 8);
    XorBit(x, y, 16, 16); XorBit(x, y, 32, 32); XorBit(x, y, 64, 64); XorBit(x, y, 128, 128);
  }

  lemma {:induction false} XorValue(a: seq<bv8>, b: seq<bv8>)
    requires |a| == |b|
    ensures Value(Xor(a, b)) <= Value(a) + Value(b)
  {
    if a != [] {
      var x, y := a[..|a| - 1], b[..|b| - 1];
      XorValue(x, y);
      XorByte(a[|a| - 1], b[|b| - 1]);
      assert Xor(a, b)[..|a| - 1] == Xor(x, y);
    }
  }

  lemma {:induction false} ValueInjective(a: seq<bv8>, b: seq<bv8>)
    requires |a| == |b| && Value(a) == Value(b)
    ensures a == b
  {
    if a != [] {
      var x, y := a[..|a| - 1], b[..|b| - 1];
      ByteOrder(a[|a| - 1], b[|b| - 1]);
      ByteOrder(b[|b| - 1], a[|a| - 1]);
      ValueInjective(x, y);
      assert a == x + [a[|a| - 1]] && b == y + [b[|b| - 1]];
    }
  }

  lemma {:induction false} ZeroValue(d: seq<bv8>)
    requires forall i :: 0 <= i < |d| ==> d[i] == 0
    ensures Value(d) == 0
  {
    if d != [] { ZeroValue(d[..|d| - 1]); }
  }

  /** The distance of two ids as a number. */
  function Distance(a: Id, b: Id): nat { Value(Xor(a, b)) }

  lemma DistanceZeroIff(a: Id, b: Id)
    ensures Distance(a, b) == 0 <==> a == b
  {
    var z: seq<bv8> := seq(ID_BYTES, _ => 0);
    ZeroValue(z);
    if a == b {
      ZeroValue(Xor(a, b));
    }
    if Distance(a, b) == 0 {
      ValueInjective(Xor(a, b), z);
      forall i | 0 <= i < ID_BYTES ensures a[i] == b[i] {
        assert a[i] ^ b[i] == 0;
      }
    }
  }

  lemma DistanceSymmetric(a: Id, b: Id)
    ensures Distance(a, b) == Distance(b, a)
  {
    assert Xor(a, b) == Xor(b, a);
  }

  lemma DistanceTriangle(a: Id, b: Id, c: Id)
    ensures Distance(a, c) <= Distance(a, b) + Distance(b, c)
  {
    var x, y := Xor(a, b), Xor(b, c);
    forall i | 0 <= i < ID_BYTES ensures Xor(a, c)[i] == Xor(x, y)[i] {
      assert a[i] ^ c[i] == (a[i] ^ b[i]) ^ (b[i] ^ c[i]);
    }
    assert Xor(a, c) == Xor(x, y);
    XorValue(x, y);
  }

  /** No two ids are equally far from a target. */
  lemma DistanceUnique(target: Id, a: Id, b: Id)
    requires Distance(target, a) == Distance(target, b)
    ensures a == b
  {
    ValueInjective(Xor(target, a), Xor(target, b));
    forall i | 0 <= i < ID_BYTES ensures a[i] == b[i] {
      assert Xor(target, a)[i] == Xor(target, b)[i];
      assert a[i] == target[i] ^ (target[i] ^ a[i]) && b[i] == target[i] ^ (target[i] ^ b[i]);
    }
  }

  // ------------------------------------------------- the comparison the sort uses

  /** Position of the first byte in which the strings differ, or their length. */
  function FirstDiff(a: seq<bv8>, b: seq<bv8>): (k: nat)
    requires |a| == |b|
    ensures k <= |a|
    ensures k < |a| ==> a[k] != b[k]
    ensures forall j :: 0 <= j < k ==> a[j] == b[j]
  {
    if a == [] || a[0] != b[0] then 0 else 1 + FirstDiff(a[1..], b[1..])
  }

  predicate BytesLess(a: seq<bv8>, b: seq<bv8>)
    requires |a| == |b|
  {
    var k := FirstDiff(a, b);
    k < |a| && a[k] < b[k]
  }

  /** Comparing byte by byte from the front compares the numbers. */
  lemma {:induction false} BytesLessIsValue(a: seq<bv8>, b: seq<bv8>)
    requires |a| == |b|
    ensures BytesLess(a, b) <==> Value(a) < Value(b)
  {
    if a != [] {
      var x, y := a[..|a| - 1], b[..|b| - 1];
      BytesLessIsValue(x, y);
      ByteOrder(a[|a| - 1], b[|b| - 1]);
      ByteOrder(b[|b| - 1], a[|a| - 1]);
      var k, l := FirstDiff(a, b), FirstDiff(x, y);
      if l < |x| {
        assert a[l] == x[l] && b[l] == y[l];
        assert k == l by {
          assert forall j :: 0 <= j < l ==> a[j] == x[j] && b[j] == y[j];
        }
        if Value(x) == Value(y) { ValueInjective(x, y); }
      } else {
        assert x == y;
        assert forall j :: 0 <= j < |x| ==> a[j] == x[j] && b[j] == y[j];
        assert k >= |x|;
      }
    }
  }

  // -------------------------------------------------------------- bucket index

  function Pow2(n: nat): (p: nat)
    ensures p > 0
  {
    if n == 0 then 1 else 2 * Pow2(n - 1)
  }

  /** Position of the highest set bit of a byte (0 for the zero byte). */
  function TopBit(x: bv8): (b: nat)
    ensures b < 8
  {
    if x & 128 != 0 then 7 else if x & 64 != 0 then 6 else if x & 32 != 0 then 5 else if x & 16 != 0 then 4
    else if x & 8 != 0 then 3 else if x & 4 != 0 then 2 else if x & 2 != 0 then 1 else 0
  }

  /** Position of the highest set bit of a byte string, 0 when no bit is set. */
  function TopBitOf(d: seq<bv8>): nat
  {
    if d == [] then 0
    else if d[0] != 0 then 8 * (|d| - 1) + TopBit(d[0])
    else TopBitOf(d[1..])
  }

  function BucketIndex(d: Id): (i: nat)
    ensures i < 8 * ID_BYTES
  {
    TopBitBound(d);
    TopBitOf(d)
  }

  lemma {:induction false} TopBitBound(d: seq<bv8>)
    ensures d != [] ==> TopBitOf(d) < 8 * |d|
  {
    if d != [] { TopBitBound(d[1..]); }
  }

  /** The byte and bit loops, as written. */
  method BucketIndexLoop(dist: Id) returns (idx: nat)
    ensures idx == BucketIndex(dist)
  {
    assert dist[0..] == dist;
    for i := 0 to ID_BYTES
      invariant TopBitOf(dist) == TopBitOf(dist[i..])
    {
      assert dist[i..][0] == dist[i] && dist[i..][1..] == dist[i + 1..];
      if dist[i] != 0 {
        var bit := 7;
        while bit >= 0
          invariant -1 <= bit <= 7
          invariant dist[i] >> (bit + 1) == 0
        {
          if dist[i] & ((1 as bv8) << bit) != 0 {
            HighestBit(dist[i], bit);
            return (31 - i) * 8 + bit;
          }
          NextBit(dist[i], bit);
          bit := bit - 1;
        }
        assert false;
      }
    }
    assert dist[ID_BYTES..] == [];
    idx := 0;
  }

  lemma HighestBit(x: bv8, bit: nat)
    requires bit <= 7 && x >> (bit + 1) == 0 && x & ((1 as bv8) << bit) != 0
    ensures TopBit(x) == bit
  {
    if bit == 0 {} else if bit == 1 {} else if bit == 2 {} else if bit == 3 {}
    else if bit == 4 {} else if bit == 5 {} else if bit == 6 {} else { assert bit == 7; }
  }

  lemma NextBit(x: bv8, bit: nat)
    requires bit <= 7 && x >> (bit + 1) == 0 && x & ((1 as bv8) << bit) == 0
    ensures x >> bit == 0
  {
    if bit == 0 {} else if bit == 1 {} else if bit == 2 {} else if bit == 3 {}
    else if bit == 4 {} else if bit == 5 {} else if bit == 6 {} else { assert bit == 7; }
  }

  lemma TopBitByte(x: bv8)
    requires x != 0
    ensures Pow2(TopBit(x)) <= Byte(x) < 2 * Pow2(TopBit(x))
  {
    SmallPowers();
  }

  lemma SmallPowers()
    ensures Pow2(0) == 1 && Pow2(1) == 2 && Pow2(2) == 4 && Pow2(3) == 8
    ensures Pow2(4) == 16 && Pow2(5) == 32 && Pow2(6) == 64 && Pow2(7) == 128
  {
    assert Pow2(3) == 2 * Pow2(2);
    assert Pow2(5) == 2 * Pow2(4) && Pow2(6) == 2 * Pow2(5) && Pow2(7) == 2 * Pow2(6);
  }

  lemma PowPlus8(n: nat)
    ensures Pow2(n + 8) == 256 * Pow2(n)
  {
    assert Pow2(n + 2) == 4 * Pow2(n);
    assert Pow2(n + 4) == 4 * Pow2(n + 2);
    assert Pow2(n + 6) == 4 * Pow2(n + 4);
    assert Pow2(n + 8) == 4 * Pow2(n + 6);
  }

  /** Seen from the other end: a last byte only matters when all before it are zero. */
  lemma {:induction false} TopBitSnoc(d: seq<bv8>, x: bv8)
    ensures TopBitOf(d + [x]) == if Value(d) == 0 then TopBit(x) else TopBitOf(d) + 8
  {
    if d == [] {
      assert d + [x] == [x];
    } else {
      assert (d + [x])[1..] == d[1..] + [x];
      TopBitSnoc(d[1..], x);
      HeadZero(d);
    }
  }

  lemma {:induction false} HeadZero(d: seq<bv8>)
    requires d != []
    ensures Value(d) == 0 <==> d[0] == 0 && Value(d[1..]) == 0
  {
    var front := d[..|d| - 1];
    if |d| > 1 {
      HeadZero(front);
      assert d[1..][..|d| - 2] == front[1..];
    } else {
      assert d[1..] == [];
    }
    ByteOrder(d[|d| - 1], 0);
  }

  /** The bucket index of a nonzero distance is the floor of its base-2 logarithm. */
  lemma {:induction false} TopBitIsLog(d: seq<bv8>)
    requires Value(d) != 0
    ensures Pow2(TopBitOf(d)) <= Value(d) < 2 * Pow2(TopBitOf(d))
  {
    var front, x := d[..|d| - 1], d[|d| - 1];
    assert d == front + [x];
    TopBitSnoc(front, x);
    ByteOrder(x, 0);
    if Value(front) == 0 {
      TopBitByte(x);
    } else {
      TopBitIsLog(front);
      PowPlus8(TopBitOf(front));
    }
  }

  lemma BucketIndexIsLog(self: Id, id: Id)
    requires id != self
    ensures Pow2(BucketIndex(Xor(self, id))) <= Distance(self, id) < 2 * Pow2(BucketIndex(Xor(self, id)))
  {
    DistanceZeroIff(self, id);
    TopBitIsLog(Xor(self, id));
  }
}
