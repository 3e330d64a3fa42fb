/**
 Bytes, bits and the integers they stand for.
 */
module Bytes {

  type Byte = b: nat | b < 256

  function Pow2(k: nat): nat {
    if k == 0 then 1 else 2 * Pow2(k - 1)
  }

  /** Bit `b` of `v`, counted from the least significant. */
  predicate Bit(v: nat, b: nat) {
    if b == 0 then v % 2 == 1 else Bit(v / 2, b - 1)
  }

  /** Bitwise or. */
  function Or(a: nat, b: nat): nat {
    if a == 0 then b
    else if b == 0 then a
    else (if a % 2 == 1 || b % 2 == 1 then 1 else 0) + 2 * Or(a / 2, b / 2)
  }

  lemma {:induction false} ZeroHasNoBits(b: nat)
    ensures !Bit(0, b)
  {
    if b > 0 { ZeroHasNoBits(b - 1); }
  }

  lemma HalfOf(p: nat, q: nat, r: nat)
    ensures (2 * p * q + r) / 2 == p * q + r / 2 && (2 * p * q + r) % 2 == r % 2
  {
    assert 2 * p * q == 2 * (p * q);
  }

  /** A value below 2^k placed under a multiple of 2^k keeps both parts' bits. */
  lemma {:induction false} BitsOfPair(q: nat, r: nat, k: nat, b: nat)
    requires r < Pow2(k)
    ensures Bit(Pow2(k) * q + r, b) == if b < k then Bit(r, b) else Bit(q, b - k)
  {
    if k > 0 {
      HalfOf(Pow2(k - 1), q, r);
      if b > 0 {
        BitsOfPair(q, r / 2, k - 1, b - 1);
      }
    }
  }

  /** Or of values without common bits is their sum. */
  lemma {:induction false} OrDisjoint(a: nat, q: nat, k: nat)
    requires a < Pow2(k)
    ensures Or(a, Pow2(k) * q) == a + Pow2(k) * q
  {
    if k == 0 || a == 0 {
    } else if Pow2(k) * q == 0 {
    } else {
      HalfOf(Pow2(k - 1), q, 0);
      OrDisjoint(a / 2, q, k - 1);
    }
  }

  /** A bit of an or is set iff it is set in one of the two. */
  lemma {:induction false} OrBits(a: nat, b: nat, i: nat)
    ensures Bit(Or(a, b), i) <==> Bit(a, i) || Bit(b, i)
  {
    if a == 0 || b == 0 {
      ZeroHasNoBits(i);
    } else if i > 0 {
      OrBits(a / 2, b / 2, i - 1);
    }
  }

  /** Big-endian bytes as an integer. */
  function FromBe(bytes: seq<Byte>): nat {
    if bytes == [] then 0 else 256 * FromBe(bytes[..|bytes| - 1]) + bytes[|bytes| - 1]
  }

  function ToBe(v: nat, n: nat): (bytes: seq<Byte>)
    ensures |bytes| == n
  {
    if n == 0 then [] else ToBe(v / 256, n - 1) + [v % 256]
  }

  function Pow256(n: nat): nat {
    if n == 0 then 1 else 256 * Pow256(n - 1)
  }

  /** Bytes put in front count 256 times as much for every byte behind them. */
  lemma {:induction false} FromBePositions(a: seq<Byte>, b: seq<Byte>)
    ensures |b| == 1 ==> FromBe(b) == b[0]
    ensures FromBe(a + b) == FromBe(a) * Pow256(|b|) + FromBe(b)
  {
    if b == [] {
      assert a + b == a;
    } else {
      var n := |b| - 1;
      assert (a + b)[..|a + b| - 1] == a + b[..n];
      FromBePositions(a, b[..n]);
      assert FromBe(a + b) == 256 * FromBe(a + b[..n]) + b[n] && FromBe(b) == 256 * FromBe(b[..n]) + b[n];
      Times256(FromBe(a), Pow256(n));
      assert Pow256(|b|) == 256 * Pow256(n);
      hide FromBe, Pow256;
    }
  }

  lemma Times256(v: nat, p: nat)
    ensures 256 * (v * p) == v * (256 * p)
  {
  }

  lemma {:induction false} FromToBe(v: nat, n: nat)
    requires v < Pow256(n)
    ensures FromBe(ToBe(v, n)) == v
  {
    if n > 0 {
      FromToBe(v / 256, n - 1);
      assert ToBe(v, n)[..n - 1] == ToBe(v / 256, n - 1);
    }
  }

  /** A bit of a big-endian integer is a bit of one of its bytes, counted from the end. */
  lemma {:induction false} BitOfBytes(bytes: seq<Byte>, b: nat)
    ensures Bit(FromBe(bytes), b) <==> b / 8 < |bytes| && Bit(bytes[|bytes| - 1 - b / 8], b % 8)
  {
    if bytes == [] {
      ZeroHasNoBits(b);
    } else {
      var n := |bytes| - 1;
      assert Pow2(8) == 256;
      BitsOfPair(FromBe(bytes[..n]), bytes[n], 8, b);
      if b >= 8 {
        BitOfBytes(bytes[..n], b - 8);
      }
    }
  }

  /** Little-endian bytes. */
  function ToLe(v: nat, n: nat): (bytes: seq<Byte>)
    ensures |bytes| == n
  {
    if n == 0 then [] else [v % 256] + ToLe(v / 256, n - 1)
  }

  lemma {:induction false} ToLeInjective(v: nat, w: nat, n: nat)
    requires v < Pow256(n) && w < Pow256(n) && ToLe(v, n) == ToLe(w, n)
    ensures v == w
  {
    if n > 0 {
      assert ToLe(v, n)[0] == ToLe(w, n)[0];
      assert ToLe(v, n)[1..] == ToLe(w, n)[1..];
      ToLeInjective(v / 256, w / 256, n - 1);
    }
  }
}
