/**
 Short channel ids in the database: the archiver stores little-endian bytes
 (gossip_archiver/src/lib.rs), the analysis reads them back with a shift-and-or SQL
 expression and filters by the same bytes (analysis/test_queries.py).
 */
module Scid {
  import opened Prelude
  import opened Bytes

  const I64_RANGE: nat := 0x8000_0000_0000_0000

  /** The stored column. */
  function Stored(scid: U64): seq<Byte> { ToLe(scid, 8) }

  /** SQL bigint arithmetic on 64-bit patterns. */
  function Shl(b: Byte, k: nat): nat { Pow2(k) * b % U64_RANGE }

  function AsBigint(pattern: nat): int {
    if pattern < I64_RANGE then pattern else pattern - U64_RANGE
  }

  function SqlScid(col: seq<Byte>): int
    requires |col| == 8
  {
    AsBigint(Or(Or(Or(Or(Or(Or(Or(
      col[0], Shl(col[1], 8)), Shl(col[2], 16)), Shl(col[3], 24)), Shl(col[4], 32)), Shl(col[5], 40)),
      Shl(col[6], 48)), Shl(col[7], 56)))
  }

  /** Python's int.to_bytes(8, "little"), which fails outside the unsigned range. */
  function QueryBytes(scid: int): Option<seq<Byte>> {
    if 0 <= scid < U64_RANGE then Some(ToLe(scid, 8)) else None
  }

  lemma Powers()
    ensures Pow2(8) == 0x100 && Pow2(16) == 0x1_0000 && Pow2(24) == 0x100_0000 && Pow2(32) == 0x1_0000_0000
    ensures Pow2(40) == 0x100_0000_0000 && Pow2(48) == 0x1_0000_0000_0000 && Pow2(56) == 0x100_0000_0000_0000
    ensures Pow256(8) == U64_RANGE
  {
    assert Pow2(8) == 0x100;
    assert Pow2(16) == 0x100 * Pow2(8);
    assert Pow2(24) == 0x100 * Pow2(16);
    assert Pow2(32) == 0x100 * Pow2(24);
    assert Pow2(40) == 0x100 * Pow2(32);
    assert Pow2(48) == 0x100 * Pow2(40);
    assert Pow2(56) == 0x100 * Pow2(48);
  }

  lemma ShlExact(b: Byte, k: nat)
    requires Pow2(k) <= U64_RANGE / 256
    ensures Shl(b, k) == Pow2(k) * b
  {
    hide Pow2;
    MulBound(Pow2(k), b);
    SmallMod(Pow2(k) * b, U64_RANGE);
  }

  lemma SmallMod(x: nat, m: nat)
    requires x < m
    ensures x % m == x
  {
  }

  /** Adding the byte at position k to a value below 2^k. */
  lemma OrByte(low: nat, b: Byte, k: nat)
    requires low < Pow2(k) <= U64_RANGE / 256
    ensures Or(low, Shl(b, k)) == low + Pow2(k) * b < Pow2(k) * 256
  {
    ShlExact(b, k);
    OrDisjoint(low, b, k);
    MulBound(Pow2(k), b);
    hide Pow2, Or, Shl;
  }

  lemma MulBound(p: nat, b: nat)
    requires b < 256
    ensures p * b + p <= p * 256
  {
    assert p * b + p == p * (b + 1);
    assert p * 256 - p * (b + 1) == p * (255 - b);
  }

  /** The SQL expression reads a stored scid back as its signed 64-bit value. */
  lemma SqlReadsStored(scid: U64)
    ensures SqlScid(Stored(scid)) == AsBigint(scid)
  {
    Powers();
    var c: seq<nat> := Stored(scid);
    StoredBytes(scid);
    hide Pow2, Or, Shl, Pow256, ToLe;
    var v1: nat := c[0] + 0x100 * c[1];
    var v2: nat := v1 + 0x1_0000 * c[2];
    var v3: nat := v2 + 0x100_0000 * c[3];
    var v4: nat := v3 + 0x1_0000_0000 * c[4];
    var v5: nat := v4 + 0x100_0000_0000 * c[5];
    var v6: nat := v5 + 0x1_0000_0000_0000 * c[6];
    OrByte(c[0], c[1], 8);
    OrByte(v1, c[2], 16);
    OrByte(v2, c[3], 24);
    OrByte(v3, c[4], 32);
    OrByte(v4, c[5], 40);
    OrByte(v5, c[6], 48);
    OrByte(v6, c[7], 56);
  }

  /** The column has the eight bytes of the id, least significant first. */
  lemma StoredBytes(v: U64)
    ensures |Stored(v)| == 8
    ensures var c: seq<nat> := Stored(v);
            v == c[0] + 0x100 * c[1] + 0x1_0000 * c[2] + 0x100_0000 * c[3] + 0x1_0000_0000 * c[4]
                 + 0x100_0000_0000 * c[5] + 0x1_0000_0000_0000 * c[6] + 0x100_0000_0000_0000 * c[7]
  {
    var v1 := v / 256;
    var v2: nat := v1 / 256;
    var v3: nat := v2 / 256;
    var v4: nat := v3 / 256;
    var v5: nat := v4 / 256;
    var v6: nat := v5 / 256;
    var v7 := v6 / 256;
    assert ToLe(v7, 1) == [v7 % 256];
    assert ToLe(v6, 2) == [v6 % 256] + ToLe(v7, 1);
    assert ToLe(v5, 3) == [v5 % 256] + ToLe(v6, 2);
    assert ToLe(v4, 4) == [v4 % 256] + ToLe(v5, 3);
    assert ToLe(v3, 5) == [v3 % 256] + ToLe(v4, 4);
    assert ToLe(v2, 6) == [v2 % 256] + ToLe(v3, 5);
    assert ToLe(v1, 7) == [v1 % 256] + ToLe(v2, 6);
    assert ToLe(v, 8) == [v % 256] + ToLe(v1, 7);
  }

  /** So it gives the original value exactly for ids below 2^63. */
  lemma SqlRoundTripIff(scid: U64)
    ensures SqlScid(Stored(scid)) == scid <==> scid < I64_RANGE
  {
    SqlReadsStored(scid);
  }

  /** A filter by an id selects exactly the rows storing that id, and no id outside the
      unsigned range can be asked for. */
  lemma FilterSelectsExactly(query: int, row: U64)
    ensures QueryBytes(query) == Some(Stored(row)) <==> query == row
    ensures QueryBytes(query).None? <==> query < 0 || query >= U64_RANGE
  {
    Powers();
    if QueryBytes(query) == Some(Stored(row)) {
      ToLeInjective(query, row, 8);
    }
  }
}
