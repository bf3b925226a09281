/** Base 128 varints: writing, reading, and the branch-free size formula. */
module Varint {
  import opened Common

  function Write(v: nat): (b: bytes)
    ensures |b| > 0
  {
    if v < 128 then [v] else [v % 128 + 128] + Write(v / 128)
  }

  /** The writer's loop: seven bits at a time, low ones first. */
  method Emit(value: nat) returns (b: bytes)
    ensures b == Write(value)
  {
    var v := value;
    b := [];
    while v >= 128
      invariant b + Write(v) == Write(value)
    {
      Front(b, v % 128 + 128, Write(v / 128));
      b, v := b + [v % 128 + 128], v / 128;
    }
    b := b + [v];
  }

  lemma Front(a: bytes, x: byte, c: bytes)
    ensures (a + [x]) + c == a + ([x] + c)
  {
  }

  datatype Read = Read(value: nat, rest: bytes) | Malformed

  /** At most `n` bytes, the last of which is below 128. */
  function ReadUpTo(b: bytes, n: nat): (r: Read)
    ensures r.Read? ==> |r.rest| < |b|
  {
    if n == 0 || b == [] then Malformed
    else if b[0] < 128 then Read(b[0], b[1..])
    else
      match ReadUpTo(b[1..], n - 1)
      case Malformed => Malformed
      case Read(v, rest) => Read((b[0] as int) - 128 + 128 * v, rest)
  }

  /** A 64-bit varint: ten bytes at most, the bits above 64 are dropped. */
  function ReadVarint(b: bytes): (r: Read)
    ensures r.Read? ==> |r.rest| < |b| && r.value < U64
  {
    match ReadUpTo(b, 10)
    case Malformed => Malformed
    case Read(v, rest) => Read(v % U64, rest)
  }

  /** `v` has at most `n` digits to the base 128. */
  predicate Fits(v: nat, n: nat) {
    n > 0 && (v < 128 || Fits(v / 128, n - 1))
  }

  lemma {:induction false} ReadUpToOfWrite(v: nat, n: nat, rest: bytes)
    requires Fits(v, n)
    ensures ReadUpTo(Write(v) + rest, n) == Read(v, rest)
    decreases n
  {
    var b := Write(v) + rest;
    if v < 128 {
      assert b[1..] == rest;
    } else {
      ReadUpToOfWrite(v / 128, n - 1, rest);
      assert b[1..] == Write(v / 128) + rest;
    }
  }

  lemma WordFits(v: nat)
    requires v < U64
    ensures Fits(v, 10)
  {
    var v1 := v / 128;
    var v2 := v1 / 128;
    var v3 := v2 / 128;
    var v4 := v3 / 128;
    var v5 := v4 / 128;
    var v6 := v5 / 128;
    var v7 := v6 / 128;
    var v8 := v7 / 128;
    assert v8 < 256 && v8 / 128 < 128;
    assert Fits(v8 / 128, 1) && Fits(v8, 2) && Fits(v7, 3) && Fits(v6, 4) && Fits(v5, 5);
    assert Fits(v4, 6) && Fits(v3, 7) && Fits(v2, 8) && Fits(v1, 9);
  }

  lemma ReadOfWrite(v: nat, rest: bytes)
    requires v < U64
    ensures ReadVarint(Write(v) + rest) == Read(v, rest)
  {
    hide Write, Fits, ReadUpTo;
    WordFits(v);
    ReadUpToOfWrite(v, 10, rest);
    assert v % U64 == v;
  }

  // ----- size -----

  /** The position of the highest set bit. */
  function Log2(v: nat): nat {
    if v < 2 then 0 else 1 + Log2(v / 2)
  }

  /** VarintSize32 and VarintSize64 by bit scan, `(log2(v | 1) * 9 + 73) / 64`. */
  function Size(v: nat): nat {
    (Log2(if v == 0 then 1 else v) * 9 + 73) / 64
  }

  /** The same by counting leading zeros of a word of `digits` bits. */
  function SizeByZeros(v: nat, digits: nat): int {
    var zeros := if v == 0 then digits else digits - 1 - Log2(v);
    ((digits * 9 + 64) - zeros * 9) / 64
  }

  lemma OneBit(v: nat)
    ensures Log2(v) <= 1 + Log2(v / 2)
    ensures v >= 2 ==> Log2(v) == 1 + Log2(v / 2)
  {
  }

  lemma ThreeBits(v: nat)
    ensures Log2(v) <= 3 + Log2(v / 8)
    ensures v >= 8 ==> Log2(v) == 3 + Log2(v / 8)
  {
    OneBit(v);
    OneBit(v / 2);
    OneBit(v / 4);
    assert v / 2 / 2 == v / 4 && v / 4 / 2 == v / 8;
  }

  lemma SevenBits(v: nat)
    requires v >= 128
    ensures Log2(v) == 7 + Log2(v / 128)
  {
    ThreeBits(v);
    ThreeBits(v / 8);
    OneBit(v / 64);
    assert v / 8 / 8 == v / 64 && v / 64 / 2 == v / 128;
  }

  lemma {:induction false} LengthBySevens(v: nat)
    ensures |Write(v)| == Log2(v) / 7 + 1
  {
    if v < 128 {
      SmallLog(v);
    } else {
      SevenBits(v);
      LengthBySevens(v / 128);
    }
  }

  lemma SmallLog(v: nat)
    requires v < 128
    ensures Log2(v) < 7
  {
    ThreeBits(v);
    ThreeBits(v / 8);
    assert v / 8 / 8 < 2;
  }

  lemma {:induction false} LogOfFits(v: nat, n: nat)
    requires Fits(v, n)
    ensures Log2(v) < 7 * n
  {
    if v < 128 {
      SmallLog(v);
    } else {
      SevenBits(v);
      LogOfFits(v / 128, n - 1);
    }
  }

  lemma NinesAndSevens(l: nat)
    requires l < 70
    ensures (l * 9 + 73) / 64 == l / 7 + 1
  {
  }

  /** Both forms of the formula give the length of the varint, for every 64-bit value. */
  lemma SizeIsLength(v: nat)
    requires v < U64
    ensures Size(v) == SizeByZeros(v, 64) == |Write(v)|
    ensures v < U32 ==> SizeByZeros(v, 32) == |Write(v)|
  {
    WordFits(v);
    LogOfFits(v, 10);
    LengthBySevens(v);
    NinesAndSevens(Log2(v));
  }
}
