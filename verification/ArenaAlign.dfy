/** The mask arithmetic of arena alignment: what the bitwise forms compute on 64-bit words,
    in terms of division. */
module ArenaAlign {
  import opened Common
  import opened SerialArena

  /** Bitwise AND. */
  function And(x: nat, y: nat): nat {
    if x == 0 || y == 0 then 0 else x % 2 * (y % 2) + 2 * And(x / 2, y / 2)
  }

  /** Ceil: (n + align - 1) & ~(align - 1). */
  function Ceil(n: nat, a: Align): nat
    requires a <= U64
  {
    And((n + a - 1) % U64, U64 - a)
  }

  /** Floor, and the block limit `size & -8`: n & ~(align - 1). */
  function Floor(n: nat, a: Align): nat
    requires a <= U64
  {
    And(n, U64 - a)
  }

  /** IsAligned: (n & (align - 1)) == 0. */
  predicate IsAligned(n: nat, a: Align) {
    And(n, a - 1) == 0
  }

  /** Padded: n + align - 8. */
  function Padded(n: nat, a: Align): nat
    requires a >= 8
  {
    n + a - 8
  }

  lemma AndOneBit(x: nat, y: nat)
    ensures And(x, y) == x % 2 * (y % 2) + 2 * And(x / 2, y / 2)
  {
  }

  lemma Halves(x: nat, a: nat)
    requires a > 1 && a % 2 == 0
    ensures x % a == x % 2 + 2 * (x / 2 % (a / 2))
  {
    var b := a / 2;
    var q, r := x / 2 / b, x / 2 % b;
    assert x / 2 == q * b + r;
    assert q * a == 2 * (q * b);
    DivUnique(x, a, q, x % 2 + 2 * r);
  }

  /** Masking with a power of two less one takes the remainder. */
  lemma {:induction false} MaskIsRemainder(x: nat, a: nat)
    requires PowerOfTwo(a)
    ensures And(x, a - 1) == x % a
  {
    if a > 1 {
      MaskIsRemainder(x / 2, a / 2);
      AndOneBit(x, a - 1);
      Halves(x, a);
    }
  }

  /** Masking with the complement rounds down; `w` is the word size. */
  lemma {:induction false} MaskIsRounding(x: nat, a: nat, w: nat)
    requires PowerOfTwo(a) && PowerOfTwo(w) && a <= w && x < w
    ensures And(x, w - a) == x - x % a
    decreases w
  {
    if a == 1 {
      MaskIsRemainder(x, w);
      SmallRemainder(x, w);
    } else {
      MaskIsRounding(x / 2, a / 2, w / 2);
      AndOneBit(x, w - a);
      Halves(x, a);
    }
  }

  lemma SmallRemainder(x: nat, w: nat)
    requires x < w
    ensures x % w == x && x % 1 == 0
  {
  }

  lemma {:induction false} PowersMultiply(a: nat, b: nat)
    requires PowerOfTwo(a) && PowerOfTwo(b)
    ensures PowerOfTwo(a * b)
  {
    if a > 1 {
      PowersMultiply(a / 2, b);
      assert a * b == 2 * (a / 2 * b);
    }
  }

  lemma WordIsPower()
    ensures PowerOfTwo(U64)
  {
    assert PowerOfTwo(2);
    PowersMultiply(2, 2);
    PowersMultiply(4, 4);
    PowersMultiply(16, 16);
    PowersMultiply(256, 256);
    PowersMultiply(0x1_0000, 0x1_0000);
    PowersMultiply(U32, U32);
  }

  lemma FloorIsRounding(n: nat, a: Align)
    requires PowerOfTwo(a) && a <= U64 && n < U64
    ensures Floor(n, a) == n - n % a
    ensures IsAligned(n, a) <==> n % a == 0
  {
    hide And, PowerOfTwo;
    WordIsPower();
    MaskIsRounding(n, a, U64);
    MaskIsRemainder(n, a);
  }

  lemma WholePart(x: nat, a: nat)
    requires a > 0
    ensures x / a * a == x - x % a
  {
  }

  /** Ceil is the least multiple of the alignment from `n` on, as long as the sum does not
      wrap; and the limit of a block is its size rounded down to a multiple of 8. */
  lemma CeilIsRounding(n: nat, a: Align)
    requires PowerOfTwo(a) && n + a - 1 < U64
    ensures a <= U64 && Ceil(n, a) == CeilTo(n, a)
    ensures Ceil(n, a) % a == 0 && n <= Ceil(n, a) < n + a
  {
    hide And, PowerOfTwo;
    var x := n + a - 1;
    NoWrap(x);
    FloorIsRounding(x, a);
    CeilBounds(n, a);
    WholePart(x, a);
  }

  lemma LimitIsRounding(size: nat)
    requires size < U64
    ensures Floor(size, 8) == Down8(size)
  {
    assert PowerOfTwo(8) && PowerOfTwo(4) && PowerOfTwo(2);
    FloorIsRounding(size, 8);
  }

  /** Over-aligned requests of any size: for any power of two above 8, the aligned object of
      `n` bytes lies inside the Padded request at the 8-aligned address `p`. */
  lemma AlignedObjectFits(p: nat, n: nat, a: Align)
    requires PowerOfTwo(a) && a > 8 && p % 8 == 0 && p + Padded(n, a) < U64 - 8
    ensures a <= U64 && Ceil(p, a) % a == 0
    ensures p <= Ceil(p, a) && Ceil(p, a) + n <= p + Padded(n, a)
  {
    CeilIsRounding(p, a);
    CeilOfAligned(p, a, n);
  }

  /** At any address it does exactly when the address is a multiple of the alignment or at
      least 8 past one; and the request leaves an 8-aligned pointer 8-aligned exactly when
      the size is a multiple of 8. */
  lemma AlignedObjectFitsIff(p: nat, n: nat, a: Align)
    requires PowerOfTwo(a) && a > 8 && p + a - 1 < U64
    ensures a <= U64 && (Ceil(p, a) + n <= p + Padded(n, a) <==> p % a == 0 || p % a >= 8)
    ensures p % 8 == 0 ==> ((p + Padded(n, a)) % 8 == 0 <==> n % 8 == 0)
  {
    hide And, PowerOfTwo, CeilTo;
    CeilIsRounding(p, a);
    PaddedIff(p, a, n);
    EightAndPowers(a);
    PaddingIsEights(n, a);
    if p % 8 == 0 {
      SameRemainder(p, Padded(n, a));
    }
  }
}
