/** When a serial arena asks for more memory, and for how much. */
module ArenaGrowth {
  import opened Common
  import opened ArenaMemory
  import opened CleanupList
  import opened SerialArena

  // ----- when -----

  /** What the arena holds has no room for the call. For strings and registrations there is
      a nearer place to look before the head block. */
  ghost predicate NoRoom(s: Arena, op: Op)
    requires s.ptr <= s.limit
  {
    var left := s.limit - s.ptr;
    match op
    case Bytes(n) => n > left
    case Aligned(n, align) => CeilTo(s.ptr, align) + n > s.limit
    case Over(n, align) => (if align <= 8 then n else n + align - 8) > left
    case String => s.unused == 0 && NextSize(s.strings) > left
    case Register(_) => s.cleanup == [] || s.cleanup[0].mem.size < 16 + 16 * (|s.cleanup[0].nodes| + 1)
  }

  /** A chunk of `size` bytes holds as many 16-byte nodes as fit behind its header. */
  lemma CapacityIs(size: nat, n: nat)
    ensures n < Capacity(size) <==> 16 + 16 * (n + 1) <= size
  {
  }

  lemma CeilOfEights(p: nat, a: nat)
    requires PowerOfTwo(a) && p % 8 == 0
    ensures CeilTo(p, a) % 8 == 0
  {
    hide PowerOfTwo;
    CeilOfAligned(p, a, 0);
  }

  lemma LimitIsWhole(s: Arena)
    requires Shape(s)
    ensures s.ptr <= s.limit < U64 && s.limit % 8 == 0
  {
    if s.head.Block? { SumOfEights(s.head.mem.at, Down8(s.head.mem.size)); }
  }

  /** Rounding a request up to whole words does not matter in a space of whole words. */
  lemma WholeWords(n: nat, left: nat)
    requires left % 8 == 0
    ensures Up8(n) > left <==> n > left
  {
  }

  lemma AlignedGrows(s: Arena, n: nat, align: Align)
    requires Shape(s) && Callable(s, Aligned(n, align))
    ensures Grows(s, Aligned(n, align)) <==> CeilTo(s.ptr, align) + n > s.limit
  {
    LimitIsWhole(s);
    CeilOfEights(s.ptr, align);
    hide Shape, PowerOfTwo, CeilTo, Up8;
    WordsBeyond(CeilTo(s.ptr, align), n, s.limit);
  }

  lemma WordsBeyond(at: nat, n: nat, limit: nat)
    requires at % 8 == 0 && limit % 8 == 0 && at + Up8(n) < U64
    ensures (at + Up8(n)) % U64 > limit <==> at + n > limit
  {
    NoWrap(at + Up8(n));
    if at <= limit { WholeWords(n, limit - at); }
  }

  lemma OverGrows(s: Arena, n: nat, align: Align)
    requires Shape(s) && Callable(s, Over(n, align))
    ensures Grows(s, Over(n, align)) <==> (if align <= 8 then n else n + align - 8) > s.limit - s.ptr
  {
    LimitIsWhole(s);
    hide Shape, PowerOfTwo, CeilTo;
    NoWrap(s.ptr + AlignUpTo(n, align));
    WholeWords(n, s.limit - s.ptr);
  }

  lemma GrowsIff(s: Arena, op: Op)
    requires Shape(s) && Callable(s, op)
    ensures s.ptr <= s.limit
    ensures Grows(s, op) <==> NoRoom(s, op)
  {
    LimitIsWhole(s);
    match op
    case Bytes(n) => NoWrap(s.ptr + n);
    case Aligned(n, align) =>
      AlignedGrows(s, n, align);
    case Over(n, align) =>
      OverGrows(s, n, align);
    case String =>
      SizesOk(s.strings);
      NoWrap(s.ptr + NextSize(s.strings));
    case Register(_) =>
      if s.cleanup != [] { CapacityIs(s.cleanup[0].mem.size, |s.cleanup[0].nodes|); }
  }

  /** A call obtains memory exactly when what is left has no room for it, and then one
      region. */
  lemma AsksOnlyWhenFull(t: Trace, op: Op, mem: Region)
    requires Shape(t.s) && Callable(t.s, op)
    requires op.String? ==> mem.size == Rounded(if NextSize(t.s.strings) < MIN_STRINGS then MIN_STRINGS else NextSize(t.s.strings))
    ensures t.s.ptr <= t.s.limit
    ensures Ready(t.s) && Owned(Step(t, op, mem).s) == Owned(t.s) + if NoRoom(t.s, op) then multiset{mem} else multiset{}
  {
    GrowsIff(t.s, op);
    hide Callable, Owned, Step, NoRoom;
    if op.String? { SizesOk(t.s.strings); }
    StepOwned(t, op, mem);
  }

  // ----- how much -----

  function Pow2(n: nat): (p: nat)
    ensures p > 0
  {
    if n == 0 then 1 else 2 * Pow2(n - 1)
  }

  /** The size asked for the `n`-th time, when the allocator returns what it is asked for. */
  function NthSize(n: nat, start: nat, max: nat): nat {
    AllocationSize(if n == 0 then 0 else NthSize(n - 1, start, max), start, max)
  }

  /** Blocks and chunks start at the start size and double up to the limit. */
  lemma {:induction false} SizesDouble(n: nat, start: nat, max: nat)
    requires start > 0 && max > 0 && 2 * start < U64 && 2 * max < U64
    ensures NthSize(n, start, max) == if n == 0 then start else Min(start * Pow2(n), max)
  {
    if n > 0 {
      SizesDouble(n - 1, start, max);
      DoublePower(n, start);
      NthAgain(n, start, max);
      hide Pow2, NthSize, AllocationSize;
      Doubled(NthSize(n - 1, start, max), start * Pow2(n - 1), n, start, max);
    }
  }

  lemma NthAgain(n: nat, start: nat, max: nat)
    ensures NthSize(0, start, max) == start
    ensures n > 0 ==> NthSize(n, start, max) == AllocationSize(NthSize(n - 1, start, max), start, max)
  {
  }

  lemma DoublePower(n: nat, start: nat)
    requires n > 0 && start > 0
    ensures start * Pow2(n) == 2 * (start * Pow2(n - 1)) && start * Pow2(n - 1) > 0
    ensures n == 1 ==> start * Pow2(n - 1) == start
  {
  }

  lemma Doubled(last: nat, x: nat, n: nat, start: nat, max: nat)
    requires n > 0 && max > 0 && 2 * start < U64 && 2 * max < U64 && x > 0 && (n == 1 ==> x == start)
    requires last == if n == 1 then start else Min(x, max)
    ensures AllocationSize(last, start, max) == Min(2 * x, max)
  {
    assert 2 * last < U64 && (2 * last) % U64 == 2 * last;
  }

  function Depth(sb: Strings): nat {
    if sb.Strings? then 1 + Depth(sb.next) else 0
  }

  /** The sizes of a list of string blocks: 256 bytes twice, then doubling up to 8192, each
      cut down to whole strings. */
  ghost predicate Grown(sb: Strings) {
    match sb
    case NoStrings => true
    case Strings(_, size, nextSize, _, next) =>
      && nextSize == Min(256 * Pow2(Depth(next)), 8192)
      && size == Whole32(if next.Strings? then Min(256 * Pow2(Depth(next) - 1), 8192) else 256)
      && Grown(next)
  }

  /** A header of 16 bytes and as many strings of 32 as `n` bytes hold. */
  function Whole32(n: nat): nat
    requires n >= 16
  {
    16 + (n - 16) / 32 * 32
  }

  lemma RoundedIs(n: nat)
    requires n >= MIN_STRINGS
    ensures Rounded(n) == Whole32(n)
  {
  }

  lemma AfterIs(sb: Strings)
    requires Grown(sb)
    ensures NextSize(sb) == if sb.Strings? then Min(256 * Pow2(Depth(sb) - 1), 8192) else 256
    ensures SizeAfter(sb) == Min(256 * Pow2(Depth(sb)), 8192)
    ensures NextSize(sb) >= MIN_STRINGS
  {
  }

  /** Whether a new string block comes out of the head block or from the heap, the sizes go
      on growing; other calls leave the string blocks alone. */
  lemma StepGrown(t: Trace, op: Op, mem: Region)
    requires Ready(t.s) && Grown(t.s.strings)
    ensures var sb := Step(t, op, mem).s.strings;
            && Grown(sb)
            && Depth(sb) == Depth(t.s.strings) + (if op.String? && t.s.unused == 0 then 1 else 0)
            && (sb == t.s.strings || (sb.Strings? && sb.next == t.s.strings))
  {
    if op.String? && t.s.unused == 0 {
      NewStringsGrown(t, mem.at);
    }
    hide Grown, NewStrings, Depth;
  }

  lemma NewStringsGrown(t: Trace, at: nat)
    requires Ready(t.s) && Grown(t.s.strings)
    ensures NextSize(t.s.strings) >= MIN_STRINGS
    ensures var sb := NewStrings(t, at).s.strings;
            Grown(sb) && Depth(sb) == Depth(t.s.strings) + 1 && sb.next == t.s.strings
  {
    hide Rounded;
    AfterIs(t.s.strings);
    RoundedIs(NextSize(t.s.strings));
  }
}
