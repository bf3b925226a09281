/** The bump allocator that serves one thread: a list of blocks, the string blocks carved
    out of them or taken from the heap, and the space counters. */
module SerialArena {
  import opened Common
  import opened ArenaMemory
  import opened CleanupList

  const HEADER: nat := 16          // kBlockHeaderSize
  const SERIAL_SIZE: nat := 120    // kSerialArenaSize on a 64-bit target
  const STRING: nat := 32          // sizeof(std::string)
  const STRINGS_HEADER: nat := 16  // sizeof(StringBlock)
  const MIN_STRINGS: nat := 256
  const MAX_STRINGS: nat := 8192

  /** A block header and the blocks behind it. The static sentry has size 0. */
  datatype Block = Null | Sentry | Block(mem: Region, next: Block)

  /** A string block: `size` bytes at `at`, header included. */
  datatype Strings = NoStrings | Strings(at: nat, size: nat, nextSize: nat, heap: bool, next: Strings)

  /** The fields of a serial arena. Pointers are addresses, counters are 64-bit. */
  datatype Arena = Arena(
    head: Block, ptr: nat, limit: nat,
    strings: Strings, unused: nat,
    spaceUsed: nat, spaceAllocated: nat,
    cleanup: seq<Filled>)

  // ----- parts of the state -----

  function Down8(n: nat): (r: nat)
    ensures r % 8 == 0 && r <= n < r + 8
  {
    n - n % 8
  }

  function Up8(n: nat): (r: nat)
    ensures r % 8 == 0 && n <= r < n + 8
  {
    (n + 7) / 8 * 8
  }

  lemma SumOfEights(a: nat, b: nat)
    requires a % 8 == 0 && b % 8 == 0
    ensures (a + b) % 8 == 0
  {
  }

  function BlockSize(b: Block): nat {
    if b.Block? then b.mem.size else 0
  }

  function Effective(sb: Strings): nat
    requires sb.Strings? && sb.size >= STRINGS_HEADER
  {
    sb.size - STRINGS_HEADER
  }

  /** RoundedSize: the largest block of whole strings. */
  function Rounded(size: nat): (r: nat)
    requires size >= MIN_STRINGS
    ensures r <= size && (r - STRINGS_HEADER) % STRING == 0 && r >= STRINGS_HEADER + STRING
  {
    size - (size - STRINGS_HEADER) % STRING
  }

  /** NextSize. */
  function NextSize(sb: Strings): nat {
    if sb.Strings? then sb.nextSize else MIN_STRINGS
  }

  /** The size recorded for the block after the one that follows `sb`. */
  function SizeAfter(sb: Strings): nat {
    if sb.Strings? then Min(2 * sb.nextSize, MAX_STRINGS) else MIN_STRINGS
  }

  /** Wrap-around addition of size_t counters; `d` may be negative. */
  function Plus(a: nat, d: int): (r: nat)
    ensures r < U64
  {
    (a + d) % U64
  }

  // ----- operations -----

  /** The test of MaybeAllocateAligned, in uintptr_t. */
  predicate Fits(s: Arena, n: nat) {
    (s.ptr + n) % U64 <= s.limit
  }

  /** What AllocateBlock asks the allocator for. */
  function BlockRequest(s: Arena, start: nat, max: nat, n: nat): nat {
    var size := AllocationSize(BlockSize(s.head), start, max);
    if size < HEADER + n then HEADER + n else size
  }

  /** AllocateNewBlock, once the allocator has returned `mem`. */
  function NewBlock(s: Arena, mem: Region): Arena {
    var used := if s.head.Block? then Plus(s.spaceUsed, s.ptr - (s.head.mem.at + HEADER)) else s.spaceUsed;
    s.(head := Block(mem, s.head), ptr := mem.at + HEADER, limit := mem.at + Down8(mem.size),
       spaceUsed := used, spaceAllocated := Plus(s.spaceAllocated, mem.size))
  }

  /** The new string block taken from the current arena block; the bytes it occupies are
      taken off the counter again because they are counted as strings. */
  function EmplaceStrings(s: Arena): Arena
    requires NextSize(s.strings) >= MIN_STRINGS
  {
    var n := NextSize(s.strings);
    s.(ptr := s.ptr + n, spaceUsed := Plus(s.spaceUsed, -(n as int)),
       strings := Strings(s.ptr, Rounded(n), SizeAfter(s.strings), false, s.strings),
       unused := Rounded(n) - STRINGS_HEADER)
  }

  /** The new string block taken from the heap at address `at`. */
  function HeapStrings(s: Arena, at: nat): Arena
    requires NextSize(s.strings) >= MIN_STRINGS
  {
    var size := Rounded(NextSize(s.strings));
    s.(spaceAllocated := Plus(s.spaceAllocated, size),
       strings := Strings(at, size, SizeAfter(s.strings), true, s.strings),
       unused := size - STRINGS_HEADER)
  }

  /** The exhausted string block is counted as used when the next one replaces it. */
  function RetireStrings(s: Arena): Arena {
    if s.strings.Strings? && s.strings.size >= STRINGS_HEADER then
      s.(spaceUsed := Plus(s.spaceUsed, Effective(s.strings)))
    else s
  }

  // ----- what every operation keeps -----

  ghost predicate BlockOk(b: Block) {
    match b
    case Null => false
    case Sentry => true
    case Block(mem, next) =>
      && mem.at % 8 == 0 && mem.at > 0 && mem.size > HEADER && mem.at + mem.size < U64
      && (next == Null || BlockOk(next))
  }

  /** String blocks have room for whole strings, and know the size of their successor. */
  predicate SizesFine(sb: Strings) {
    match sb
    case NoStrings => true
    case Strings(_, size, nextSize, _, next) =>
      && STRINGS_HEADER + STRING <= size <= MAX_STRINGS && (size - STRINGS_HEADER) % STRING == 0
      && MIN_STRINGS <= nextSize <= MAX_STRINGS && nextSize % 8 == 0
      && SizesFine(next)
  }

  ghost predicate StringsOk(sb: Strings) {
    match sb
    case NoStrings => true
    case Strings(at, size, _, _, next) => at % 8 == 0 && at + size < U64 && StringsOk(next)
  }

  /** The unused part of the newest string block has room for whole strings too. */
  predicate Ready(s: Arena) {
    && SizesFine(s.strings)
    && (if s.strings.Strings? then s.unused <= Effective(s.strings) && s.unused % STRING == 0 else s.unused == 0)
  }

  /** The bump pointer is between the header and the limit of the head block. */
  ghost predicate Range(s: Arena) {
    && Ready(s) && BlockOk(s.head) && s.limit < U64
    && (if s.head.Sentry? then s.ptr == s.limit
        else s.head.mem.at + HEADER <= s.ptr <= s.limit <= s.head.mem.at + s.head.mem.size)
  }

  /** Moreover it is aligned, and so are the string blocks. */
  ghost predicate Shape(s: Arena) {
    && Range(s) && StringsOk(s.strings) && s.ptr % 8 == 0
    && (s.head.Block? ==> s.limit == s.head.mem.at + Down8(s.head.mem.size))
  }

  /** MaybeAllocateAligned's test means "n bytes are left" exactly when the sum of the
      pointer and the request does not wrap. */
  lemma FitsIff(s: Arena, n: nat)
    requires Range(s) && n < U64
    ensures (Fits(s, n) <==> s.ptr + n <= s.limit) <==> s.ptr + n < U64
  {
  }

  /** An input for which it wraps: the block is used up, and a request of nearly the whole
      address space is accepted and moves the pointer to zero. */
  lemma WrappedRequestIsAccepted()
    ensures var s := Arena(Block(Region(4096, 256), Null), 4352, 4352, NoStrings, 0, 0, 256, []);
            Shape(s) && Fits(s, U64 - 4352) && !(s.ptr + (U64 - 4352) <= s.limit)
  {
    assert StringsOk(NoStrings);
    assert (4352 + (U64 - 4352)) % U64 == 0;
  }

  // ----- memory in use -----

  function BlockBag(b: Block): multiset<Region> {
    if b.Block? then multiset{b.mem} + BlockBag(b.next) else multiset{}
  }

  function HeapBag(sb: Strings): multiset<Region> {
    if sb.NoStrings? then multiset{}
    else if sb.heap then multiset{Region(sb.at, sb.size)} + HeapBag(sb.next)
    else HeapBag(sb.next)
  }

  /** The memory that allocations come from. */
  function Space(s: Arena): multiset<Region> {
    BlockBag(s.head) + HeapBag(s.strings)
  }

  /** Everything the arena holds. */
  function Owned(s: Arena): multiset<Region> {
    Space(s) + multiset(Memory(s.cleanup))
  }

  /** The part of the head block not handed out yet. */
  function FreeBytes(s: Arena): Region {
    if s.limit < s.ptr then Region(s.ptr, 0) else Region(s.ptr, s.limit - s.ptr)
  }

  /** The part of the newest string block not handed out yet. */
  function FreeStrings(s: Arena): Region {
    if s.strings.Strings? then Region(s.strings.at + STRINGS_HEADER, s.unused) else Region(0, 0)
  }

  // ----- history -----

  /** An arena together with what it has handed out: the live objects and strings, the
      strings again on their own with the latest first, the bytes taken directly (alignment
      gaps included) and the bytes set aside at the start for the arena's own use. */
  datatype Trace = Trace(s: Arena, objects: seq<Region>, handed: seq<Region>, direct: nat, overhead: nat)

  function TotalEffective(sb: Strings): nat {
    if sb.NoStrings? then 0
    else (if sb.size >= STRINGS_HEADER then Effective(sb) else 0) + TotalEffective(sb.next)
  }

  function Retired(sb: Strings): nat {
    if sb.NoStrings? then 0 else TotalEffective(sb.next)
  }

  /** The bytes taken from the head block. */
  function Bumped(s: Arena): int {
    if s.head.Block? then s.ptr - (s.head.mem.at + HEADER) else 0
  }

  /** The counters agree with the history. */
  ghost predicate Counted(t: Trace) {
    && t.s.spaceUsed == (t.overhead + t.direct + Retired(t.s.strings) - Bumped(t.s)) % U64
    && |t.handed| * STRING == TotalEffective(t.s.strings) - t.s.unused
    && (t.s.head.Sentry? ==> t.overhead == t.direct == 0)
  }

  /** SpaceUsed, in 64-bit arithmetic. */
  function SpaceUsed(s: Arena): nat
    requires s.strings.Strings? ==> s.unused + STRINGS_HEADER <= s.strings.size
    requires s.head.Block? ==> s.head.mem.at + HEADER <= s.ptr
  {
    var inStrings := if s.strings.Strings? then Effective(s.strings) - s.unused else 0;
    if !s.head.Block? then inStrings
    else
      var inBlock := Min(s.ptr - (s.head.mem.at + HEADER), s.head.mem.size);
      Plus(Plus(inStrings, inBlock), s.spaceUsed)
  }

  /** With a real head block SpaceUsed is what was handed out, whatever the history; with
      the sentry it is so exactly when the counter of retired strings is zero, which means
      that no string block has been retired unless the counter has wrapped. */
  lemma SpaceUsedExact(t: Trace)
    requires Range(t.s) && Counted(t)
    ensures var exact := (t.overhead + t.direct + |t.handed| * STRING) % U64;
            if t.s.head.Block? then SpaceUsed(t.s) == exact else SpaceUsed(t.s) == exact <==> t.s.spaceUsed == 0
    ensures t.s.head.Sentry? && Retired(t.s.strings) < U64 ==>
              (t.s.spaceUsed == 0 <==> t.s.strings.NoStrings? || t.s.strings.next.NoStrings?)
  {
    var s := t.s;
    var inStrings := if s.strings.Strings? then Effective(s.strings) - s.unused else 0;
    if s.head.Block? {
      var x := t.overhead + t.direct + Retired(s.strings) - Bumped(s);
      ThreeCounters(x, inStrings, Bumped(s));
    } else {
      UncountedPart(inStrings, Retired(s.strings));
      RetiredIsPositive(s.strings);
    }
  }

  lemma RetiredIsPositive(sb: Strings)
    requires SizesFine(sb)
    ensures Retired(sb) == 0 <==> sb.NoStrings? || sb.next.NoStrings?
  {
  }

  lemma UncountedPart(a: nat, b: nat)
    requires a < U64
    ensures a == (a + b) % U64 <==> b % U64 == 0
  {
    ModPlus(b, a);
  }

  lemma ThreeCounters(x: int, a: nat, b: nat)
    ensures Plus(Plus(a, b), x % U64) == (x + a + b) % U64
  {
    ModPlus(a + b, x % U64);
    ModPlus(x, a + b);
  }

  lemma ModPlus(x: int, y: int)
    ensures (x % U64 + y) % U64 == (x + y) % U64
  {
  }

  // ----- where the handed-out memory lies -----

  /** The objects overlap neither each other nor the two free areas. */
  ghost predicate Layout(objects: seq<Region>, free: Region, other: Region) {
    && (forall i, j | 0 <= i < j < |objects| :: Apart(objects[i], objects[j]))
    && (forall i | 0 <= i < |objects| :: Apart(objects[i], free) && Apart(objects[i], other))
    && Apart(free, other)
  }

  /** Cutting `taken` off a free area. */
  lemma LayoutTake(objects: seq<Region>, free: Region, other: Region, taken: Region, rest: Region)
    requires Layout(objects, free, other)
    requires Within(taken, free) && Within(rest, free) && Apart(taken, rest)
    ensures Layout(objects + [taken], rest, other)
  {
    var all := objects + [taken];
    forall i | 0 <= i < |all| ensures Apart(all[i], rest) && Apart(all[i], other) {
      if i < |objects| {
        assert Apart(objects[i], free) && Apart(objects[i], other);
      }
    }
    forall i, j | 0 <= i < j < |all| ensures Apart(all[i], all[j]) {
      assert Apart(objects[i], free);
      if j < |objects| {
        assert Apart(objects[i], objects[j]);
      }
    }
  }

  /** Replacing a free area. */
  lemma LayoutReplace(objects: seq<Region>, free: Region, other: Region, fresher: Region)
    requires Layout(objects, free, other) && Apart(fresher, other)
    requires forall i | 0 <= i < |objects| :: Apart(objects[i], fresher)
    ensures Layout(objects, fresher, other)
  {
  }

  /** `r` lies in one of the regions of `space`, past its header. */
  ghost predicate Covered(space: multiset<Region>, r: Region) {
    r.size == 0 || exists o :: o in space && Within(r, o) && o.at + HEADER <= r.at
  }

  lemma CoveredPart(space: multiset<Region>, more: multiset<Region>, r: Region, part: Region)
    requires Covered(space, r) && Within(part, r) && space <= more
    ensures Covered(more, part)
  {
    if r.size > 0 {
      var o :| o in space && Within(r, o) && o.at + HEADER <= r.at;
      assert o in more;
    }
  }

  lemma CoveredApart(space: multiset<Region>, r: Region, mem: Region)
    requires Covered(space, r) && Unused(space, mem)
    ensures Apart(r, mem)
  {
  }

  /** What lies in the old space keeps its place and is apart from any part of new memory. */
  lemma OldPlaces(space: multiset<Region>, more: multiset<Region>, mem: Region, part: Region, rs: seq<Region>)
    requires Unused(space, mem) && Within(part, mem) && space <= more
    requires forall i | 0 <= i < |rs| :: Covered(space, rs[i])
    ensures forall i | 0 <= i < |rs| :: Apart(rs[i], part) && Covered(more, rs[i])
  {
    forall i | 0 <= i < |rs| ensures Apart(rs[i], part) && Covered(more, rs[i]) {
      CoveredApart(space, rs[i], mem);
      ApartWithin(mem, rs[i], part);
      CoveredPart(space, more, rs[i], rs[i]);
    }
  }

  ghost predicate PlacedIn(space: multiset<Region>, objects: seq<Region>, free: Region, other: Region) {
    && Layout(objects, free, other)
    && (forall i | 0 <= i < |objects| :: objects[i].size > 0 && Covered(space, objects[i]))
    && Covered(space, free) && Covered(space, other)
  }

  ghost predicate Placed(t: Trace) {
    PlacedIn(Space(t.s), t.objects, FreeBytes(t.s), FreeStrings(t.s))
  }

  lemma PlacedSwap(space: multiset<Region>, objects: seq<Region>, free: Region, other: Region)
    requires PlacedIn(space, objects, free, other)
    ensures PlacedIn(space, objects, other, free)
  {
  }

  /** A free area is replaced by a part of new memory, past its header. */
  lemma PlacedInNew(space: multiset<Region>, objects: seq<Region>, free: Region, other: Region, mem: Region, part: Region)
    requires PlacedIn(space, objects, free, other)
    requires Unused(space, mem) && Within(part, mem) && mem.at + HEADER <= part.at
    ensures PlacedIn(multiset{mem} + space, objects, part, other)
  {
    hide Layout;
    var more := multiset{mem} + space;
    OldPlaces(space, more, mem, part, objects);
    OldPlaces(space, more, mem, part, [other]);
    assert Apart([other][0], part) && Covered(more, [other][0]);
    assert mem in more;
    LayoutReplace(objects, free, other, part);
  }

  /** An object is cut off a free area. */
  lemma PlacedTake(space: multiset<Region>, objects: seq<Region>, free: Region, other: Region, taken: Region, rest: Region)
    requires PlacedIn(space, objects, free, other) && taken.size > 0
    requires Within(taken, free) && Within(rest, free) && Apart(taken, rest)
    ensures PlacedIn(space, objects + [taken], rest, other)
  {
    LayoutTake(objects, free, other, taken, rest);
    CoveredPart(space, space, free, taken);
    CoveredPart(space, space, free, rest);
  }

  // ----- the elementary changes, and that each keeps the arena in order -----

  /** `next - ptr` bytes are taken from the head block, for an object at `at`. Nothing is
      recorded for an object without bytes. */
  function Take(t: Trace, next: nat, at: nat, size: nat): Trace
    requires t.s.ptr <= next
  {
    Trace(t.s.(ptr := next), if size > 0 then t.objects + [Region(at, size)] else t.objects,
          t.handed, t.direct + (next - t.s.ptr), t.overhead)
  }

  predicate Takes(t: Trace, next: nat, at: nat, size: nat) {
    t.s.ptr <= at && at + size <= next <= t.s.limit && next % 8 == 0
  }

  lemma TakeCounted(t: Trace, next: nat, at: nat, size: nat)
    requires Range(t.s) && Counted(t) && t.s.ptr <= next <= t.s.limit
    ensures Range(Take(t, next, at, size).s) && Counted(Take(t, next, at, size))
  {
  }

  lemma TakeShape(t: Trace, next: nat, at: nat, size: nat)
    requires Shape(t.s) && Takes(t, next, at, size)
    ensures Shape(Take(t, next, at, size).s)
  {
  }

  lemma TakePlaced(t: Trace, next: nat, at: nat, size: nat)
    requires Placed(t) && Takes(t, next, at, size)
    ensures Placed(Take(t, next, at, size))
  {
    var t', obj := Take(t, next, at, size), Region(at, size);
    var free, free' := FreeBytes(t.s), FreeBytes(t'.s);
    if size > 0 {
      PlacedTake(Space(t.s), t.objects, free, FreeStrings(t.s), obj, free');
    } else {
      CoveredPart(Space(t.s), Space(t.s), free, free');
    }
  }

  function Open(t: Trace, mem: Region): Trace {
    t.(s := NewBlock(t.s, mem))
  }

  predicate BlockMemory(mem: Region) {
    mem.at % 8 == 0 && mem.at > 0 && mem.size > HEADER && mem.at + mem.size < U64
  }

  lemma OpenShape(s: Arena, mem: Region)
    requires Shape(s) && BlockMemory(mem)
    ensures Shape(NewBlock(s, mem))
  {
    SumOfEights(mem.at, HEADER);
  }

  lemma OpenCounted(t: Trace, mem: Region)
    requires Range(t.s) && Counted(t) && BlockMemory(mem)
    ensures Range(Open(t, mem).s) && Counted(Open(t, mem))
  {
    var x := t.overhead + t.direct + Retired(t.s.strings) - Bumped(t.s);
    ModPlus(x, Bumped(t.s));
  }

  lemma OpenPlaced(t: Trace, mem: Region)
    requires Placed(t) && BlockMemory(mem) && Unused(Space(t.s), mem)
    ensures Placed(Open(t, mem))
  {
    hide PlacedIn;
    var s' := Open(t, mem).s;
    assert Space(s') == multiset{mem} + Space(t.s);
    PlacedInNew(Space(t.s), t.objects, FreeBytes(t.s), FreeStrings(t.s), mem, FreeBytes(s'));
  }

  /** The next string block, from the head block when it has room and otherwise from the
      heap at `at`. */
  function NewStrings(t: Trace, at: nat): Trace
    requires NextSize(t.s.strings) >= MIN_STRINGS
  {
    var s := RetireStrings(t.s);
    t.(s := if Fits(s, NextSize(s.strings)) then EmplaceStrings(s) else HeapStrings(s, at))
  }

  /** The counter after retiring the exhausted string block. */
  lemma RetireUsed(t: Trace)
    requires Ready(t.s) && Counted(t)
    ensures RetireStrings(t.s).spaceUsed
         == (t.overhead + t.direct + TotalEffective(t.s.strings) - Bumped(t.s)) % U64
  {
    var e := if t.s.strings.Strings? then Effective(t.s.strings) else 0;
    ModPlus(t.overhead + t.direct + Retired(t.s.strings) - Bumped(t.s), e);
  }

  /** The counter after emplacing the next one as well. */
  lemma EmplaceUsed(t: Trace)
    requires Ready(t.s) && Counted(t)
    ensures EmplaceStrings(RetireStrings(t.s)).spaceUsed
         == (t.overhead + t.direct + TotalEffective(t.s.strings) - Bumped(t.s) - NextSize(t.s.strings)) % U64
  {
    RetireUsed(t);
    ModPlus(t.overhead + t.direct + TotalEffective(t.s.strings) - Bumped(t.s), -(NextSize(t.s.strings) as int));
  }

  lemma SizesOk(sb: Strings)
    requires SizesFine(sb)
    ensures MIN_STRINGS <= NextSize(sb) <= MAX_STRINGS && NextSize(sb) % 8 == 0
    ensures MIN_STRINGS <= SizeAfter(sb) <= MAX_STRINGS && SizeAfter(sb) % 8 == 0
  {
  }

  lemma EmplaceShape(s: Arena)
    requires Shape(s) && s.ptr + NextSize(s.strings) <= s.limit
    ensures Shape(EmplaceStrings(RetireStrings(s)))
  {
    SumOfEights(s.ptr, NextSize(s.strings));
    SizesOk(s.strings);
  }

  lemma EmplaceRange(s: Arena)
    requires Range(s) && s.ptr + NextSize(s.strings) <= s.limit
    ensures Range(EmplaceStrings(RetireStrings(s)))
  {
    SizesOk(s.strings);
  }

  lemma EmplaceCounted(t: Trace)
    requires Range(t.s) && Counted(t) && t.s.unused == 0
    requires t.s.ptr + NextSize(t.s.strings) <= t.s.limit
    ensures var s' := EmplaceStrings(RetireStrings(t.s)); Range(s') && Counted(t.(s := s'))
  {
    EmplaceUsed(t);
    EmplaceRange(t.s);
  }

  lemma HeapShape(s: Arena, at: nat)
    requires Shape(s) && at % 8 == 0 && at + Rounded(NextSize(s.strings)) < U64
    ensures Shape(HeapStrings(RetireStrings(s), at))
  {
    SizesOk(s.strings);
  }

  lemma HeapRange(s: Arena, at: nat)
    requires Range(s)
    ensures Range(HeapStrings(RetireStrings(s), at))
  {
    SizesOk(s.strings);
  }

  lemma HeapCounted(t: Trace, at: nat)
    requires Range(t.s) && Counted(t) && t.s.unused == 0
    ensures var s' := HeapStrings(RetireStrings(t.s), at); Range(s') && Counted(t.(s := s'))
  {
    RetireUsed(t);
    HeapRange(t.s, at);
  }

  /** One free area is cut in two, the other one is given up. */
  lemma PlacedSplit(space: multiset<Region>, objects: seq<Region>, free: Region, other: Region, rest: Region, part: Region)
    requires PlacedIn(space, objects, free, other)
    requires Within(part, free) && Within(rest, free) && Apart(part, rest)
    ensures PlacedIn(space, objects, rest, part)
  {
    forall i | 0 <= i < |objects| ensures Apart(objects[i], rest) && Apart(objects[i], part) {
      assert Apart(objects[i], free);
    }
    CoveredPart(space, space, free, rest);
    CoveredPart(space, space, free, part);
  }

  lemma EmplacePlaced(t: Trace)
    requires Shape(t.s) && Placed(t) && t.s.ptr + NextSize(t.s.strings) <= t.s.limit
    ensures Placed(t.(s := EmplaceStrings(RetireStrings(t.s))))
  {
    hide PlacedIn;
    var s, s' := t.s, EmplaceStrings(RetireStrings(t.s));
    assert Space(s') == Space(s);
    PlacedSplit(Space(s), t.objects, FreeBytes(s), FreeStrings(s), FreeBytes(s'), FreeStrings(s'));
  }

  lemma HeapPlaced(t: Trace, at: nat)
    requires Shape(t.s) && Placed(t)
    requires Unused(Space(t.s), Region(at, Rounded(NextSize(t.s.strings))))
    ensures Placed(t.(s := HeapStrings(RetireStrings(t.s), at)))
  {
    SizesOk(t.s.strings);
    hide PlacedIn, SizesFine, StringsOk, BlockOk, Unused;
    var s, s' := t.s, HeapStrings(RetireStrings(t.s), at);
    var mem := Region(at, Rounded(NextSize(s.strings)));
    assert Space(s') == multiset{mem} + Space(s);
    PlacedSwap(Space(s), t.objects, FreeBytes(s), FreeStrings(s));
    PlacedInNew(Space(s), t.objects, FreeStrings(s), FreeBytes(s), mem, FreeStrings(s'));
    PlacedSwap(Space(s'), t.objects, FreeStrings(s'), FreeBytes(s));
  }

  /** MaybeAllocateString: the last unused string of the newest block. */
  function PopString(t: Trace): Trace
    requires t.s.strings.Strings? && t.s.unused >= STRING
  {
    var left := t.s.unused - STRING;
    var string' := Region(t.s.strings.at + STRINGS_HEADER + left, STRING);
    Trace(t.s.(unused := left), t.objects + [string'], [string'] + t.handed, t.direct, t.overhead)
  }

  lemma PopCounted(t: Trace)
    requires Range(t.s) && Counted(t) && t.s.unused > 0
    ensures t.s.unused >= STRING && Range(PopString(t).s) && Counted(PopString(t))
  {
  }

  lemma PopShape(t: Trace)
    requires Shape(t.s) && t.s.unused > 0
    ensures t.s.unused >= STRING && Shape(PopString(t).s)
  {
  }

  lemma PopPlaced(t: Trace)
    requires Placed(t) && t.s.strings.Strings? && t.s.unused >= STRING
    ensures Placed(PopString(t))
  {
    hide PlacedIn;
    var t' := PopString(t);
    var obj, left := t'.objects[|t.objects|], FreeStrings(t'.s);
    PlacedSwap(Space(t.s), t.objects, FreeBytes(t.s), FreeStrings(t.s));
    PlacedTake(Space(t.s), t.objects, FreeStrings(t.s), FreeBytes(t.s), obj, left);
    PlacedSwap(Space(t.s), t'.objects, left, FreeBytes(t.s));
  }

  // ----- the calls -----

  /** Powers of two, as ArenaAlignAs demands. */
  ghost predicate PowerOfTwo(a: nat) {
    a == 1 || (a > 1 && a % 2 == 0 && PowerOfTwo(a / 2))
  }

  /** The least multiple of `a` from `p` on. */
  function CeilTo(p: nat, a: nat): nat
    requires a > 0
  {
    (p + a - 1) / a * a
  }

  /** AlignUpTo: what to reserve so that an aligned object fits. */
  function AlignUpTo(n: nat, a: nat): nat {
    if a <= 8 then Up8(n) else n + a - 8
  }

  lemma EightAndPowers(a: nat)
    requires PowerOfTwo(a)
    ensures a > 8 ==> a % 8 == 0
    ensures a <= 8 ==> a == 1 || a == 2 || a == 4 || a == 8
  {
    if a > 8 {
      assert PowerOfTwo(a / 2) && PowerOfTwo(a / 4) && PowerOfTwo(a / 8);
    }
  }

  lemma CeilBounds(p: nat, a: nat)
    requires a > 0
    ensures p <= CeilTo(p, a) < p + a && CeilTo(p, a) % a == 0
  {
    var q := (p + a - 1) / a;
    assert q * a + (p + a - 1) % a == p + a - 1;
    DivUnique(q * a, a, q, 0);
  }

  /** Multiples of a multiple of 8. */
  lemma EightDivides(q: nat, a: nat)
    requires a % 8 == 0
    ensures q * a % 8 == 0
  {
    var k := q * (a / 8);
    assert q * a == k * 8;
  }

  lemma CeilIsEights(p: nat, a: nat)
    requires a > 0 && a % 8 == 0
    ensures CeilTo(p, a) % 8 == 0
  {
    EightDivides((p + a - 1) / a, a);
  }

  /** From an 8-aligned address, aligning for any power of two stays 8-aligned and skips
      at most what AlignUpTo reserved on top of the object. */
  lemma CeilOfAligned(p: nat, a: nat, n: nat)
    requires p % 8 == 0 && PowerOfTwo(a)
    ensures a > 0 && CeilTo(p, a) % 8 == 0 && CeilTo(p, a) % a == 0
    ensures p <= CeilTo(p, a) && CeilTo(p, a) + n <= p + AlignUpTo(n, a)
  {
    hide PowerOfTwo, CeilTo;
    EightAndPowers(a);
    CeilBounds(p, a);
    if a > 8 {
      CeilIsEights(p, a);
      GapOfEights(p, CeilTo(p, a), a);
    } else {
      SmallCeil(p, a);
    }
  }

  lemma GapOfEights(p: nat, r: nat, a: nat)
    requires p % 8 == 0 && r % 8 == 0 && a % 8 == 0 && p <= r < p + a
    ensures r <= p + a - 8
  {
  }

  lemma SmallCeil(p: nat, a: nat)
    requires p % 8 == 0 && (a == 1 || a == 2 || a == 4 || a == 8)
    ensures CeilTo(p, a) == p
  {
  }

  /** Anywhere: an object of `n` bytes at the next multiple of `a` lies inside the Padded
      request exactly when the address is such a multiple or at least 8 past one. */
  lemma PaddedIff(p: nat, a: nat, n: nat)
    requires PowerOfTwo(a) && a > 8
    ensures CeilTo(p, a) + n <= p + AlignUpTo(n, a) <==> p % a == 0 || p % a >= 8
  {
    hide PowerOfTwo;
    CeilByRemainder(p, a);
  }

  lemma CeilByRemainder(p: nat, a: nat)
    requires a > 0
    ensures CeilTo(p, a) == if p % a == 0 then p else p + a - p % a
  {
    var q, r := p / a, p % a;
    assert p == q * a + r;
    if r == 0 {
      DivUnique(p + a - 1, a, q, a - 1);
    } else {
      assert p + a - 1 == (q + 1) * a + (r - 1);
      DivUnique(p + a - 1, a, q + 1, r - 1);
    }
  }

  type Align = a: nat | a > 0 witness 1

  datatype Op =
    | Bytes(n: nat)                    // SerialArena::AllocateAligned
    | Aligned(n: nat, align: Align)    // the memory part of AllocateAlignedWithCleanup
    | Over(n: nat, align: Align)       // Arena::AllocateAligned
    | String                           // AllocateFromStringBlock
    | Register(node: Node)             // AddCleanup

  predicate Allocates(op: Op) {
    op.Bytes? || op.Aligned? || op.Over?
  }

  /** Where the object of an allocation starts. Arena::AllocateAligned aligns the address
      it got only for alignments above 8. */
  function ObjectAt(s: Arena, op: Op): nat {
    if op.Aligned? || (op.Over? && op.align > 8) then CeilTo(s.ptr, op.align) else s.ptr
  }

  function ObjectSize(op: Op): nat
    requires Allocates(op)
  {
    if op.Aligned? then Up8(op.n) else op.n
  }

  /** What is asked of a new block, and for plain bytes what is taken from a block. */
  function Reserve(op: Op): nat
    requires Allocates(op)
  {
    match op
    case Bytes(n) => n
    case Aligned(n, align) => AlignUpTo(Up8(n), align)
    case Over(n, align) => AlignUpTo(n, align)
  }

  /** Where the bump pointer goes. */
  function NextPtr(s: Arena, op: Op): nat
    requires Allocates(op)
  {
    if op.Aligned? then ObjectAt(s, op) + ObjectSize(op) else s.ptr + Reserve(op)
  }

  /** What the source demands of its callers in every build: alignments that are powers of
      two, and requests that do not wrap around the address space. That sizes are multiples
      of 8 is only asserted in debug builds, and callers are known to violate it. */
  ghost predicate Callable(s: Arena, op: Op) {
    match op
    case Bytes(n) => s.ptr + n < U64
    case Aligned(n, align) => PowerOfTwo(align) && CeilTo(s.ptr, align) + Up8(n) < U64
    case Over(n, align) => PowerOfTwo(align) && s.ptr + AlignUpTo(n, align) < U64
    case String => s.ptr + MAX_STRINGS < U64
    case Register(_) => true
  }

  /** The request takes whole words. */
  predicate Whole(op: Op) {
    match op
    case Bytes(n) => n % 8 == 0
    case Over(n, align) => align <= 8 || n % 8 == 0
    case _ => true
  }

  /** Does the call need memory from the allocator? */
  predicate Grows(s: Arena, op: Op) {
    match op
    case String => s.unused == 0 && !Fits(s, NextSize(s.strings))
    case Register(_) => !(s.cleanup != [] && |s.cleanup[0].nodes| < Capacity(s.cleanup[0].mem.size))
    case _ => NextPtr(s, op) % U64 > s.limit
  }

  /** The retry on a new block finds room. If it does not, the call returns null. */
  predicate Served(s: Arena, op: Op, mem: Region) {
    Allocates(op) && Grows(s, op) ==> !Grows(NewBlock(s, mem), op)
  }

  datatype Policy = Policy(start: nat, max: nat)

  /** The allocator's answer to the call, when it needs one: unused memory of at least
      the size asked for, and for a block more than its header. */
  ghost predicate Grants(s: Arena, inUse: multiset<Region>, policy: Policy, op: Op, mem: Region) {
    Grows(s, op) ==>
      && Unused(inUse, mem) && mem.at % 8 == 0 && mem.at > 0 && mem.at + mem.size < U64
      && match op
         case String => mem.size == Rounded(if NextSize(s.strings) < MIN_STRINGS then MIN_STRINGS else NextSize(s.strings))
         case Register(_) => ChunkMemory(s.cleanup, mem)
         case _ => mem.size > HEADER && mem.size >= BlockRequest(s, policy.start, policy.max, Reserve(op))
  }

  /** An allocation in any state, in order or not. */
  function Allocated(t: Trace, op: Op, mem: Region): Trace
    requires Allocates(op)
  {
    var t1 := if Grows(t.s, op) then Open(t, mem) else t;
    if Grows(t1.s, op) then t1
    else
      var next := NextPtr(t1.s, op);
      Take(t1, if next < t1.s.ptr then t1.s.ptr else next, ObjectAt(t1.s, op), ObjectSize(op))
  }

  /** The state after the call; `mem` is what the allocator returns if it is asked. */
  function Step(t: Trace, op: Op, mem: Region): Trace
    requires Ready(t.s)
  {
    match op
    case String => PopString(if t.s.unused == 0 then NewStrings(t, mem.at) else t)
    case Register(node) =>
      var total := if Grows(t.s, op) then Plus(t.s.spaceAllocated, mem.size) else t.s.spaceAllocated;
      t.(s := t.s.(cleanup := Added(t.s.cleanup, node, mem), spaceAllocated := total))
    case _ => Allocated(t, op, mem)
  }

  ghost predicate Inv(t: Trace) {
    && Shape(t.s) && Counted(t) && Placed(t) && ListOk(t.s.cleanup)
    && PairwiseApart(Owned(t.s)) && HeldCounted(t.s)
  }

  /** An object fits into what is taken for it, and that into what is reserved for it,
      wherever an 8-aligned pointer stands. The pointer stays 8-aligned exactly when the
      request takes whole words. */
  lemma ReserveSuffices(s: Arena, op: Op)
    requires s.ptr % 8 == 0 && Allocates(op) && (op.Bytes? || PowerOfTwo(op.align))
    ensures s.ptr <= ObjectAt(s, op) && ObjectAt(s, op) % 8 == 0
    ensures ObjectAt(s, op) + ObjectSize(op) <= NextPtr(s, op) <= s.ptr + Reserve(op)
    ensures Reserve(op) % 8 == 0 <==> Whole(op)
    ensures NextPtr(s, op) % 8 == 0 <==> Whole(op)
  {
    hide PowerOfTwo;
    if !op.Bytes? {
      CeilOfAligned(s.ptr, op.align, ObjectSize(op));
      EightAndPowers(op.align);
      if op.align > 8 {
        PaddingIsEights(ObjectSize(op), op.align);
      }
    }
    if op.Aligned? {
      SumOfEights(ObjectAt(s, op), ObjectSize(op));
    } else {
      SameRemainder(s.ptr, Reserve(op));
    }
  }

  lemma PaddingIsEights(n: nat, a: nat)
    requires a % 8 == 0 && a > 8
    ensures (n + a - 8) % 8 == 0 <==> n % 8 == 0
  {
    var k := a / 8;
    assert n + a - 8 == n + 8 * (k - 1);
  }

  lemma SameRemainder(p: nat, n: nat)
    requires p % 8 == 0
    ensures (p + n) % 8 == 0 <==> n % 8 == 0
  {
  }

  lemma NewRange(s: Arena, mem: Region)
    requires Shape(s) && BlockMemory(mem)
    ensures var s' := NewBlock(s, mem);
            s'.ptr == mem.at + HEADER && s'.ptr % 8 == 0 && s'.limit % 8 == 0 && s'.limit < U64
            && s'.limit + 8 > mem.at + mem.size
  {
    SumOfEights(mem.at, HEADER);
    SumOfEights(mem.at, Down8(mem.size));
  }

  lemma EightsFit(p: nat, n: nat, end: nat, limit: nat)
    requires p % 8 == 0 && n % 8 == 0 && limit % 8 == 0 && p + n <= end < limit + 8
    ensures p + n <= limit
  {
  }

  lemma NoWrap(n: nat)
    requires n < U64
    ensures n % U64 == n
  {
  }

  /** After a new block the retry of a request of whole words finds room: it is not asked
      to grow again. */
  lemma RetrySucceeds(s: Arena, policy: Policy, op: Op, mem: Region)
    requires Shape(s) && Allocates(op) && Callable(s, op)
    requires BlockMemory(mem) && mem.size >= BlockRequest(s, policy.start, policy.max, Reserve(op))
    ensures var s' := NewBlock(s, mem);
            Whole(op) ==> !Grows(s', op) && s'.ptr <= ObjectAt(s', op) && NextPtr(s', op) <= s'.limit
  {
    var s' := NewBlock(s, mem);
    NewRange(s, mem);
    ReserveSuffices(s', op);
    if Whole(op) {
      EightsFit(s'.ptr, Reserve(op), mem.at + mem.size, s'.limit);
      NoWrap(NextPtr(s', op));
    }
  }

  /** Any request: the retry finds room exactly when the block does up to its limit, and in
      a block of just the size asked for exactly when the request takes whole words. */
  lemma RetryIff(s: Arena, policy: Policy, op: Op, mem: Region)
    requires Shape(s) && (op.Bytes? || op.Over?) && Callable(s, op)
    requires BlockMemory(mem) && mem.size >= BlockRequest(s, policy.start, policy.max, Reserve(op))
    ensures var fits := !Grows(NewBlock(s, mem), op);
            && (fits <==> HEADER + Reserve(op) <= Down8(mem.size))
            && (mem.size == HEADER + Reserve(op) ==> (fits <==> Whole(op)))
  {
    hide PowerOfTwo, BlockOk, StringsOk;
    var s' := NewBlock(s, mem);
    NewRange(s, mem);
    ReserveSuffices(s', op);
    NoWrap(NextPtr(s', op));
    if mem.size == HEADER + Reserve(op) {
      SameRemainder(HEADER, Reserve(op));
    }
  }

  /** What a call adds to the memory the arena owns. */
  function Obtained(s: Arena, op: Op, mem: Region): multiset<Region> {
    if Grows(s, op) then multiset{mem} else multiset{}
  }

  /** What a step keeps and changes: the arena stays in order and owns just the memory it
      has obtained on top. */
  ghost predicate StepKeeps(t: Trace, op: Op, mem: Region, t': Trace) {
    && Shape(t'.s) && Counted(t') && Placed(t') && ListOk(t'.s.cleanup)
    && Owned(t'.s) == Owned(t.s) + Obtained(t.s, op, mem)
    && t'.overhead == t.overhead
  }

  lemma UnusedPart(inUse: multiset<Region>, part: multiset<Region>, mem: Region)
    requires Unused(inUse, mem) && part <= inUse
    ensures Unused(part, mem)
  {
    forall o | o in part ensures Apart(o, mem) {
      assert o in inUse;
    }
  }

  lemma SpaceIsOwned(s: Arena, inUse: multiset<Region>, mem: Region)
    requires Owned(s) <= inUse && Unused(inUse, mem)
    ensures Unused(Space(s), mem)
  {
    UnusedPart(inUse, Owned(s), mem);
    UnusedPart(Owned(s), Space(s), mem);
  }

  lemma FitsTakes(t: Trace, op: Op)
    requires t.s.ptr % 8 == 0 && Allocates(op) && Callable(t.s, op) && Whole(op) && !Grows(t.s, op)
    ensures Takes(t, NextPtr(t.s, op), ObjectAt(t.s, op), ObjectSize(op))
  {
    hide PowerOfTwo;
    ReserveSuffices(t.s, op);
    NoWrap(NextPtr(t.s, op));
  }

  lemma BytesStepFits(t: Trace, op: Op, mem: Region)
    requires Inv(t) && Allocates(op) && Callable(t.s, op) && Whole(op) && !Grows(t.s, op)
    ensures StepKeeps(t, op, mem, Step(t, op, mem))
  {
    hide HeldCounted, Placed, Counted, PairwiseApart, BlockOk, StringsOk, Owned, PowerOfTwo, ListOk, NextPtr;
    var next, at, size := NextPtr(t.s, op), ObjectAt(t.s, op), ObjectSize(op);
    FitsTakes(t, op);
    TakeCounted(t, next, at, size);
    TakeShape(t, next, at, size);
    TakePlaced(t, next, at, size);
    TakeOwned(t, next, at, size);
  }

  lemma OpenOwned(s: Arena, mem: Region)
    ensures Owned(NewBlock(s, mem)) == Owned(s) + multiset{mem}
  {
  }

  lemma RetryTakes(t: Trace, policy: Policy, op: Op, mem: Region)
    requires Shape(t.s) && Allocates(op) && Callable(t.s, op) && Whole(op)
    requires BlockMemory(mem) && mem.size >= BlockRequest(t.s, policy.start, policy.max, Reserve(op))
    ensures var t1 := Open(t, mem);
            !Grows(t1.s, op) && Takes(t1, NextPtr(t1.s, op), ObjectAt(t1.s, op), ObjectSize(op))
  {
    hide PowerOfTwo, BlockOk, StringsOk;
    RetrySucceeds(t.s, policy, op, mem);
    NewRange(t.s, mem);
    ReserveSuffices(Open(t, mem).s, op);
  }

  lemma TakeOwned(t: Trace, next: nat, at: nat, size: nat)
    requires t.s.ptr <= next
    ensures Owned(Take(t, next, at, size).s) == Owned(t.s)
  {
  }

  /** The new block alone, with nothing taken from it yet. */
  lemma OpenKeeps(t: Trace, inUse: multiset<Region>, policy: Policy, op: Op, mem: Region)
    requires Inv(t) && Allocates(op) && Callable(t.s, op) && Owned(t.s) <= inUse
    requires Grows(t.s, op) && Grants(t.s, inUse, policy, op, mem)
    ensures BlockMemory(mem) && mem.size >= BlockRequest(t.s, policy.start, policy.max, Reserve(op))
    ensures StepKeeps(t, op, mem, Open(t, mem))
  {
    hide HeldCounted, Placed, Counted, PairwiseApart, BlockOk, StringsOk, Owned, Unused, PowerOfTwo, ListOk, NextPtr;
    SpaceIsOwned(t.s, inUse, mem);
    OpenCounted(t, mem);
    OpenShape(t.s, mem);
    OpenPlaced(t, mem);
    OpenOwned(t.s, mem);
  }

  lemma BytesStepGrows(t: Trace, inUse: multiset<Region>, policy: Policy, op: Op, mem: Region)
    requires Inv(t) && Allocates(op) && Callable(t.s, op) && Whole(op) && Owned(t.s) <= inUse
    requires Grows(t.s, op) && Grants(t.s, inUse, policy, op, mem)
    ensures StepKeeps(t, op, mem, Step(t, op, mem))
  {
    hide HeldCounted, Placed, Counted, PairwiseApart, BlockOk, StringsOk, Owned, Unused, PowerOfTwo, ListOk, NextPtr,
      Grants, Callable;
    OpenKeeps(t, inUse, policy, op, mem);
    RetryTakes(t, policy, op, mem);
    var t1 := Open(t, mem);
    var next, at, size := NextPtr(t1.s, op), ObjectAt(t1.s, op), ObjectSize(op);
    TakeCounted(t1, next, at, size);
    TakeShape(t1, next, at, size);
    TakeOwned(t1, next, at, size);
    TakePlaced(t1, next, at, size);
  }

  /** A served request that does not take whole words leaves the pointer unaligned. */
  lemma BrokenWord(t: Trace, policy: Policy, op: Op, mem: Region)
    requires Shape(t.s) && Allocates(op) && Callable(t.s, op) && !Whole(op) && Served(t.s, op, mem)
    requires Grows(t.s, op) ==> BlockMemory(mem)
    ensures !Shape(Step(t, op, mem).s)
  {
    hide BlockOk, StringsOk, PowerOfTwo;
    var t1 := if Grows(t.s, op) then Open(t, mem) else t;
    if Grows(t.s, op) {
      NewRange(t.s, mem);
    }
    ReserveSuffices(t1.s, op);
  }

  lemma StringStepPops(t: Trace, mem: Region)
    requires Inv(t) && t.s.unused > 0
    ensures t.s.unused >= STRING && StepKeeps(t, String, mem, Step(t, String, mem))
  {
    PopShape(t);
    PopCounted(t);
    PopPlaced(t);
  }

  lemma EmplaceRoom(s: Arena)
    requires Shape(s) && Callable(s, String) && s.unused == 0 && !Grows(s, String)
    ensures NextSize(s.strings) >= MIN_STRINGS && s.ptr + NextSize(s.strings) <= s.limit
    ensures Fits(RetireStrings(s), NextSize(s.strings))
  {
  }

  lemma EmplaceOwned(s: Arena)
    requires NextSize(s.strings) >= MIN_STRINGS
    ensures Owned(EmplaceStrings(RetireStrings(s))) == Owned(s)
  {
  }

  lemma StringStepEmplaces(t: Trace, mem: Region)
    requires Inv(t) && t.s.unused == 0 && Callable(t.s, String) && !Grows(t.s, String)
    ensures StepKeeps(t, String, mem, Step(t, String, mem))
  {
    hide HeldCounted, Placed, Counted, PairwiseApart, BlockOk, HeapBag, BlockBag;
    EmplaceRoom(t.s);
    EmplaceOwned(t.s);
    EmplaceCounted(t);
    EmplaceShape(t.s);
    EmplacePlaced(t);
    var t1 := NewStrings(t, mem.at);
    PopShape(t1);
    PopCounted(t1);
    PopPlaced(t1);
  }

  lemma HeapRoom(s: Arena, inUse: multiset<Region>, policy: Policy, mem: Region)
    requires Ready(s) && Grows(s, String) && Grants(s, inUse, policy, String, mem)
    ensures NextSize(s.strings) >= MIN_STRINGS && mem.size == Rounded(NextSize(s.strings))
    ensures !Fits(RetireStrings(s), NextSize(s.strings))
  {
  }

  lemma HeapOwned(s: Arena, mem: Region)
    requires NextSize(s.strings) >= MIN_STRINGS && mem.size == Rounded(NextSize(s.strings))
    ensures Owned(HeapStrings(RetireStrings(s), mem.at)) == Owned(s) + multiset{mem}
  {
    assert mem == Region(mem.at, mem.size);
  }

  lemma StringStepGrows(t: Trace, inUse: multiset<Region>, policy: Policy, mem: Region)
    requires Inv(t) && Owned(t.s) <= inUse
    requires Grows(t.s, String) && Grants(t.s, inUse, policy, String, mem)
    ensures StepKeeps(t, String, mem, Step(t, String, mem))
  {
    hide HeldCounted, Placed, Counted, PairwiseApart, BlockOk, HeapBag, BlockBag;
    HeapRoom(t.s, inUse, policy, mem);
    HeapOwned(t.s, mem);
    SpaceIsOwned(t.s, inUse, mem);
    assert mem == Region(mem.at, mem.size);
    HeapCounted(t, mem.at);
    HeapShape(t.s, mem.at);
    HeapPlaced(t, mem.at);
    var t1 := NewStrings(t, mem.at);
    PopShape(t1);
    PopCounted(t1);
    PopPlaced(t1);
  }

  lemma AddedMemory(list: seq<Filled>, node: Node, mem: Region)
    ensures multiset(Memory(Added(list, node, mem))) == multiset(Memory(list)) +
              if list != [] && |list[0].nodes| < Capacity(list[0].mem.size) then multiset{} else multiset{mem}
  {
    var r := Memory(Added(list, node, mem));
    if list != [] && |list[0].nodes| < Capacity(list[0].mem.size) {
      assert r == Memory(list);
    } else {
      assert r == [mem] + Memory(list);
    }
  }

  lemma RegisterFrame(t: Trace, node: Node, mem: Region)
    requires Shape(t.s) && Counted(t) && Placed(t)
    ensures var t' := Step(t, Register(node), mem); Counted(t') && Placed(t')
  {
    var t' := Step(t, Register(node), mem);
    assert Space(t'.s) == Space(t.s);
    assert FreeBytes(t'.s) == FreeBytes(t.s) && FreeStrings(t'.s) == FreeStrings(t.s);
  }

  lemma RegisterStep(t: Trace, inUse: multiset<Region>, policy: Policy, node: Node, mem: Region)
    requires Inv(t) && Grants(t.s, inUse, policy, Register(node), mem)
    ensures StepKeeps(t, Register(node), mem, Step(t, Register(node), mem))
  {
    hide HeldCounted, Placed, Counted, PairwiseApart, BlockOk, StringsOk, ListOk;
    RegisterFrame(t, node, mem);
    AddedMemory(t.s.cleanup, node, mem);
    StillListOk(t.s, inUse, policy, node, mem);
  }

  lemma StillListOk(s: Arena, inUse: multiset<Region>, policy: Policy, node: Node, mem: Region)
    requires ListOk(s.cleanup) && Grants(s, inUse, policy, Register(node), mem)
    ensures ListOk(Added(s.cleanup, node, mem))
  {
    if Grows(s, Register(node)) {
      AddedOk(s.cleanup, node, mem);
    }
  }

  /** The request takes whole words, or is refused with null. */
  predicate Orderly(s: Arena, op: Op, mem: Region) {
    Whole(op) || !Served(s, op, mem)
  }

  lemma OrderlyStep(t: Trace, inUse: multiset<Region>, policy: Policy, op: Op, mem: Region)
    requires Inv(t) && Callable(t.s, op) && Owned(t.s) <= inUse
    requires Grants(t.s, inUse, policy, op, mem) && Orderly(t.s, op, mem)
    ensures StepKeeps(t, op, mem, Step(t, op, mem))
  {
    hide Inv, Callable, Grants, StepKeeps, NextPtr;
    match op {
      case String =>
        if t.s.unused > 0 {
          StringStepPops(t, mem);
        } else if Grows(t.s, op) {
          StringStepGrows(t, inUse, policy, mem);
        } else {
          StringStepEmplaces(t, mem);
        }
      case Register(node) => RegisterStep(t, inUse, policy, node, mem);
      case _ =>
        if !Grows(t.s, op) {
          BytesStepFits(t, op, mem);
        } else if Whole(op) {
          BytesStepGrows(t, inUse, policy, op, mem);
        } else {
          OpenKeeps(t, inUse, policy, op, mem);
        }
    }
  }

  /** A call keeps the arena in order if and only if its request takes whole words or is
      refused: the live objects and strings are pairwise disjoint and inside blocks past
      their headers, the counters are exact, the pointer is aligned, and the arena owns one
      region more exactly when it asked the allocator. */
  lemma StepInv(t: Trace, inUse: multiset<Region>, policy: Policy, op: Op, mem: Region)
    requires Inv(t) && Callable(t.s, op) && Owned(t.s) <= inUse && Grants(t.s, inUse, policy, op, mem)
    ensures Inv(Step(t, op, mem)) <==> Orderly(t.s, op, mem)
    ensures Orderly(t.s, op, mem) ==> StepKeeps(t, op, mem, Step(t, op, mem))
  {
    hide Placed, Counted, ListOk, PairwiseApart, HeldCounted, Owned, BlockOk, StringsOk, Callable, NextPtr, Step;
    if Orderly(t.s, op, mem) {
      OrderlyStep(t, inUse, policy, op, mem);
      HeldAfterStep(t, inUse, policy, op, mem);
      if Grows(t.s, op) {
        UnusedPart(inUse, Owned(t.s), mem);
        ObtainKeepsApart(Owned(t.s), mem);
      } else {
        assert Owned(Step(t, op, mem).s) == Owned(t.s);
      }
    } else {
      if Grows(t.s, op) {
        OpenKeeps(t, inUse, policy, op, mem);
      }
      BrokenWord(t, policy, op, mem);
    }
  }

  /** Every object and every string starts at a multiple of 8, and an object asked for with
      an alignment at a multiple of that. */
  ghost predicate AllAligned(objects: seq<Region>) {
    forall i | 0 <= i < |objects| :: objects[i].at % 8 == 0
  }

  /** From an arena in order every call, of whole words or not, hands out an aligned object
      that has its full size. */
  lemma StepAligned(t: Trace, inUse: multiset<Region>, policy: Policy, op: Op, mem: Region)
    requires Inv(t) && AllAligned(t.objects) && Callable(t.s, op) && Owned(t.s) <= inUse
    requires Grants(t.s, inUse, policy, op, mem)
    ensures var objects := Step(t, op, mem).objects;
            && AllAligned(objects)
            && ((op.Aligned? || op.Over?) && ObjectSize(op) > 0 && Served(t.s, op, mem) ==>
                  |objects| == |t.objects| + 1 && objects[|t.objects|].size == ObjectSize(op)
                  && objects[|t.objects|].at % op.align == 0)
  {
    hide HeldCounted, Counted, Placed, PairwiseApart, ListOk, BlockOk, Owned, Callable, PowerOfTwo, Unused, NextPtr;
    if Allocates(op) {
      BytesStep(t, inUse, policy, op, mem);
    } else if op.String? {
      StringIsAligned(t, inUse, policy, mem);
    }
  }

  lemma NewStringsShape(t: Trace, inUse: multiset<Region>, policy: Policy, mem: Region)
    requires Shape(t.s) && t.s.unused == 0 && Callable(t.s, String) && Grants(t.s, inUse, policy, String, mem)
    ensures NextSize(t.s.strings) >= MIN_STRINGS && Shape(NewStrings(t, mem.at).s)
    ensures NewStrings(t, mem.at).objects == t.objects && NewStrings(t, mem.at).s.unused >= STRING
  {
    hide BlockOk, StringsOk, Unused;
    if Grows(t.s, String) {
      HeapRoom(t.s, inUse, policy, mem);
      HeapShape(t.s, mem.at);
    } else {
      EmplaceRoom(t.s);
      EmplaceShape(t.s);
    }
  }

  lemma StringIsAligned(t: Trace, inUse: multiset<Region>, policy: Policy, mem: Region)
    requires Shape(t.s) && Callable(t.s, String) && Grants(t.s, inUse, policy, String, mem)
    ensures var objects := Step(t, String, mem).objects;
            |objects| == |t.objects| + 1 && objects[..|t.objects|] == t.objects && objects[|t.objects|].at % 8 == 0
  {
    hide BlockOk, Unused, NewStrings;
    var t1 := t;
    if t.s.unused == 0 {
      NewStringsShape(t, inUse, policy, mem);
      t1 := NewStrings(t, mem.at);
    }
    StringAligned(t1.s.strings.at, t1.s.unused - STRING);
  }

  lemma StringAligned(at: nat, left: nat)
    requires at % 8 == 0 && left % STRING == 0
    ensures (at + STRINGS_HEADER + left) % 8 == 0
  {
    var k := left / STRING;
    assert left == 8 * (4 * k);
  }

  // ----- calls in any state, in order or not -----

  lemma NextIsAhead(s: Arena, op: Op)
    requires Allocates(op)
    ensures s.ptr <= NextPtr(s, op)
  {
    if op.Aligned? {
      CeilBounds(s.ptr, op.align);
    }
  }

  /** On a new block no request wraps. */
  lemma NewBlockHasNoWrap(s: Arena, policy: Policy, op: Op, mem: Region)
    requires Allocates(op) && (op.Bytes? || PowerOfTwo(op.align)) && BlockMemory(mem)
    requires mem.size >= BlockRequest(s, policy.start, policy.max, Reserve(op))
    ensures NextPtr(NewBlock(s, mem), op) < U64
  {
    hide PowerOfTwo;
    SumOfEights(mem.at, HEADER);
    ReserveSuffices(NewBlock(s, mem), op);
  }

  lemma CallableDoesNotWrap(s: Arena, op: Op)
    requires Allocates(op) && Callable(s, op)
    ensures NextPtr(s, op) < U64 && (op.Bytes? || PowerOfTwo(op.align))
  {
    hide PowerOfTwo;
  }

  lemma TakesNext(t: Trace, op: Op)
    requires Range(t.s) && Counted(t) && Allocates(op) && NextPtr(t.s, op) < U64 && !Grows(t.s, op)
    ensures t.s.ptr <= NextPtr(t.s, op)
    ensures var t' := Take(t, NextPtr(t.s, op), ObjectAt(t.s, op), ObjectSize(op)); Range(t'.s) && Counted(t')
  {
    hide Range, Counted, BlockOk, NextPtr, ObjectAt;
    NextIsAhead(t.s, op);
    NoWrap(NextPtr(t.s, op));
    TakeCounted(t, NextPtr(t.s, op), ObjectAt(t.s, op), ObjectSize(op));
  }

  lemma AllocatedCounted(t: Trace, inUse: multiset<Region>, policy: Policy, op: Op, mem: Region)
    requires Range(t.s) && Counted(t) && Allocates(op) && Callable(t.s, op) && Grants(t.s, inUse, policy, op, mem)
    ensures Range(Allocated(t, op, mem).s) && Counted(Allocated(t, op, mem))
  {
    hide Range, Counted, NextPtr, ObjectAt, Unused, Callable, PowerOfTwo;
    CallableDoesNotWrap(t.s, op);
    if Grows(t.s, op) {
      OpenCounted(t, mem);
      NewBlockHasNoWrap(t.s, policy, op, mem);
      if !Grows(Open(t, mem).s, op) {
        TakesNext(Open(t, mem), op);
      }
    } else {
      TakesNext(t, op);
    }
  }

  lemma StringCounted(t: Trace, inUse: multiset<Region>, policy: Policy, mem: Region)
    requires Range(t.s) && Counted(t) && Callable(t.s, String) && Grants(t.s, inUse, policy, String, mem)
    ensures Range(Step(t, String, mem).s) && Counted(Step(t, String, mem))
  {
    hide Counted, BlockOk, Unused;
    var t1 := t;
    if t.s.unused == 0 {
      SizesOk(t.s.strings);
      if Grows(t.s, String) {
        HeapCounted(t, mem.at);
      } else {
        NoWrap(t.s.ptr + NextSize(t.s.strings));
        EmplaceCounted(t);
      }
      t1 := NewStrings(t, mem.at);
    }
    PopCounted(t1);
  }

  /** Whatever sizes are asked for, the pointer stays within its block and the counters
      exact. */
  lemma StepCounted(t: Trace, inUse: multiset<Region>, policy: Policy, op: Op, mem: Region)
    requires Range(t.s) && Counted(t) && Callable(t.s, op) && Grants(t.s, inUse, policy, op, mem)
    ensures Range(Step(t, op, mem).s) && Counted(Step(t, op, mem))
  {
    hide BlockOk, NextPtr, ObjectAt, Unused, Callable;
    match op {
      case String => StringCounted(t, inUse, policy, mem);
      case Register(node) =>
      case _ => AllocatedCounted(t, inUse, policy, op, mem);
    }
  }

  lemma SameHoldings(s: Arena, s': Arena)
    requires s'.head == s.head && s'.strings == s.strings && s'.cleanup == s.cleanup
    ensures Owned(s') == Owned(s)
  {
  }

  lemma StringOwned(t: Trace, mem: Region)
    requires Ready(t.s) && (Grows(t.s, String) ==> mem.size == Rounded(NextSize(t.s.strings)))
    ensures Owned(Step(t, String, mem).s) == Owned(t.s) + Obtained(t.s, String, mem)
  {
    hide Owned;
    var t1 := if t.s.unused == 0 then NewStrings(t, mem.at) else t;
    SameHoldings(t1.s, PopString(t1).s);
    if t.s.unused == 0 {
      if Grows(t.s, String) {
        HeapOwned(t.s, mem);
      } else {
        EmplaceOwned(t.s);
      }
    }
  }

  lemma AllocatedOwned(t: Trace, op: Op, mem: Region)
    requires Allocates(op)
    ensures Owned(Allocated(t, op, mem).s) == Owned(t.s) + Obtained(t.s, op, mem)
  {
    hide NextPtr, ObjectAt, Owned;
    OpenOwned(t.s, mem);
    var t1 := if Grows(t.s, op) then Open(t, mem) else t;
    SameHoldings(t1.s, Allocated(t, op, mem).s);
  }

  /** What a call adds to the memory held. */
  lemma StepOwned(t: Trace, op: Op, mem: Region)
    requires Ready(t.s) && (op.String? && Grows(t.s, op) ==> mem.size == Rounded(NextSize(t.s.strings)))
    ensures Owned(Step(t, op, mem).s) == Owned(t.s) + Obtained(t.s, op, mem)
  {
    match op {
      case String => StringOwned(t, mem);
      case Register(node) => AddedMemory(t.s.cleanup, node, mem);
      case _ => AllocatedOwned(t, op, mem);
    }
  }

  // ----- the memory held -----

  function BlockBytes(b: Block): nat {
    if b.Block? then b.mem.size + BlockBytes(b.next) else 0
  }

  function HeapBytes(sb: Strings): nat {
    if sb.NoStrings? then 0 else (if sb.heap then sb.size else 0) + HeapBytes(sb.next)
  }

  function ChunkBytes(list: seq<Filled>): nat {
    if list == [] then 0 else list[0].mem.size + ChunkBytes(list[1..])
  }

  function HeldBytes(s: Arena): nat {
    BlockBytes(s.head) + HeapBytes(s.strings) + ChunkBytes(s.cleanup)
  }

  /** SpaceAllocated counts what the arena holds: blocks, heap string blocks and cleanup
      chunks, and not the string blocks inside its own blocks. */
  ghost predicate HeldCounted(s: Arena) {
    s.spaceAllocated == HeldBytes(s) % U64
  }

  lemma AddedBytes(list: seq<Filled>, node: Node, mem: Region)
    ensures ChunkBytes(Added(list, node, mem)) == ChunkBytes(list) +
              if list != [] && |list[0].nodes| < Capacity(list[0].mem.size) then 0 else mem.size
  {
    var r := Added(list, node, mem);
    assert list != [] && |list[0].nodes| < Capacity(list[0].mem.size) ==> r[1..] == list[1..];
    assert !(list != [] && |list[0].nodes| < Capacity(list[0].mem.size)) ==> r[1..] == list;
  }

  lemma StepHeld(t: Trace, op: Op, mem: Region)
    requires Ready(t.s) && HeldCounted(t.s)
    requires op.String? && Grows(t.s, op) ==> mem.size == Rounded(NextSize(t.s.strings))
    ensures HeldCounted(Step(t, op, mem).s)
    ensures HeldBytes(Step(t, op, mem).s) == HeldBytes(t.s) + if Grows(t.s, op) then mem.size else 0
  {
    hide BlockOk, StringsOk;
    ModPlus(HeldBytes(t.s), mem.size);
    if op.Register? {
      AddedBytes(t.s.cleanup, op.node, mem);
    }
  }

  lemma HeldAfterStep(t: Trace, inUse: multiset<Region>, policy: Policy, op: Op, mem: Region)
    requires Ready(t.s) && HeldCounted(t.s) && Grants(t.s, inUse, policy, op, mem)
    ensures HeldCounted(Step(t, op, mem).s)
  {
    hide HeldCounted, Step, BlockOk, Unused;
    if op.String? && Grows(t.s, op) {
      HeapRoom(t.s, inUse, policy, mem);
    }
    StepHeld(t, op, mem);
  }

  // ----- the arena object -----

  class SerialArena {
    var head: Block
    var ptr: nat
    var limit: nat
    var strings: Strings
    var unused: nat
    var spaceUsed: nat
    var spaceAllocated: nat
    var cleanup: seq<Filled>
    ghost var objects: seq<Region>
    ghost var handed: seq<Region>
    ghost var direct: nat
    ghost var overhead: nat

    function State(): Arena
      reads this
    {
      Arena(head, ptr, limit, strings, unused, spaceUsed, spaceAllocated, cleanup)
    }

    ghost function History(): Trace
      reads this
    {
      Trace(State(), objects, handed, direct, overhead)
    }

    ghost predicate Valid()
      reads this
    {
      Inv(History())
    }

    /** AllocateNewBlock. */
    method AllocateNewBlock(mem: Region)
      modifies this
      ensures History() == Open(old(History()), mem)
    {
      if head.Block? {
        var used := ptr as int - (head.mem.at + HEADER);
        spaceUsed := (spaceUsed + used) % U64;
      }
      spaceAllocated := (spaceAllocated + mem.size) % U64;
      head := Block(mem, head);
      ptr, limit := mem.at + HEADER, mem.at + Down8(mem.size);
    }

    /** MaybeAllocateAligned, and its retry after AllocateNewBlock: the address, or null when
        the retry fails. */
    method Bump(n: nat, mem: Region) returns (p: Option<nat>)
      modifies this
      ensures var t := old(History());
              var t1 := if Grows(t.s, Bytes(n)) then Open(t, mem) else t;
              && (p.Some? <==> !Grows(t1.s, Bytes(n)))
              && (p.Some? ==> p.value == t1.s.ptr)
              && History() == t1.(s := if p.Some? then t1.s.(ptr := t1.s.ptr + n) else t1.s)
    {
      if (ptr + n) % U64 > limit {
        AllocateNewBlock(mem);
        if (ptr + n) % U64 > limit {
          return None;
        }
      }
      p := Some(ptr);
      ptr := ptr + n;
    }

    /** SerialArena::AllocateAligned with its fallback. The arena stays in order exactly when
        the size is a multiple of 8 or null is returned. */
    method AllocateAligned(n: nat, mem: Region, ghost inUse: multiset<Region>, ghost policy: Policy)
      returns (p: Option<nat>)
      requires Valid() && Callable(State(), Bytes(n)) && Owned(State()) <= inUse
      requires Grants(State(), inUse, policy, Bytes(n), mem)
      modifies this
      ensures History() == Step(old(History()), Bytes(n), mem)
      ensures Valid() <==> n % 8 == 0 || p.None?
      ensures n % 8 == 0 ==> p.Some?
      ensures p.Some? ==> p.value % 8 == 0 && (n > 0 ==> objects == old(objects) + [Region(p.value, n)])
    {
      hide Inv, Owned, Grants, Callable, StepKeeps, Step;
      StepInv(History(), inUse, policy, Bytes(n), mem);
      BytesStep(History(), inUse, policy, Bytes(n), mem);
      p := Bump(n, mem);
      if p.Some? {
        direct := direct + n;
        objects := if n > 0 then objects + [Region(p.value, n)] else objects;
      }
    }

    /** Arena::AllocateAligned: a size rounded up for small alignments, and for larger ones
        an aligned address inside a padded request. */
    method AllocateWithAlignment(n: nat, align: Align, mem: Region, ghost inUse: multiset<Region>, ghost policy: Policy)
      returns (p: Option<nat>)
      requires Valid() && Callable(State(), Over(n, align)) && Owned(State()) <= inUse
      requires Grants(State(), inUse, policy, Over(n, align), mem)
      modifies this
      ensures History() == Step(old(History()), Over(n, align), mem)
      ensures Valid() <==> align <= 8 || n % 8 == 0 || p.None?
      ensures align <= 8 || n % 8 == 0 ==> p.Some?
      ensures p.Some? ==> p.value % align == 0 && (n > 0 ==> objects == old(objects) + [Region(p.value, n)])
    {
      hide Inv, Owned, Grants, Callable, StepKeeps, Step;
      StepInv(History(), inUse, policy, Over(n, align), mem);
      BytesStep(History(), inUse, policy, Over(n, align), mem);
      var size := if align <= 8 then Up8(n) else n + align - 8;
      p := Bump(size, mem);
      if p.Some? {
        if align > 8 {
          p := Some(CeilTo(p.value, align));
        }
        direct := direct + size;
        objects := if n > 0 then objects + [Region(p.value, n)] else objects;
      }
    }

    /** AddCleanup. */
    method AddCleanup(node: Node, mem: Region, ghost inUse: multiset<Region>, ghost policy: Policy)
      requires Valid() && Owned(State()) <= inUse && Grants(State(), inUse, policy, Register(node), mem)
      modifies this`cleanup, this`spaceAllocated
      ensures Valid() && History() == Step(old(History()), Register(node), mem)
      ensures Contents(cleanup) == old(Contents(cleanup)) + [node]
    {
      hide Inv, Owned, Grants, StepKeeps;
      StepInv(History(), inUse, policy, Register(node), mem);
      AddedContents(cleanup, node, mem);
      if !(cleanup != [] && |cleanup[0].nodes| < Capacity(cleanup[0].mem.size)) {
        spaceAllocated := (spaceAllocated + mem.size) % U64;
      }
      cleanup := Added(cleanup, node, mem);
    }

    /** The memory of AllocateAlignedWithCleanup, with the retry of its fallback. */
    method AllocateOverAligned(n: nat, align: Align, mem: Region, ghost inUse: multiset<Region>, ghost policy: Policy)
      returns (p: nat)
      requires Valid() && Callable(State(), Aligned(n, align)) && Owned(State()) <= inUse
      requires Grants(State(), inUse, policy, Aligned(n, align), mem)
      modifies this
      ensures Valid() && p % align == 0 && p % 8 == 0 && cleanup == old(cleanup)
      ensures History() == Step(old(History()), Aligned(n, align), mem)
      ensures n > 0 ==> objects == old(objects) + [Region(p, Up8(n))]
    {
      hide Inv, Owned, Grants, Callable, StepKeeps, Step;
      StepInv(History(), inUse, policy, Aligned(n, align), mem);
      BytesStep(History(), inUse, policy, Aligned(n, align), mem);
      var size := Up8(n);
      p := CeilTo(ptr, align);
      if (p + size) % U64 > limit {
        AllocateNewBlock(mem);
        p := CeilTo(ptr, align);
      }
      CeilBounds(ptr, align);
      direct := direct + (p + size - ptr);
      ptr := p + size;
      objects := if size > 0 then objects + [Region(p, size)] else objects;
    }

    /** AllocateAlignedWithCleanup: an aligned object, registered for destruction. `chunk`
        is what the allocator returns if the list needs a chunk. */
    method AllocateAlignedWithCleanup(n: nat, align: Align, destructor: nat, mem: Region, chunk: Region,
                                      ghost inUse: multiset<Region>, ghost policy: Policy) returns (p: nat)
      requires Valid() && Callable(State(), Aligned(n, align)) && Owned(State()) <= inUse
      requires Grants(State(), inUse, policy, Aligned(n, align), mem)
      requires Grants(State(), inUse + multiset{mem}, policy, Register(Node(0, destructor)), chunk)
      modifies this
      ensures Valid() && p % align == 0 && p % 8 == 0
      ensures n > 0 ==> objects == old(objects) + [Region(p, Up8(n))]
      ensures Contents(cleanup) == old(Contents(cleanup)) + [Node(p, destructor)]
    {
      hide Inv, Owned, Grants, Callable, StepKeeps, Step, Contents;
      ghost var was, more := History(), inUse + multiset{mem};
      StillOwned(was, inUse, policy, Aligned(n, align), mem);
      p := AllocateOverAligned(n, align, mem, inUse, policy);
      StillGranted(was.s, State(), more, policy, destructor, p, chunk);
      AddCleanup(Node(p, destructor), chunk, more, policy);
    }

    /** The part of AllocateFromStringBlockFallback that provides the next string block. */
    method NewStringBlock(at: nat)
      requires NextSize(strings) >= MIN_STRINGS && (strings.Strings? ==> strings.size >= STRINGS_HEADER)
      modifies this
      ensures History() == NewStrings(old(History()), at)
    {
      if strings.Strings? {
        spaceUsed := (spaceUsed + (strings.size - STRINGS_HEADER)) % U64;
      }
      var size, after := NextSize(strings), SizeAfter(strings);
      if (ptr + size) % U64 <= limit {
        strings := Strings(ptr, Rounded(size), after, false, strings);
        ptr := ptr + size;
        spaceUsed := (spaceUsed + -(size as int)) % U64;
      } else {
        strings := Strings(at, Rounded(size), after, true, strings);
        spaceAllocated := (spaceAllocated + Rounded(size)) % U64;
      }
      unused := Rounded(size) - STRINGS_HEADER;
    }

    /** AllocateFromStringBlock with its fallback. */
    method AllocateFromStringBlock(mem: Region, ghost inUse: multiset<Region>, ghost policy: Policy) returns (p: nat)
      requires Valid() && Callable(State(), String) && Owned(State()) <= inUse
      requires Grants(State(), inUse, policy, String, mem)
      modifies this
      ensures Valid() && History() == Step(old(History()), String, mem)
      ensures objects == old(objects) + [Region(p, STRING)]
    {
      hide Inv, Owned, Grants, Callable, StepKeeps, NewStrings;
      StepInv(History(), inUse, policy, String, mem);
      StringsReady(History(), mem.at);
      if unused == 0 {
        NewStringBlock(mem.at);
      }
      unused := unused - STRING;
      p := strings.at + STRINGS_HEADER + unused;
      objects, handed := objects + [Region(p, STRING)], [Region(p, STRING)] + handed;
    }
  }

  lemma StringsReady(t: Trace, at: nat)
    requires Inv(t)
    ensures NextSize(t.s.strings) >= MIN_STRINGS && (t.s.strings.Strings? ==> t.s.strings.size >= STRINGS_HEADER)
    ensures t.s.unused > 0 ==> t.s.strings.Strings? && t.s.unused >= STRING
    ensures NewStrings(t, at).s.strings.Strings? && NewStrings(t, at).s.unused >= STRING
    ensures NewStrings(t, at).objects == t.objects
  {
  }

  lemma StillOwned(t: Trace, inUse: multiset<Region>, policy: Policy, op: Op, mem: Region)
    requires Inv(t) && Callable(t.s, op) && Owned(t.s) <= inUse && Grants(t.s, inUse, policy, op, mem) && Whole(op)
    ensures Owned(Step(t, op, mem).s) <= inUse + multiset{mem}
  {
    hide Inv, Callable, Owned, Grants, Step, Shape, Counted, Placed, ListOk, Grows, Served;
    StepInv(t, inUse, policy, op, mem);
  }

  /** Whether a registration needs a chunk depends on the cleanup list alone. */
  lemma StillGranted(s: Arena, s': Arena, inUse: multiset<Region>, policy: Policy, destructor: nat, p: nat, chunk: Region)
    requires s'.cleanup == s.cleanup && Grants(s, inUse, policy, Register(Node(0, destructor)), chunk)
    ensures Grants(s', inUse, policy, Register(Node(p, destructor)), chunk)
  {
  }

  /** An allocation takes its bytes from the current block, or from the new one, or gets
      nothing. */
  lemma BytesStep(t: Trace, inUse: multiset<Region>, policy: Policy, op: Op, mem: Region)
    requires Inv(t) && Allocates(op) && Callable(t.s, op) && Owned(t.s) <= inUse
    requires Grants(t.s, inUse, policy, op, mem)
    ensures var t1 := if Grows(t.s, op) then Open(t, mem) else t;
            var at := ObjectAt(t1.s, op);
            && (Served(t.s, op, mem) <==> !Grows(t1.s, op))
            && (Whole(op) ==> Served(t.s, op, mem))
            && t1.s.ptr <= at && at % 8 == 0 && at + ObjectSize(op) <= NextPtr(t1.s, op)
            && (op.Aligned? || op.Over? ==> at % op.align == 0)
            && Step(t, op, mem) ==
                 if Served(t.s, op, mem) then Take(t1, NextPtr(t1.s, op), at, ObjectSize(op)) else t1
  {
    hide HeldCounted, Counted, Placed, PairwiseApart, ListOk, BlockOk, StringsOk, Owned, PowerOfTwo, Unused;
    var t1 := if Grows(t.s, op) then Open(t, mem) else t;
    if Grows(t.s, op) {
      OpenKeeps(t, inUse, policy, op, mem);
      RetrySucceeds(t.s, policy, op, mem);
      NewRange(t.s, mem);
    }
    ReserveSuffices(t1.s, op);
    if !op.Bytes? {
      ObjectHasAlignment(t1.s, op);
    }
  }

  lemma ObjectHasAlignment(s: Arena, op: Op)
    requires s.ptr % 8 == 0 && (op.Aligned? || op.Over?) && PowerOfTwo(op.align)
    ensures ObjectAt(s, op) % op.align == 0
  {
    EightAndPowers(op.align);
    CeilBounds(s.ptr, op.align);
  }
}
