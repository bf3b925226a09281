/** A whole arena: the first serial arena, those of the other threads, the memory they hold,
    Reset and the destructor. */
module ThreadSafeArena {
  import opened Common
  import opened ArenaMemory
  import opened CleanupList
  import opened SerialArena

  const POLICY_SIZE: nat := 32   // kAllocPolicySize
  const SENTRY_AT: nat := 8      // the 8-aligned address of the static sentry block

  /** `user` is the caller's initial block when the arena uses it; `policy` says that a
      custom allocation policy is stored at the start of the first block. The heap is what
      was obtained from the allocator and not given back. */
  datatype World = World(heap: Heap, first: Trace, others: seq<Trace>, user: Option<Region>, policy: bool)

  // ----- giving a serial arena's memory back -----

  /** The last block of the list: the one the arena was created with. */
  function End(b: Block): Block {
    if b.Block? && b.next != Null then End(b.next) else b
  }

  /** The blocks in front of it, in the order Free gives them back. */
  function Walked(b: Block): seq<Region> {
    if b.Block? && b.next != Null then [b.mem] + Walked(b.next) else []
  }

  function EndBag(b: Block): multiset<Region> {
    if End(b).Block? then multiset{End(b).mem} else multiset{}
  }

  /** The string blocks on the heap, in the order they are deleted. */
  function HeapList(sb: Strings): seq<Region> {
    if sb.NoStrings? then []
    else if sb.heap then [Region(sb.at, sb.size)] + HeapList(sb.next)
    else HeapList(sb.next)
  }

  lemma {:induction false} WalkedBag(b: Block)
    requires BlockOk(b)
    ensures BlockBag(b) == multiset(Walked(b)) + EndBag(b)
  {
    if b.Block? && b.next != Null {
      WalkedBag(b.next);
    }
  }

  lemma {:induction false} HeapListBag(sb: Strings)
    ensures HeapBag(sb) == multiset(HeapList(sb))
  {
    if sb.Strings? {
      HeapListBag(sb.next);
    }
  }

  /** The addresses of the strings destroyed with their blocks: in the newest block those
      from the first used one on, in older ones all. */
  function Slots(base: nat, from: nat, end: nat): seq<Region>
    decreases end - from
  {
    if from >= end then [] else [Region(base + from, STRING)] + Slots(base, from + STRING, end)
  }

  function StringOrder(sb: Strings, unused: nat): seq<Region> {
    if sb.NoStrings? then []
    else Slots(sb.at + STRINGS_HEADER, unused, if sb.size < STRINGS_HEADER then 0 else sb.size - STRINGS_HEADER)
         + StringOrder(sb.next, 0)
  }

  /** Strings are destroyed in exactly the reverse of the order they were handed out: each
      call puts its string in front, every other call leaves the order alone. */
  lemma StepStringOrder(t: Trace, op: Op, mem: Region)
    requires Ready(t.s)
    ensures var t' := Step(t, op, mem);
            StringOrder(t'.s.strings, t'.s.unused) ==
              if op.String? then [t'.objects[|t.objects|]] + StringOrder(t.s.strings, t.s.unused)
              else StringOrder(t.s.strings, t.s.unused)
  {
    hide BlockOk;
    if op.String? {
      if t.s.unused == 0 {
        FreshStrings(t, mem.at);
        PopOrder(NewStrings(t, mem.at));
      } else {
        PopOrder(t);
      }
    }
  }

  /** What teardown will destroy is what was handed out. */
  ghost predicate HandedOk(t: Trace) {
    StringOrder(t.s.strings, t.s.unused) == t.handed
  }

  lemma StepHanded(t: Trace, op: Op, mem: Region)
    requires Ready(t.s) && HandedOk(t)
    ensures var t' := Step(t, op, mem);
            && HandedOk(t')
            && t'.handed == if op.String? then [t'.objects[|t.objects|]] + t.handed else t.handed
  {
    hide BlockOk, StringOrder;
    StepStringOrder(t, op, mem);
    if op.String? && t.s.unused == 0 {
      FreshStrings(t, mem.at);
    }
  }

  lemma FreshStrings(t: Trace, at: nat)
    requires Ready(t.s) && t.s.unused == 0
    ensures var t1 := NewStrings(t, at);
            && t1.objects == t.objects && t1.handed == t.handed && t1.s.strings.Strings? && t1.s.unused >= STRING
            && t1.s.unused + STRINGS_HEADER <= t1.s.strings.size
            && StringOrder(t1.s.strings, t1.s.unused) == StringOrder(t.s.strings, 0)
  {
    hide BlockOk;
  }

  lemma PopOrder(t: Trace)
    requires t.s.strings.Strings? && STRING <= t.s.unused <= t.s.strings.size - STRINGS_HEADER
    ensures var t' := PopString(t);
            StringOrder(t'.s.strings, t'.s.unused) == [t'.objects[|t.objects|]] + StringOrder(t.s.strings, t.s.unused)
  {
    var sb := t.s.strings;
    assert Slots(sb.at + STRINGS_HEADER, t.s.unused - STRING, sb.size - STRINGS_HEADER)
        == [Region(sb.at + STRINGS_HEADER + (t.s.unused - STRING), STRING)]
           + Slots(sb.at + STRINGS_HEADER, t.s.unused, sb.size - STRINGS_HEADER);
  }

  /** FreeStringBlocks: destroys the strings of each block, then deletes the block if it
      is on the heap. */
  method FreeStringBlocks(heap: Heap, strings: Strings, unused: nat) returns (after: Heap, destroyed: seq<Region>)
    requires ReleaseAll(heap, HeapList(strings)).Heap?
    ensures after == ReleaseAll(heap, HeapList(strings))
    ensures destroyed == StringOrder(strings, unused)
  {
    hide Slots;
    after, destroyed := heap, [];
    var sb, from := strings, unused;
    ghost var end, order := ReleaseAll(heap, HeapList(strings)), StringOrder(strings, unused);
    while sb.Strings?
      invariant ReleaseAll(after, HeapList(sb)) == end
      invariant destroyed + StringOrder(sb, from) == order
      decreases sb
    {
      var base, limit := sb.at + STRINGS_HEADER, if sb.size < STRINGS_HEADER then 0 else sb.size - STRINGS_HEADER;
      var run := DestroyStrings(base, from, limit);
      SeqAssoc(destroyed, run, StringOrder(sb.next, 0));
      destroyed := destroyed + run;
      if sb.heap {
        FaultStays(HeapList(sb.next));
        assert after.Heap? && Region(sb.at, sb.size) in after.live;
        after := Release(after, Region(sb.at, sb.size));
      }
      sb, from := sb.next, 0;
    }
  }

  method DestroyStrings(base: nat, first: nat, limit: nat) returns (destroyed: seq<Region>)
    ensures destroyed == Slots(base, first, limit)
  {
    destroyed := [];
    var from := first;
    while from < limit
      invariant destroyed + Slots(base, from, limit) == Slots(base, first, limit)
      decreases limit - from
    {
      SeqAssoc(destroyed, [Region(base + from, STRING)], Slots(base, from + STRING, limit));
      destroyed := destroyed + [Region(base + from, STRING)];
      from := from + STRING;
    }
  }

  /** SerialArena::Free past its strings: gives back every block but the last, advancing
      before it deletes. No header is read once its block is gone; the last block is still
      there at the end, live or `spared` (the caller's). */
  method FreeBlocks(heap: Heap, head: Block, ghost spared: multiset<Region>) returns (after: Heap, last: Block)
    requires BlockOk(head) && Readable(ReleaseAll(heap, Walked(head)), End(head), spared)
    ensures after == ReleaseAll(heap, Walked(head)) && last == End(head)
  {
    var b := head;
    var mem := b;
    after := heap;
    ghost var end := ReleaseAll(heap, Walked(head));
    ReadableFront(after, b, spared);
    while b.Block? && b.next != Null
      invariant BlockOk(b) && mem == b && Readable(after, b, spared)
      invariant ReleaseAll(after, Walked(b)) == end && End(b) == End(head)
      decreases b
    {
      FaultStays(Walked(b.next));
      b := b.next;
      after := Release(after, mem.mem);
      mem := b;
      ReadableFront(after, b, spared);
    }
    last := mem;
  }

  /** The header of `b` may be read: it is the sentry, in live memory, or the caller's. */
  ghost predicate Readable(heap: Heap, b: Block, spared: multiset<Region>) {
    heap.Heap? && (b.Block? ==> b.mem in heap.live + spared)
  }

  lemma ReadableFront(heap: Heap, b: Block, spared: multiset<Region>)
    requires BlockOk(b) && Readable(ReleaseAll(heap, Walked(b)), End(b), spared)
    ensures Readable(heap, b, spared)
  {
    if b.Block? && b.next != Null {
      FaultStays(Walked(b.next));
    }
  }

  // ----- the world -----

  function OwnedAll(ts: seq<Trace>): multiset<Region> {
    if ts == [] then multiset{} else Owned(ts[|ts| - 1].s) + OwnedAll(ts[..|ts| - 1])
  }

  /** All memory the arena holds, the caller's block included. */
  function Held(w: World): multiset<Region> {
    Owned(w.first.s) + OwnedAll(w.others)
  }

  function UserBag(w: World): multiset<Region> {
    if w.user.Some? then multiset{w.user.value} else multiset{}
  }

  /** Memory the allocator must not hand out again. */
  function InUse(w: World): multiset<Region> {
    if w.heap.Heap? then w.heap.live + UserBag(w) else UserBag(w)
  }

  /** What teardown relies on in one serial arena, whatever sizes were asked of it. */
  ghost predicate Sound(t: Trace) {
    Range(t.s) && Counted(t) && HandedOk(t) && HeldCounted(t.s)
  }

  /** A serial arena of another thread lives in its own first block. */
  ghost predicate OtherSound(t: Trace) {
    Sound(t) && End(t.s.head).Block? && t.overhead == SERIAL_SIZE
  }

  /** The first serial arena starts in the caller's block, in a block obtained to hold the
      policy, or on the sentry. */
  ghost predicate FirstSound(w: World) {
    && Sound(w.first)
    && w.first.overhead == (if w.policy then POLICY_SIZE else 0)
    && (w.user.Some? ==> End(w.first.s.head) == Block(w.user.value, Null))
    && (w.user.None? && !w.policy ==> End(w.first.s.head) == Sentry)
    && (w.policy ==> End(w.first.s.head).Block? && End(w.first.s.head).mem.size >= HEADER + POLICY_SIZE)
  }

  /** The arena holds exactly the memory that is live, each piece once, and the caller's
      block. */
  ghost predicate HeldInv(w: World) {
    && FirstSound(w) && (forall i | 0 <= i < |w.others| :: OtherSound(w.others[i]))
    && w.heap.Heap? && Held(w) == InUse(w) && PairwiseApart(InUse(w))
  }

  /** Moreover every serial arena is in order. */
  ghost predicate WorldInv(w: World) {
    HeldInv(w) && Inv(w.first) && forall i | 0 <= i < |w.others| :: Inv(w.others[i])
  }

  // ----- creation -----

  function FreshArena(mem: Region, offset: nat): Trace {
    Trace(Arena(Block(mem, Null), mem.at + HEADER + offset, mem.at + Down8(mem.size), NoStrings, 0, 0, mem.size, []),
          [], [], 0, offset)
  }

  function SentryArena(): Trace {
    Trace(Arena(Sentry, SENTRY_AT, SENTRY_AT, NoStrings, 0, 0, 0, []), [], [], 0, 0)
  }

  lemma FreshArenaInv(mem: Region, offset: nat)
    requires BlockMemory(mem) && HEADER + offset <= mem.size && offset % 8 == 0
    ensures Inv(FreshArena(mem, offset)) && Owned(FreshArena(mem, offset).s) == multiset{mem}
    ensures HeldCounted(FreshArena(mem, offset).s) && Sound(FreshArena(mem, offset))
  {
    var t := FreshArena(mem, offset);
    assert BlockBag(Null) == multiset{} && BlockBytes(Null) == 0;
    assert BlockBag(t.s.head) == multiset{mem} && BlockBytes(t.s.head) == mem.size;
    assert HeapBag(NoStrings) == multiset{} && ChunkBytes([]) == 0;
    SumOfEights(mem.at, HEADER + offset);
    SumOfEights(mem.at, Down8(mem.size));
    EightsFit(mem.at, HEADER + offset, mem.at + mem.size, mem.at + Down8(mem.size));
    assert Memory([]) == [];
    assert mem in Space(t.s);
    assert Within(FreeBytes(t.s), mem);
    NoWrap(mem.size);
  }

  lemma SentryShape()
    ensures Shape(SentryArena().s) && Counted(SentryArena())
  {
    hide BlockBag, HeapBag;
    assert BlockOk(Sentry) && StringsOk(NoStrings) && TotalEffective(NoStrings) == 0;
  }

  lemma SentryPlaced()
    ensures Placed(SentryArena())
  {
    var s := SentryArena().s;
    assert FreeBytes(s) == Region(SENTRY_AT, 0) && FreeStrings(s) == Region(0, 0);
  }

  lemma SentryOwned()
    ensures Owned(SentryArena().s) == multiset{} && HeldCounted(SentryArena().s) && ListOk(SentryArena().s.cleanup)
  {
    assert Memory([]) == [] && ChunkBytes([]) == 0;
    assert BlockBag(Sentry) == multiset{} && HeapBag(NoStrings) == multiset{};
    assert BlockBytes(Sentry) == 0 && HeapBytes(NoStrings) == 0;
  }

  lemma ShapeHasRange(s: Arena)
    requires Shape(s)
    ensures Range(s)
  {
  }

  lemma SentrySound()
    ensures Sound(SentryArena())
  {
    hide Shape, Counted, HeldCounted, Owned, ListOk;
    SentryShape();
    SentryOwned();
    ShapeHasRange(SentryArena().s);
    assert StringOrder(NoStrings, 0) == [];
  }

  lemma SentryArenaInv()
    ensures Inv(SentryArena()) && Owned(SentryArena().s) == multiset{} && HeldCounted(SentryArena().s)
    ensures Sound(SentryArena())
  {
    SentrySound();
    hide Shape, Counted, Placed, Owned, HeldCounted, ListOk, PairwiseApart, SentryArena, Sound;
    SentryShape();
    SentryPlaced();
    SentryOwned();
    NothingApart();
  }

  lemma NothingApart()
    ensures PairwiseApart(multiset{})
  {
  }

  /** The constructors: `given` is the caller's buffer, `custom` a non-default policy, and
      `mem` what the allocator returns when the policy needs a block of its own. */
  function Create(given: Option<Region>, custom: bool, mem: Region): World {
    var fits := given.Some? && (if custom then given.value.size >= HEADER + POLICY_SIZE else given.value.size > HEADER);
    if fits then World(Heap(multiset{}), FreshArena(given.value, if custom then POLICY_SIZE else 0), [], given, custom)
    else if custom then World(Heap(multiset{mem}), FreshArena(mem, POLICY_SIZE), [], None, true)
    else World(Heap(multiset{}), SentryArena(), [], None, false)
  }

  lemma CreatedInBlock(mem: Region, users: bool, custom: bool)
    requires BlockMemory(mem) && (users || custom) && (custom ==> mem.size >= HEADER + POLICY_SIZE)
    ensures var offset := if custom then POLICY_SIZE else 0;
            WorldInv(World(Heap(if users then multiset{} else multiset{mem}), FreshArena(mem, offset), [],
                           if users then Some(mem) else None, custom))
  {
    hide Inv, Owned, HeldCounted, PairwiseApart, Sound;
    FreshArenaInv(mem, if custom then POLICY_SIZE else 0);
    assert End(Block(mem, Null)) == Block(mem, Null);
    SingleApart(mem);
    var w := World(Heap(if users then multiset{} else multiset{mem}),
                   FreshArena(mem, if custom then POLICY_SIZE else 0), [], if users then Some(mem) else None, custom);
    assert InUse(w) == multiset{mem} && Held(w) == multiset{mem};
  }

  lemma SingleApart(mem: Region)
    requires mem.size > 0
    ensures PairwiseApart(multiset{mem})
  {
  }

  lemma CreatedOnSentry()
    ensures WorldInv(World(Heap(multiset{}), SentryArena(), [], None, false))
  {
    hide Inv, Owned, HeldCounted, Sound;
    SentryArenaInv();
  }

  lemma CreateInv(given: Option<Region>, custom: bool, mem: Region)
    requires given.Some? && given.value.size > HEADER ==> BlockMemory(given.value)
    requires BlockMemory(mem) && mem.size >= HEADER + POLICY_SIZE
    ensures WorldInv(Create(given, custom, mem))
  {
    hide WorldInv, FreshArena;
    if given.Some? && (if custom then given.value.size >= HEADER + POLICY_SIZE else given.value.size > HEADER) {
      CreatedInBlock(given.value, true, custom);
    } else if custom {
      CreatedInBlock(mem, false, true);
    } else {
      CreatedOnSentry();
    }
  }

  /** An arena whose only memory is `block`: 16 bytes of it are the block's header, 32 more
      the policy if there is one, and the whole words after these are free. */
  ghost predicate StartsIn(w: World, block: Region, custom: bool) {
    var skip := if custom then 48 else 16;
    && w.others == [] && w.policy == custom && w.first.s.head == Block(block, Null) && Held(w) == multiset{block}
    && FreeBytes(w.first.s) == Region(block.at + skip, if Down8(block.size) < skip then 0 else Down8(block.size) - skip)
  }

  /** Which memory a new arena starts on. A caller's buffer is used exactly when it is
      larger than the header, and under a policy when it has room for the header and the
      policy: it is then the only block, and counts as held. Otherwise the arena starts on
      the block allocated for the policy, or on nothing at all. */
  lemma CreateUsesBuffer(given: Option<Region>, custom: bool, mem: Region)
    requires given.Some? && given.value.size > HEADER ==> BlockMemory(given.value)
    requires BlockMemory(mem) && mem.size >= HEADER + POLICY_SIZE
    ensures var w, taken := Create(given, custom, mem), given.Some? && given.value.size >= if custom then 48 else 17;
            && (taken ==> StartsIn(w, given.value, custom) && w.user == given && w.heap == Heap(multiset{}))
            && (!taken && custom ==> StartsIn(w, mem, true) && w.user == None && w.heap == Heap(multiset{mem}))
            && (!taken && !custom ==> w == World(Heap(multiset{}), SentryArena(), [], None, false) && Held(w) == multiset{})
  {
    hide Held, StartsIn, FreshArena, SentryArena, BlockMemory;
    if given.Some? && given.value.size >= if custom then 48 else 17 {
      assert BlockMemory(given.value);
      StartsOn(given.value, custom, given, Heap(multiset{}));
    } else if custom {
      StartsOn(mem, true, None, Heap(multiset{mem}));
    } else {
      StartsOnNothing();
    }
  }

  lemma StartsOn(mem: Region, custom: bool, user: Option<Region>, heap: Heap)
    requires BlockMemory(mem) && mem.size >= if custom then 48 else 17
    ensures StartsIn(World(heap, FreshArena(mem, if custom then POLICY_SIZE else 0), [], user, custom), mem, custom)
  {
    hide Inv, Owned, HeldCounted, Sound;
    FreshArenaInv(mem, if custom then POLICY_SIZE else 0);
  }

  lemma StartsOnNothing()
    ensures Held(World(Heap(multiset{}), SentryArena(), [], None, false)) == multiset{}
  {
    hide Inv, Owned, HeldCounted, Sound;
    SentryArenaInv();
  }

  // ----- calls on one serial arena -----

  function ArenaOf(w: World, i: nat): Trace
    requires i <= |w.others|
  {
    if i == 0 then w.first else w.others[i - 1]
  }

  function WithArena(w: World, i: nat, t: Trace): World
    requires i <= |w.others|
  {
    if i == 0 then w.(first := t) else w.(others := w.others[i - 1 := t])
  }

  /** Thread `i` calls into its serial arena. */
  function Called(w: World, i: nat, op: Op, mem: Region): World
    requires i <= |w.others| && Ready(ArenaOf(w, i).s) && w.heap.Heap?
  {
    var t := ArenaOf(w, i);
    WithArena(w, i, Step(t, op, mem)).(heap := Heap(w.heap.live + Obtained(t.s, op, mem)))
  }

  lemma {:induction false} OwnedAt(ts: seq<Trace>, k: nat)
    requires k < |ts|
    ensures Owned(ts[k].s) <= OwnedAll(ts)
  {
    hide Owned;
    if k < |ts| - 1 {
      OwnedAt(ts[..|ts| - 1], k);
    }
  }

  lemma {:induction false} OwnedUpdate(ts: seq<Trace>, k: nat, t: Trace, more: multiset<Region>)
    requires k < |ts| && Owned(t.s) == Owned(ts[k].s) + more
    ensures OwnedAll(ts[k := t]) == OwnedAll(ts) + more
  {
    hide Owned;
    var init := ts[..|ts| - 1];
    if k == |ts| - 1 {
      assert ts[k := t][..k] == init;
    } else {
      OwnedUpdate(init, k, t, more);
      assert ts[k := t][..|ts| - 1] == init[k := t];
    }
  }

  lemma ArenaIsHeld(w: World, i: nat)
    requires i <= |w.others|
    ensures Owned(ArenaOf(w, i).s) <= Held(w)
  {
    hide Owned;
    if i > 0 {
      OwnedAt(w.others, i - 1);
    }
  }

  /** No call changes the block an arena was created with. */
  lemma StepEnd(t: Trace, op: Op, mem: Region)
    requires Ready(t.s) && BlockOk(t.s.head)
    ensures End(Step(t, op, mem).s.head) == End(t.s.head) && Step(t, op, mem).overhead == t.overhead
  {
    hide NextPtr, ObjectAt;
  }

  lemma HeldAfter(w: World, i: nat, t: Trace, more: multiset<Region>)
    requires i <= |w.others| && Owned(t.s) == Owned(ArenaOf(w, i).s) + more
    ensures Held(WithArena(w, i, t)) == Held(w) + more
  {
    hide Owned;
    if i > 0 {
      OwnedUpdate(w.others, i - 1, t, more);
    }
  }

  lemma ArenaSound(w: World, i: nat)
    requires HeldInv(w) && i <= |w.others|
    ensures Sound(ArenaOf(w, i)) && Owned(ArenaOf(w, i).s) <= InUse(w)
  {
    hide Sound, Owned, PairwiseApart;
    ArenaIsHeld(w, i);
    if i > 0 {
      assert OtherSound(w.others[i - 1]);
    }
  }

  lemma ArenaOk(w: World, i: nat)
    requires WorldInv(w) && i <= |w.others|
    ensures Inv(ArenaOf(w, i)) && Owned(ArenaOf(w, i).s) <= InUse(w)
  {
    hide Inv, Owned, PairwiseApart, HeldInv;
    ArenaSound(w, i);
  }

  lemma PartsSound(w: World, i: nat, t: Trace, heap: Heap)
    requires i <= |w.others| && FirstSound(w) && (forall k | 0 <= k < |w.others| :: OtherSound(w.others[k]))
    requires Sound(t) && t.overhead == ArenaOf(w, i).overhead && End(t.s.head) == End(ArenaOf(w, i).s.head)
    ensures var w' := WithArena(w, i, t).(heap := heap);
            FirstSound(w') && (forall k | 0 <= k < |w'.others| :: OtherSound(w'.others[k]))
  {
    hide Sound;
    var w' := WithArena(w, i, t).(heap := heap);
    forall k | 0 <= k < |w'.others| ensures OtherSound(w'.others[k]) {
      assert OtherSound(w.others[k]);
    }
  }

  lemma StepSound(t: Trace, inUse: multiset<Region>, policy: Policy, op: Op, mem: Region)
    requires Sound(t) && Callable(t.s, op) && Grants(t.s, inUse, policy, op, mem)
    ensures Ready(t.s) && Sound(Step(t, op, mem))
    ensures Owned(Step(t, op, mem).s) == Owned(t.s) + Obtained(t.s, op, mem)
  {
    hide HandedOk, BlockOk, Owned, Unused, NextPtr, ObjectAt, Step, Counted, HeldCounted, Callable;
    StepCounted(t, inUse, policy, op, mem);
    HeldAfterStep(t, inUse, policy, op, mem);
    if op.String? && Grows(t.s, op) {
      HeapRoom(t.s, inUse, policy, mem);
    }
    StepOwned(t, op, mem);
    StepHanded(t, op, mem);
  }

  /** A call of any thread, whatever size it asks for, keeps what is held equal to what is
      live. */
  lemma CalledHeld(w: World, i: nat, policy: Policy, op: Op, mem: Region)
    requires HeldInv(w) && i <= |w.others| && Callable(ArenaOf(w, i).s, op)
    requires Grants(ArenaOf(w, i).s, InUse(w), policy, op, mem)
    ensures Ready(ArenaOf(w, i).s) && HeldInv(Called(w, i, op, mem))
  {
    hide Owned, Grants, Callable, PairwiseApart, Step, FirstSound, OtherSound, Sound, BlockOk, Ready;
    var t := ArenaOf(w, i);
    ArenaSound(w, i);
    StepSound(t, InUse(w), policy, op, mem);
    SoundBlocks(t);
    StepEnd(t, op, mem);
    var t', more := Step(t, op, mem), Obtained(t.s, op, mem);
    var w' := Called(w, i, op, mem);
    PartsSound(w, i, t', w'.heap);
    HeldAfter(w, i, t', more);
    assert Held(w') == Held(WithArena(w, i, t'));
    assert InUse(w') == InUse(w) + more;
    ObtainedApart(t.s, InUse(w), policy, op, mem);
  }

  lemma SoundBlocks(t: Trace)
    requires Sound(t)
    ensures BlockOk(t.s.head)
  {
  }

  lemma HeldHeap(w: World)
    requires HeldInv(w)
    ensures w.heap.Heap?
  {
  }

  /** It keeps every serial arena in order if and only if the request takes whole words or is
      refused. */
  lemma CalledInv(w: World, i: nat, policy: Policy, op: Op, mem: Region)
    requires WorldInv(w) && i <= |w.others| && Callable(ArenaOf(w, i).s, op)
    requires Grants(ArenaOf(w, i).s, InUse(w), policy, op, mem)
    ensures Ready(ArenaOf(w, i).s)
    ensures WorldInv(Called(w, i, op, mem)) <==> Orderly(ArenaOf(w, i).s, op, mem)
  {
    hide Inv, Owned, Grants, Callable, HeldInv, Step, Ready, Orderly;
    var t := ArenaOf(w, i);
    ArenaOk(w, i);
    HeldHeap(w);
    CalledHeld(w, i, policy, op, mem);
    StepInv(t, InUse(w), policy, op, mem);
    var w' := Called(w, i, op, mem);
    assert ArenaOf(w', i) == Step(t, op, mem);
    if Inv(Step(t, op, mem)) {
      forall k | 0 <= k < |w'.others| ensures Inv(w'.others[k]) {
        assert k != i - 1 ==> w'.others[k] == w.others[k];
      }
    }
  }

  lemma ObtainedApart(s: Arena, inUse: multiset<Region>, policy: Policy, op: Op, mem: Region)
    requires PairwiseApart(inUse) && Grants(s, inUse, policy, op, mem)
    ensures PairwiseApart(inUse + Obtained(s, op, mem))
  {
    if Grows(s, op) {
      ObtainKeepsApart(inUse, mem);
    } else {
      assert inUse + Obtained(s, op, mem) == inUse;
    }
  }

  /** A thread without a serial arena gets one, in a new block that also has room for the
      request that made it necessary. */
  function Joined(w: World, mem: Region): World
    requires w.heap.Heap?
  {
    w.(heap := Heap(w.heap.live + multiset{mem}), others := w.others + [FreshArena(mem, SERIAL_SIZE)])
  }

  lemma JoinedHeld(w: World, mem: Region)
    requires HeldInv(w) && Unused(InUse(w), mem) && BlockMemory(mem) && mem.size >= HEADER + SERIAL_SIZE
    ensures HeldInv(Joined(w, mem))
  {
    hide Inv, Sound, Owned, PairwiseApart, HeldCounted, Unused;
    var t := FreshArena(mem, SERIAL_SIZE);
    FreshArenaInv(mem, SERIAL_SIZE);
    ObtainKeepsApart(InUse(w), mem);
    var w' := Joined(w, mem);
    assert w'.others[..|w.others|] == w.others;
    assert InUse(w') == InUse(w) + multiset{mem};
    forall k | 0 <= k < |w'.others| ensures OtherSound(w'.others[k]) {
      if k < |w.others| {
        assert OtherSound(w.others[k]);
      } else {
        assert w'.others[k] == t && End(t.s.head) == t.s.head;
      }
    }
  }

  lemma JoinedInv(w: World, mem: Region)
    requires WorldInv(w) && Unused(InUse(w), mem) && BlockMemory(mem) && mem.size >= HEADER + SERIAL_SIZE
    ensures WorldInv(Joined(w, mem))
  {
    hide Inv, Sound, Owned, HeldInv, HeldCounted, Unused;
    JoinedHeld(w, mem);
    FreshArenaInv(mem, SERIAL_SIZE);
  }

  /** The request that made the new arena necessary is served from its first block. */
  lemma JoinedServes(n: nat, mem: Region)
    requires BlockMemory(mem) && n % 8 == 0 && mem.size >= HEADER + n + SERIAL_SIZE
    ensures !Grows(FreshArena(mem, SERIAL_SIZE).s, Bytes(n))
  {
    EightsFit(mem.at, HEADER + SERIAL_SIZE + n, mem.at + mem.size, mem.at + Down8(mem.size));
    NoWrap(mem.at + HEADER + SERIAL_SIZE + n);
  }

  // ----- Reset and destruction -----

  /** What Free gives back for one serial arena, but for its last block. */
  function FreeList(s: Arena): seq<Region> {
    HeapList(s.strings) + Walked(s.head)
  }

  /** What is given back for the arena of another thread, its last block included. */
  function FreeOther(s: Arena): seq<Region> {
    FreeList(s) + (if End(s.head).Block? then [End(s.head).mem] else [])
  }

  /** The other threads' cleanup chunks and blocks, latest arena first. */
  function ChunksOf(ts: seq<Trace>): seq<Region> {
    if ts == [] then [] else Memory(ts[|ts| - 1].s.cleanup) + ChunksOf(ts[..|ts| - 1])
  }

  function BlocksOf(ts: seq<Trace>): seq<Region> {
    if ts == [] then [] else FreeOther(ts[|ts| - 1].s) + BlocksOf(ts[..|ts| - 1])
  }

  /** Everything given back by CleanupList and Free, in order. */
  function Returned(w: World): seq<Region> {
    ChunksOf(w.others) + Memory(w.first.s.cleanup) + BlocksOf(w.others) + FreeList(w.first.s)
  }

  lemma FreeListBag(s: Arena)
    requires BlockOk(s.head)
    ensures Owned(s) == multiset(Memory(s.cleanup)) + multiset(FreeList(s)) + EndBag(s.head)
  {
    WalkedBag(s.head);
    HeapListBag(s.strings);
  }

  lemma FreeOtherBag(s: Arena)
    requires BlockOk(s.head)
    ensures Owned(s) == multiset(Memory(s.cleanup)) + multiset(FreeOther(s))
  {
    FreeListBag(s);
  }

  lemma {:induction false} OthersBag(ts: seq<Trace>)
    requires forall i | 0 <= i < |ts| :: BlockOk(ts[i].s.head)
    ensures OwnedAll(ts) == multiset(ChunksOf(ts)) + multiset(BlocksOf(ts))
  {
    hide Owned, FreeOther, BlockOk;
    if ts != [] {
      OthersBag(ts[..|ts| - 1]);
      FreeOtherBag(ts[|ts| - 1].s);
    }
  }

  lemma BlocksAreOk(w: World)
    requires HeldInv(w)
    ensures BlockOk(w.first.s.head) && forall i | 0 <= i < |w.others| :: BlockOk(w.others[i].s.head)
  {
    hide PairwiseApart, Owned, HandedOk, Counted, HeldCounted;
    forall i | 0 <= i < |w.others| ensures BlockOk(w.others[i].s.head) {
      assert OtherSound(w.others[i]);
    }
  }

  /** The first arena's last block aside, what is given back is what the arena holds. */
  lemma ReturnedBag(w: World)
    requires HeldInv(w)
    ensures InUse(w) == multiset(Returned(w)) + EndBag(w.first.s.head)
  {
    hide Sound, Owned, PairwiseApart, FirstSound, OtherSound, FreeList, EndBag, BlockOk;
    BlocksAreOk(w);
    OthersBag(w.others);
    FreeListBag(w.first.s);
  }

  /** Cleanup and Free give every region back exactly once and with its size, never the
      caller's block and never the sentry: nothing faults, and only a block that holds the
      policy is left. */
  lemma TeardownExact(w: World)
    requires HeldInv(w)
    ensures ReleaseAll(w.heap, Returned(w)) == Heap(if w.user.Some? then multiset{} else EndBag(w.first.s.head))
    ensures w.user.Some? ==> w.user.value !in Returned(w)
    ensures w.user.Some? ==> EndBag(w.first.s.head) == UserBag(w)
  {
    hide Sound, Owned, OtherSound, BlockOk, Returned, Held;
    ReturnedBag(w);
    var rs, end := multiset(Returned(w)), EndBag(w.first.s.head);
    ReleaseAllExact(w.heap.live, Returned(w));
    if w.user.Some? {
      assert end == UserBag(w);
      SameRest(w.heap.live, rs, end);
      OnlyOnce(rs, end, w.user.value);
    } else {
      assert InUse(w) == w.heap.live;
      assert w.heap.live - rs == end;
    }
  }

  lemma SameRest(live: multiset<Region>, rs: multiset<Region>, end: multiset<Region>)
    requires live + end == rs + end
    ensures rs == live && live - rs == multiset{}
  {
    forall r ensures rs[r] == live[r] {
      assert (live + end)[r] == (rs + end)[r];
    }
  }

  lemma OnlyOnce(rs: multiset<Region>, end: multiset<Region>, user: Region)
    requires PairwiseApart(rs + end) && user in end
    ensures user !in rs
  {
    assert user in rs + end;
  }

  /** The destructor: everything, and then the first block unless it is the caller's or
      the sentry. */
  function Destroyed(w: World): Heap {
    var heap := ReleaseAll(w.heap, Returned(w));
    if w.user.Some? then heap
    else if End(w.first.s.head).Block? then Release(heap, End(w.first.s.head).mem)
    else heap
  }

  /** After destruction nothing the arena obtained is left, and nothing was given back
      twice. */
  lemma DestroyReturnsAll(w: World)
    requires HeldInv(w)
    ensures Destroyed(w) == Heap(multiset{})
  {
    hide HeldInv, Returned;
    TeardownExact(w);
  }

  /** Reset keeps the caller's block, or the block with the policy, for the first arena. */
  function AfterReset(w: World): World {
    var last := End(w.first.s.head);
    var first := if (w.user.Some? || w.policy) && last.Block? then
                   FreshArena(last.mem, if w.policy then POLICY_SIZE else 0)
                 else SentryArena();
    World(ReleaseAll(w.heap, Returned(w)), first, [], w.user, w.policy)
  }

  lemma EndIsBlock(b: Block)
    requires BlockOk(b)
    ensures End(b).Block? ==> BlockMemory(End(b).mem)
  {
  }

  lemma ResetFirst(w: World)
    requires FirstSound(w) && BlockOk(w.first.s.head)
    ensures var w' := AfterReset(w);
            && FirstSound(w') && Inv(w'.first) && Owned(w'.first.s) == EndBag(w.first.s.head)
            && HeldCounted(w'.first.s)
  {
    hide Inv, Sound, Owned, BlockOk, Returned, HeldCounted;
    EndIsBlock(w.first.s.head);
    var last, w' := End(w.first.s.head), AfterReset(w);
    SentryArenaInv();
    if last.Block? {
      FreshArenaInv(last.mem, if w.policy then POLICY_SIZE else 0);
      assert End(Block(last.mem, Null)) == Block(last.mem, Null);
    }
  }

  lemma ResetHeld(w: World)
    requires HeldInv(w) && FirstSound(AfterReset(w)) && Owned(AfterReset(w).first.s) == EndBag(w.first.s.head)
    ensures HeldInv(AfterReset(w)) && Held(AfterReset(w)) == EndBag(w.first.s.head)
  {
    hide FirstSound, Owned, OtherSound, PairwiseApart, Returned, EndBag;
    TeardownExact(w);
    ReturnedBag(w);
    var w' := AfterReset(w);
    assert Held(w') == Owned(w'.first.s);
    assert InUse(w') == EndBag(w.first.s.head);
    StillApart(InUse(w), InUse(w'));
  }

  /** Reset leaves the arena as one that was just created, in order even if it was not. */
  lemma ResetInv(w: World)
    requires HeldInv(w)
    ensures WorldInv(AfterReset(w)) && AfterReset(w).first.objects == []
    ensures Held(AfterReset(w)) == EndBag(w.first.s.head)
    ensures HeldCounted(AfterReset(w).first.s)
  {
    hide HeldInv, Inv, Owned, Returned, HeldCounted, EndBag;
    FirstIsSound(w);
    BlocksAreOk(w);
    ResetFirst(w);
    ResetHeld(w);
  }

  lemma FirstIsSound(w: World)
    requires HeldInv(w)
    ensures FirstSound(w)
  {
  }

  lemma StillApart(all: multiset<Region>, part: multiset<Region>)
    requires PairwiseApart(all) && part <= all
    ensures PairwiseApart(part)
  {
    forall o | o in part ensures o.size > 0 && part[o] == 1 {
      assert o in all && part[o] <= all[o];
    }
  }

  // ----- whole lives -----

  datatype Event =
    | Call(thread: nat, op: Op, mem: Region)
    | Join(n: nat, mem: Region)
    | Reset

  ghost predicate Enabled(w: World, policy: Policy, e: Event) {
    match e
    case Call(i, op, mem) =>
      i <= |w.others| && Callable(ArenaOf(w, i).s, op) && Grants(ArenaOf(w, i).s, InUse(w), policy, op, mem)
    case Join(n, mem) => Unused(InUse(w), mem) && BlockMemory(mem) && mem.size >= HEADER + n + SERIAL_SIZE
    case Reset => true
  }

  ghost function Next(w: World, policy: Policy, e: Event): World
    requires HeldInv(w) && Enabled(w, policy, e)
  {
    match e
    case Call(i, op, mem) => CalledHeld(w, i, policy, op, mem); Called(w, i, op, mem)
    case Join(_, mem) => Joined(w, mem)
    case Reset => AfterReset(w)
  }

  /** The event does not break a word: a call that takes whole words or is refused. */
  predicate KeepsOrder(w: World, e: Event) {
    e.Call? && e.thread <= |w.others| ==> Orderly(ArenaOf(w, e.thread).s, e.op, e.mem)
  }

  lemma NextHeld(w: World, policy: Policy, e: Event)
    requires HeldInv(w) && Enabled(w, policy, e)
    ensures HeldInv(Next(w, policy, e))
  {
    hide HeldInv;
    match e {
      case Call(i, op, mem) => CalledHeld(w, i, policy, op, mem);
      case Join(n, mem) => JoinedHeld(w, mem);
      case Reset => ResetInv(w);
    }
  }

  lemma NextInv(w: World, policy: Policy, e: Event)
    requires WorldInv(w) && Enabled(w, policy, e)
    ensures WorldInv(Next(w, policy, e)) <==> KeepsOrder(w, e)
  {
    hide HeldInv, Inv;
    match e {
      case Call(i, op, mem) => CalledInv(w, i, policy, op, mem);
      case Join(n, mem) => JoinedInv(w, mem);
      case Reset => ResetInv(w);
    }
  }

  ghost predicate IsNext(w: World, policy: Policy, e: Event, w': World) {
    HeldInv(w) ==> Enabled(w, policy, e) && w' == Next(w, policy, e)
  }

  /** The states of a life: calls of any threads, new threads and Resets in any order. */
  ghost predicate IsLife(ws: seq<World>, policy: Policy, es: seq<Event>) {
    && |ws| == |es| + 1 && WorldInv(ws[0])
    && forall k | 0 <= k < |es| :: IsNext(ws[k], policy, es[k], ws[k + 1])
  }

  /** In every state of every life, whatever sizes were asked for, what the arena holds is
      what is live, and destroying it there returns exactly what is outstanding. */
  lemma {:induction false} LifeHeld(ws: seq<World>, policy: Policy, es: seq<Event>, k: nat)
    requires IsLife(ws, policy, es) && k < |ws|
    ensures HeldInv(ws[k]) && Destroyed(ws[k]) == Heap(multiset{})
  {
    hide HeldInv, Inv, Next, Destroyed, Enabled;
    if k > 0 {
      LifeHeld(ws, policy, es, k - 1);
      assert IsNext(ws[k - 1], policy, es[k - 1], ws[k - 1 + 1]);
      NextHeld(ws[k - 1], policy, es[k - 1]);
    }
    DestroyReturnsAll(ws[k]);
  }

  /** The arena has been in order all along if and only if every call so far took whole words
      or was refused: one call with a broken word, and it is out of order. */
  lemma {:induction false} LifeInv(ws: seq<World>, policy: Policy, es: seq<Event>, k: nat)
    requires IsLife(ws, policy, es) && k < |ws|
    ensures (forall j | 0 <= j <= k :: WorldInv(ws[j])) <==> (forall j | 0 <= j < k :: KeepsOrder(ws[j], es[j]))
  {
    hide WorldInv, HeldInv, Next, Enabled, KeepsOrder, Destroyed;
    if k > 0 {
      LifeInv(ws, policy, es, k - 1);
      LifeHeld(ws, policy, es, k - 1);
      assert IsNext(ws[k - 1], policy, es[k - 1], ws[k - 1 + 1]);
      if WorldInv(ws[k - 1]) {
        NextInv(ws[k - 1], policy, es[k - 1]);
      }
    }
  }

  // ----- objects of different threads -----

  lemma CoveredByOwned(t: Trace, i: nat) returns (o: Region)
    requires Inv(t) && i < |t.objects|
    ensures o in Owned(t.s) && Within(t.objects[i], o)
  {
    assert Covered(Space(t.s), t.objects[i]);
    o :| o in Space(t.s) && Within(t.objects[i], o) && o.at + HEADER <= t.objects[i].at;
  }

  lemma {:induction false} TwoOwners(ts: seq<Trace>, i: nat, j: nat)
    requires i < j < |ts|
    ensures Owned(ts[i].s) + Owned(ts[j].s) <= OwnedAll(ts)
  {
    hide Owned;
    var init := ts[..|ts| - 1];
    if j == |ts| - 1 {
      OwnedAt(init, i);
    } else {
      TwoOwners(init, i, j);
    }
  }

  lemma TwoArenas(w: World, i: nat, j: nat)
    requires i < j <= |w.others|
    ensures Owned(ArenaOf(w, i).s) + Owned(ArenaOf(w, j).s) <= Held(w)
  {
    hide Owned;
    if i == 0 {
      OwnedAt(w.others, j - 1);
    } else {
      TwoOwners(w.others, i - 1, j - 1);
    }
  }

  lemma OwnersDiffer(a: multiset<Region>, b: multiset<Region>, all: multiset<Region>, o: Region, p: Region)
    requires a + b <= all && PairwiseApart(all) && o in a && p in b
    ensures Apart(o, p)
  {
    assert o in all && p in all;
    assert (a + b)[o] <= all[o];
  }

  /** Objects handed out to different threads never overlap either. */
  lemma ThreadsNeverOverlap(w: World, i: nat, j: nat, m: nat, n: nat)
    requires WorldInv(w) && i < j <= |w.others|
    requires m < |ArenaOf(w, i).objects| && n < |ArenaOf(w, j).objects|
    ensures Apart(ArenaOf(w, i).objects[m], ArenaOf(w, j).objects[n])
  {
    hide Inv, Owned, PairwiseApart, FirstSound, OtherSound;
    ArenaOk(w, i);
    ArenaOk(w, j);
    TwoArenas(w, i, j);
    var o := CoveredByOwned(ArenaOf(w, i), m);
    var p := CoveredByOwned(ArenaOf(w, j), n);
    OwnersDiffer(Owned(ArenaOf(w, i).s), Owned(ArenaOf(w, j).s), InUse(w), o, p);
    ApartOwners(ArenaOf(w, i).objects[m], o, ArenaOf(w, j).objects[n], p);
  }

  // ----- space used by all threads -----

  /** What the users of the arenas were given. */
  function Given(t: Trace): nat {
    t.direct + |t.handed| * STRING
  }

  function GivenAll(ts: seq<Trace>): nat {
    if ts == [] then 0 else Given(ts[|ts| - 1]) + GivenAll(ts[..|ts| - 1])
  }

  /** SpaceUsed of the whole arena, a loop over the serial arenas in 64-bit arithmetic. */
  method SpaceUsedByAll(w: World) returns (used: nat)
    requires HeldInv(w)
    ensures w.first.s.head.Block? || w.first.s.spaceUsed == 0 ==> used == (Given(w.first) + GivenAll(w.others)) % U64
    ensures w.first.s.head.Sentry? && w.first.s.spaceUsed != 0 ==> used != (Given(w.first) + GivenAll(w.others)) % U64
  {
    hide Sound, Owned, PairwiseApart, SpaceUsed, Given, Held, InUse, End;
    Usable(w.first);
    var mine := SpaceUsed(w.first.s);
    ghost var given := GivenAll(w.others);
    used := Plus(SERIAL_SIZE, mine - SERIAL_SIZE);
    assert GivenAll([]) == 0;
    for k := 0 to |w.others|
      invariant used == (mine + GivenAll(w.others[..k])) % U64
    {
      var t := w.others[k];
      assert OtherSound(t);
      Usable(t);
      OtherUsed(t, mine + GivenAll(w.others[..k]));
      GivenStep(w.others, k);
      used := Plus(used, SpaceUsed(t.s) - SERIAL_SIZE);
    }
    assert w.others[..|w.others|] == w.others;
    FirstUsed(w, given);
    var p := if w.policy then POLICY_SIZE else 0;
    ModPlus(mine + given, -(p as int));
    used := Plus(used, -(p as int));
  }

  lemma GivenStep(ts: seq<Trace>, k: nat)
    requires k < |ts|
    ensures GivenAll(ts[..k + 1]) == GivenAll(ts[..k]) + Given(ts[k])
  {
    assert ts[..k + 1][..k] == ts[..k];
  }

  lemma Usable(t: Trace)
    requires Sound(t)
    ensures t.s.strings.Strings? ==> t.s.unused + STRINGS_HEADER <= t.s.strings.size
    ensures t.s.head.Block? ==> t.s.head.mem.at + HEADER <= t.s.ptr
    ensures SpaceUsed(t.s) < U64
  {
  }

  lemma OtherUsed(t: Trace, sum: nat)
    requires OtherSound(t)
    requires t.s.strings.Strings? ==> t.s.unused + STRINGS_HEADER <= t.s.strings.size
    requires t.s.head.Block? ==> t.s.head.mem.at + HEADER <= t.s.ptr
    ensures Plus(sum % U64, SpaceUsed(t.s) - SERIAL_SIZE) == (sum + Given(t)) % U64
  {
    hide Placed, PairwiseApart, Owned;
    SpaceUsedExact(t);
    ModPlus(sum, SpaceUsed(t.s) - SERIAL_SIZE);
    ModPlus(SERIAL_SIZE + Given(t), sum - SERIAL_SIZE);
  }

  lemma FirstUsed(w: World, sum: nat)
    requires FirstSound(w)
    requires w.first.s.strings.Strings? ==> w.first.s.unused + STRINGS_HEADER <= w.first.s.strings.size
    requires w.first.s.head.Block? ==> w.first.s.head.mem.at + HEADER <= w.first.s.ptr
    ensures (SpaceUsed(w.first.s) + sum - if w.policy then POLICY_SIZE else 0) % U64 == (Given(w.first) + sum) % U64
        <==> w.first.s.head.Block? || w.first.s.spaceUsed == 0
  {
    hide Placed, PairwiseApart, Owned;
    SpaceUsedExact(w.first);
    var t := w.first;
    var p := if w.policy then POLICY_SIZE else 0;
    if t.s.head.Block? {
      ModPlus(p + Given(t), sum - p);
    } else {
      ModCancel(SpaceUsed(t.s), Given(t), sum);
    }
  }

  lemma ModCancel(a: nat, b: nat, sum: nat)
    requires a < U64
    ensures (a + sum) % U64 == (b + sum) % U64 <==> a == b % U64
  {
    ModPlus(b, sum);
    var r := b % U64;
    if (a + sum) % U64 == (r + sum) % U64 {
      var q := (a + sum) / U64 - (r + sum) / U64;
      assert a - r == q * U64;
      NoSmallMultiple(q, U64);
    }
  }

  // ----- the arena object -----

  /** The destructors run by CleanupList: latest thread first, the first arena last. */
  function CleanupOrder(ts: seq<Trace>): seq<Node> {
    if ts == [] then [] else RunOrder(ts[|ts| - 1].s.cleanup) + CleanupOrder(ts[..|ts| - 1])
  }

  class ThreadSafeArena {
    var heap: Heap
    var first: Trace
    var others: seq<Trace>
    var user: Option<Region>
    var policy: bool

    function State(): World
      reads this
    {
      World(heap, first, others, user, policy)
    }

    /** The constructors: FirstBlock in its two forms, and InitializeWithPolicy. `given` is
        the caller's buffer, `mem` what the allocator returns for the policy. */
    constructor (given: Option<Region>, custom: bool, mem: Region)
      requires given.Some? && given.value.size > HEADER ==> BlockMemory(given.value)
      requires BlockMemory(mem) && mem.size >= HEADER + POLICY_SIZE
      ensures State() == Create(given, custom, mem) && WorldInv(State())
    {
      hide WorldInv, FreshArena, SentryArena;
      CreateInv(given, custom, mem);
      others, user, policy := [], None, custom;
      heap := Heap(multiset{});
      var needed := if custom then HEADER + POLICY_SIZE else HEADER + 1;
      if given.Some? && given.value.size >= needed {
        user := given;
        first := FreshArena(given.value, if custom then POLICY_SIZE else 0);
      } else if custom {
        heap := Heap(multiset{mem});
        first := FreshArena(mem, POLICY_SIZE);
      } else {
        first := SentryArena();
      }
    }

    /** GetSerialArenaFallback for a thread that has no serial arena yet. */
    method Join(mem: Region)
      requires WorldInv(State()) && Unused(InUse(State()), mem) && BlockMemory(mem) && mem.size >= HEADER + SERIAL_SIZE
      modifies this
      ensures State() == Joined(old(State()), mem) && WorldInv(State())
    {
      hide FirstSound, OtherSound, PairwiseApart, Held, InUse, FreshArena;
      JoinedInv(State(), mem);
      heap := Heap(heap.live + multiset{mem});
      others := others + [FreshArena(mem, SERIAL_SIZE)];
    }

    /** CleanupList: runs every registered destructor and gives the chunks back. */
    method CleanupList() returns (destroyed: seq<Node>)
      modifies this`heap
      ensures heap == ReleaseAll(old(heap), ChunksOf(others) + Memory(first.s.cleanup))
      ensures destroyed == CleanupOrder(others) + RunOrder(first.s.cleanup)
    {
      hide ChunksOf, CleanupOrder, RunOrder, Memory;
      destroyed := [];
      ghost var rest := Memory(first.s.cleanup);
      ghost var end := ReleaseAll(heap, ChunksOf(others) + rest);
      assert others[..|others|] == others;
      for k := |others| downto 0
        invariant ReleaseAll(heap, ChunksOf(others[..k]) + rest) == end
        invariant destroyed + CleanupOrder(others[..k]) == CleanupOrder(others)
      {
        var list := others[k].s.cleanup;
        LastOf(others, k);
        SeqAssoc(Memory(list), ChunksOf(others[..k]), rest);
        ReleaseAllAppend(heap, Memory(list), ChunksOf(others[..k]) + rest);
        SeqAssoc(destroyed, RunOrder(list), CleanupOrder(others[..k]));
        destroyed := destroyed + RunOrder(list);
        heap := ReleaseAll(heap, Memory(list));
      }
      NoChunks();
      assert [] + rest == rest && destroyed + [] == destroyed;
      destroyed := destroyed + RunOrder(first.s.cleanup);
      heap := ReleaseAll(heap, Memory(first.s.cleanup));
    }

    /** Free: destroys all strings and gives back all memory but the first arena's last
        block, which it returns. */
    method Free() returns (last: Block, strings: seq<Region>)
      requires BlockOk(first.s.head) && forall t <- others :: BlockOk(t.s.head) && End(t.s.head).Block?
      requires Readable(ReleaseAll(heap, BlocksOf(others) + FreeList(first.s)), End(first.s.head), UserBag(State()))
      modifies this`heap
      ensures heap == ReleaseAll(old(heap), BlocksOf(others) + FreeList(first.s))
      ensures last == End(first.s.head)
      ensures strings == StringsOf(others) + StringOrder(first.s.strings, first.s.unused)
    {
      hide BlockOk, FreeList, StringOrder, StringsOf, BlocksOf, ReleaseAll, FreeOther, End;
      ghost var rest := FreeList(first.s);
      ghost var end := ReleaseAll(heap, BlocksOf(others) + rest);
      assert others[..|others|] == others;
      strings := [];
      NoStringsOf();
      for k := |others| downto 0
        invariant ReleaseAll(heap, BlocksOf(others[..k]) + rest) == end
        invariant strings + StringsOf(others[..k]) == StringsOf(others)
      {
        var s := others[k].s;
        LastOf(others, k);
        SeqAssoc(FreeOther(s), BlocksOf(others[..k]), rest);
        FreeOtherFirst(heap, s, BlocksOf(others[..k]) + rest);
        SeqAssoc(strings, StringOrder(s.strings, s.unused), StringsOf(others[..k]));
        var own, gone;
        heap, own, gone := FreeSerial(heap, s, multiset{});
        heap := Release(heap, own.mem);
        strings := strings + gone;
      }
      assert [] + rest == rest && strings + [] == strings;
      var gone;
      heap, last, gone := FreeSerial(heap, first.s, UserBag(State()));
      strings := strings + gone;
    }

    /** The destructor: nothing stays live, every destructor registered has run, and every
        string handed out has been destroyed, in the reverse of their orders. */
    method Destroy() returns (destroyed: seq<Node>, strings: seq<Region>)
      requires HeldInv(State())
      modifies this`heap
      ensures heap == Heap(multiset{})
      ensures destroyed == CleanupOrder(others) + RunOrder(first.s.cleanup)
      ensures strings == HandedBy(others) + first.handed
    {
      hide HeldInv, BlockOk, ChunksOf, BlocksOf, FreeList, StringOrder, StringsOf, HandedBy, CleanupOrder, RunOrder;
      ghost var w := State();
      TeardownReady(w);
      DestroyReturnsAll(w);
      StringsAreHanded(w);
      destroyed := CleanupList();
      var last;
      last, strings := Free();
      if user.None? && last.Block? {
        heap := Release(heap, last.mem);
      }
    }

    /** SpaceAllocated: the memory held by all serial arenas. */
    method SpaceAllocated() returns (held: nat)
      requires HeldInv(State())
      ensures held == (HeldBytes(first.s) + HeldByAll(others)) % U64
    {
      hide HeldInv, HeldCounted, HeldByAll, HeldBytes;
      AllHeldCounted(State());
      held := first.s.spaceAllocated;
      NoneHeld();
      for k := 0 to |others|
        invariant held == (HeldBytes(first.s) + HeldByAll(others[..k])) % U64
      {
        HeldStep(others, k, HeldBytes(first.s));
        held := (held + others[k].s.spaceAllocated) % U64;
      }
      assert others[..|others|] == others;
    }

    /** Reset, which returns how much memory was held before. */
    method Reset() returns (destroyed: seq<Node>, strings: seq<Region>, held: nat)
      requires HeldInv(State())
      modifies this
      ensures State() == AfterReset(old(State())) && WorldInv(State())
      ensures destroyed == CleanupOrder(old(others)) + RunOrder(old(first.s.cleanup))
      ensures strings == HandedBy(old(others)) + old(first.handed)
      ensures held == old(HeldBytes(first.s) + HeldByAll(others)) % U64
    {
      hide HeldInv, WorldInv, BlockOk, ChunksOf, BlocksOf, FreeList, HeldBytes, HeldByAll, CleanupOrder, RunOrder,
        FreshArena, SentryArena, HeldCounted, Held, EndBag, Returned, Readable, ReleaseAll, Memory, StringOrder,
        StringsOf, HandedBy;
      ghost var w := State();
      TeardownReady(w);
      ResetInv(w);
      StringsAreHanded(w);
      held := SpaceAllocated();
      destroyed := CleanupList();
      var last;
      last, strings := Free();
      if (user.Some? || policy) && last.Block? {
        first := FreshArena(last.mem, if policy then POLICY_SIZE else 0);
      } else {
        first := SentryArena();
      }
      others := [];
    }
  }

  /** The strings destroyed with the other threads' arenas, and what those handed out. */
  function StringsOf(ts: seq<Trace>): seq<Region> {
    if ts == [] then []
    else StringOrder(ts[|ts| - 1].s.strings, ts[|ts| - 1].s.unused) + StringsOf(ts[..|ts| - 1])
  }

  function HandedBy(ts: seq<Trace>): seq<Region> {
    if ts == [] then [] else ts[|ts| - 1].handed + HandedBy(ts[..|ts| - 1])
  }

  lemma NoStringsOf()
    ensures StringsOf([]) == [] && BlocksOf([]) == []
  {
  }

  lemma {:induction false} StringsAreHandedBy(ts: seq<Trace>)
    requires forall i | 0 <= i < |ts| :: HandedOk(ts[i])
    ensures StringsOf(ts) == HandedBy(ts)
  {
    hide StringOrder;
    if ts != [] {
      StringsAreHandedBy(ts[..|ts| - 1]);
      assert HandedOk(ts[|ts| - 1]);
    }
  }

  lemma StringsAreHanded(w: World)
    requires HeldInv(w)
    ensures StringsOf(w.others) == HandedBy(w.others)
    ensures StringOrder(w.first.s.strings, w.first.s.unused) == w.first.handed
  {
    hide Owned, PairwiseApart, Range, Counted, StringOrder, HeldCounted;
    forall i | 0 <= i < |w.others| ensures HandedOk(w.others[i]) {
      assert OtherSound(w.others[i]);
    }
    StringsAreHandedBy(w.others);
  }

  function HeldByAll(ts: seq<Trace>): nat {
    if ts == [] then 0 else HeldBytes(ts[|ts| - 1].s) + HeldByAll(ts[..|ts| - 1])
  }

  lemma NoneHeld()
    ensures HeldByAll([]) == 0
  {
  }

  lemma AllHeldCounted(w: World)
    requires HeldInv(w)
    ensures w.first.s.spaceAllocated == HeldBytes(w.first.s) % U64
    ensures forall k | 0 <= k < |w.others| :: HeldCounted(w.others[k].s)
  {
    hide Owned, PairwiseApart, Range, Counted, HeldBytes, StringOrder;
    forall k | 0 <= k < |w.others| ensures HeldCounted(w.others[k].s) {
      assert OtherSound(w.others[k]);
    }
  }

  lemma HeldStep(ts: seq<Trace>, k: nat, sum: nat)
    requires k < |ts| && HeldCounted(ts[k].s)
    ensures ((sum + HeldByAll(ts[..k])) % U64 + ts[k].s.spaceAllocated) % U64 == (sum + HeldByAll(ts[..k + 1])) % U64
  {
    hide HeldBytes;
    assert ts[..k + 1][..k] == ts[..k];
    ModPlus(sum + HeldByAll(ts[..k]), ts[k].s.spaceAllocated);
    ModPlus(HeldBytes(ts[k].s), sum + HeldByAll(ts[..k]));
  }

  /** SerialArena::Free. */
  method FreeSerial(heap: Heap, s: Arena, ghost spared: multiset<Region>)
    returns (after: Heap, last: Block, strings: seq<Region>)
    requires BlockOk(s.head) && Readable(ReleaseAll(heap, FreeList(s)), End(s.head), spared)
    ensures after == ReleaseAll(heap, FreeList(s)) && last == End(s.head)
    ensures strings == StringOrder(s.strings, s.unused)
  {
    hide BlockOk, StringOrder;
    ReleaseAllAppend(heap, HeapList(s.strings), Walked(s.head));
    FaultStays(Walked(s.head));
    after, strings := FreeStringBlocks(heap, s.strings, s.unused);
    after, last := FreeBlocks(after, s.head, spared);
  }

  /** When a list that starts with another thread's memory can be given back, so can that
      memory, and its last block is still live after the rest of it. */
  lemma FreeOtherFirst(heap: Heap, s: Arena, more: seq<Region>)
    requires End(s.head).Block? && ReleaseAll(heap, FreeOther(s) + more).Heap?
    ensures Readable(ReleaseAll(heap, FreeList(s)), End(s.head), multiset{})
    ensures ReleaseAll(heap, FreeOther(s) + more)
         == ReleaseAll(Release(ReleaseAll(heap, FreeList(s)), End(s.head).mem), more)
  {
    var last := End(s.head).mem;
    ReleaseAllAppend(heap, FreeOther(s), more);
    ReleaseAllAppend(heap, FreeList(s), [last]);
    var before := ReleaseAll(heap, FreeList(s));
    assert ReleaseAll(before, [last]) == Release(before, last);
    FaultStays(more);
  }

  /** In order to be torn down: the four parts of what is returned, and the last block. */
  lemma TeardownReady(w: World)
    requires HeldInv(w)
    ensures BlockOk(w.first.s.head) && forall t <- w.others :: BlockOk(t.s.head) && End(t.s.head).Block?
    ensures var chunks := ReleaseAll(w.heap, ChunksOf(w.others) + Memory(w.first.s.cleanup));
            var freed := ReleaseAll(chunks, BlocksOf(w.others) + FreeList(w.first.s));
            && freed == ReleaseAll(w.heap, Returned(w))
            && Readable(freed, End(w.first.s.head), UserBag(w))
  {
    hide Sound, Owned, PairwiseApart, FreeList, Held, InUse;
    BlocksAreOk(w);
    forall t <- w.others ensures BlockOk(t.s.head) && End(t.s.head).Block? {
      var i :| 0 <= i < |w.others| && w.others[i] == t;
      assert OtherSound(w.others[i]);
    }
    TeardownExact(w);
    var a, b := ChunksOf(w.others) + Memory(w.first.s.cleanup), BlocksOf(w.others) + FreeList(w.first.s);
    SeqAssoc(a, BlocksOf(w.others), FreeList(w.first.s));
    ReleaseAllAppend(w.heap, a, b);
  }

  lemma NoChunks()
    ensures ChunksOf([]) == [] && CleanupOrder([]) == []
  {
  }

  lemma LastOf(ts: seq<Trace>, k: nat)
    requires k < |ts|
    ensures ts[..k + 1][..k] == ts[..k] && ts[..k + 1][k] == ts[k]
    ensures ChunksOf(ts[..k + 1]) == Memory(ts[k].s.cleanup) + ChunksOf(ts[..k])
    ensures BlocksOf(ts[..k + 1]) == FreeOther(ts[k].s) + BlocksOf(ts[..k])
    ensures CleanupOrder(ts[..k + 1]) == RunOrder(ts[k].s.cleanup) + CleanupOrder(ts[..k])
    ensures StringsOf(ts[..k + 1]) == StringOrder(ts[k].s.strings, ts[k].s.unused) + StringsOf(ts[..k])
  {
    assert ts[..k + 1][..k] == ts[..k];
  }
}
