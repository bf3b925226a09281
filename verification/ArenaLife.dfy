/** Whole lives of an arena: every string destroyed once, and what the code does to itself
    with sizes that only debug builds refuse. */
module ArenaLife {
  import opened Common
  import opened ArenaMemory
  import opened CleanupList
  import opened SerialArena
  import opened ThreadSafeArena

  // ----- strings over a life -----

  function HandedBag(ts: seq<Trace>): multiset<Region> {
    if ts == [] then multiset{} else multiset(ts[|ts| - 1].handed) + HandedBag(ts[..|ts| - 1])
  }

  /** The strings handed out and not destroyed yet. */
  function Due(w: World): multiset<Region> {
    multiset(w.first.handed) + HandedBag(w.others)
  }

  /** Reset and the destructor destroy exactly the strings that are due. */
  lemma DueIsDestroyed(w: World)
    ensures Due(w) == multiset(HandedBy(w.others) + w.first.handed)
  {
    HandedByBag(w.others);
  }

  lemma {:induction false} HandedByBag(ts: seq<Trace>)
    ensures HandedBag(ts) == multiset(HandedBy(ts))
  {
    if ts != [] {
      HandedByBag(ts[..|ts| - 1]);
    }
  }

  lemma Regroup(a: multiset<Region>, b: multiset<Region>, c: multiset<Region>)
    ensures (a + b) + c == (a + c) + b && a + (b + c) == (a + b) + c
  {
  }

  lemma {:induction false} HandedUpdate(ts: seq<Trace>, k: nat, t: Trace, more: multiset<Region>)
    requires k < |ts| && multiset(t.handed) == multiset(ts[k].handed) + more
    ensures HandedBag(ts[k := t]) == HandedBag(ts) + more
  {
    var init, last := ts[..|ts| - 1], multiset(ts[|ts| - 1].handed);
    if k == |ts| - 1 {
      assert ts[k := t][..k] == init;
      Regroup(last, more, HandedBag(init));
    } else {
      HandedUpdate(init, k, t, more);
      assert ts[k := t][..|ts| - 1] == init[k := t];
      Regroup(last, HandedBag(init), more);
    }
  }

  /** The string an event hands out, if it is a call for one. */
  function IssuedBy(w: World, e: Event): multiset<Region> {
    if e.Call? && e.op.String? && e.thread <= |w.others| && Ready(ArenaOf(w, e.thread).s)
    then multiset{Step(ArenaOf(w, e.thread), String, e.mem).handed[0]}
    else multiset{}
  }

  /** The strings an event destroys. */
  function DestroyedBy(w: World, e: Event): multiset<Region> {
    if e.Reset? then Due(w) else multiset{}
  }

  lemma StepDue(t: Trace, op: Op, mem: Region)
    requires Ready(t.s) && HandedOk(t)
    ensures var t' := Step(t, op, mem);
            && (op.String? ==> t'.handed != [])
            && multiset(t'.handed) == multiset(t.handed) + (if op.String? then multiset{t'.handed[0]} else multiset{})
  {
    hide Ready, StringOrder, Step;
    StepHanded(t, op, mem);
    var t' := Step(t, op, mem);
    if op.String? {
      assert t'.handed == [t'.handed[0]] + t.handed;
    }
  }

  lemma CalledDue(w: World, i: nat, op: Op, mem: Region)
    requires i <= |w.others| && Ready(ArenaOf(w, i).s) && HandedOk(ArenaOf(w, i)) && w.heap.Heap?
    ensures Due(Called(w, i, op, mem)) == Due(w) + IssuedBy(w, Call(i, op, mem))
  {
    hide Ready, HandedOk, Step;
    var t', more := Step(ArenaOf(w, i), op, mem), IssuedBy(w, Call(i, op, mem));
    StepDue(ArenaOf(w, i), op, mem);
    if i > 0 {
      HandedUpdate(w.others, i - 1, t', more);
    }
  }

  lemma CalledKeepsDue(w: World, policy: Policy, i: nat, op: Op, mem: Region)
    requires HeldInv(w) && Enabled(w, policy, Call(i, op, mem))
    ensures Due(Next(w, policy, Call(i, op, mem))) == Due(w) + IssuedBy(w, Call(i, op, mem))
  {
    hide HeldInv, IssuedBy, Due, Callable, Grants, Ready, Called;
    HeldHeap(w);
    ArenaSound(w, i);
    CalledHeld(w, i, policy, op, mem);
    CalledDue(w, i, op, mem);
  }

  lemma JoinedKeepsDue(w: World, mem: Region)
    requires w.heap.Heap?
    ensures Due(Joined(w, mem)) == Due(w)
  {
    assert Joined(w, mem).others[..|w.others|] == w.others;
  }

  lemma ResetClearsDue(w: World)
    ensures Due(AfterReset(w)) == multiset{}
  {
  }

  lemma NextDue(w: World, policy: Policy, e: Event)
    requires HeldInv(w) && Enabled(w, policy, e)
    ensures Due(Next(w, policy, e)) + DestroyedBy(w, e) == Due(w) + IssuedBy(w, e)
  {
    hide HeldInv, Callable, Grants, IssuedBy, Due, Joined, AfterReset;
    match e {
      case Call(i, op, mem) => CalledKeepsDue(w, policy, i, op, mem);
      case Join(n, mem) =>
        HeldHeap(w);
        JoinedKeepsDue(w, mem);
        NothingIssued(w, e);
      case Reset =>
        ResetClearsDue(w);
        NothingIssued(w, e);
    }
  }

  lemma NothingIssued(w: World, e: Event)
    requires !e.Call?
    ensures IssuedBy(w, e) == multiset{}
  {
  }

  function IssuedUpTo(ws: seq<World>, es: seq<Event>, k: nat): multiset<Region>
    requires k <= |es| <= |ws|
  {
    if k == 0 then multiset{} else IssuedUpTo(ws, es, k - 1) + IssuedBy(ws[k - 1], es[k - 1])
  }

  function DestroyedUpTo(ws: seq<World>, es: seq<Event>, k: nat): multiset<Region>
    requires k <= |es| <= |ws|
  {
    if k == 0 then multiset{} else DestroyedUpTo(ws, es, k - 1) + DestroyedBy(ws[k - 1], es[k - 1])
  }

  lemma LifeSteps(ws: seq<World>, policy: Policy, es: seq<Event>, k: nat)
    requires IsLife(ws, policy, es) && k < |es|
    ensures |ws| == |es| + 1 && HeldInv(ws[k]) && Enabled(ws[k], policy, es[k]) && ws[k + 1] == Next(ws[k], policy, es[k])
  {
    hide HeldInv, Next, Enabled, Destroyed, Inv;
    LifeHeld(ws, policy, es, k);
    assert IsNext(ws[k], policy, es[k], ws[k + 1]);
  }

  lemma LifeLength(ws: seq<World>, policy: Policy, es: seq<Event>)
    requires IsLife(ws, policy, es)
    ensures |ws| == |es| + 1
  {
  }

  /** Over every life each string handed out is destroyed once: by the next Reset, or by the
      destructor if none follows. */
  lemma {:induction false} StringsDestroyedOnce(ws: seq<World>, policy: Policy, es: seq<Event>, k: nat)
    requires IsLife(ws, policy, es) && k < |ws|
    ensures Due(ws[0]) + IssuedUpTo(ws, es, k) == DestroyedUpTo(ws, es, k) + Due(ws[k])
  {
    hide IsLife, HeldInv, Next, Enabled, Due, IssuedBy, DestroyedBy;
    LifeLength(ws, policy, es);
    if k > 0 {
      LifeSteps(ws, policy, es, k - 1);
      StringsDestroyedOnce(ws, policy, es, k - 1);
      NextDue(ws[k - 1], policy, es[k - 1]);
      Exchange(Due(ws[0]), IssuedUpTo(ws, es, k - 1), IssuedBy(ws[k - 1], es[k - 1]), DestroyedUpTo(ws, es, k - 1),
        DestroyedBy(ws[k - 1], es[k - 1]), Due(ws[k - 1]), Due(ws[k]));
    }
  }

  lemma Exchange(start: multiset<Region>, issued: multiset<Region>, more: multiset<Region>, gone: multiset<Region>,
                 now: multiset<Region>, due: multiset<Region>, due': multiset<Region>)
    requires start + issued == gone + due && due' + now == due + more
    ensures start + (issued + more) == (gone + now) + due'
  {
    assert start + (issued + more) == (start + issued) + more;
    assert (gone + now) + due' == gone + (due' + now);
    assert gone + (due + more) == (gone + due) + more;
  }

  // ----- out of order -----

  /** A block of 256 bytes at 4096 from which everything below `ptr` has been taken. */
  function UpTo(ptr: nat, objects: seq<Region>, direct: nat): Trace {
    Trace(Arena(Block(Region(4096, 256), Null), ptr, 4352, NoStrings, 0, 0, 256, []), objects, [], direct, 0)
  }

  lemma TwelveBytes(mem: Region)
    ensures Step(UpTo(4112, [], 0), Over(12, 16), mem) == UpTo(4132, [Region(4112, 12)], 20)
  {
    assert CeilTo(4112, 16) == 4112;
    NoWrap(4132);
  }

  lemma SixteenBytes(objects: seq<Region>, mem: Region)
    ensures Step(UpTo(4132, objects, 20), Over(16, 16), mem) == UpTo(4156, objects + [Region(4144, 16)], 44)
  {
    assert CeilTo(4132, 16) == 4144;
    NoWrap(4156);
  }

  lemma EightBytes(objects: seq<Region>, mem: Region)
    ensures Step(UpTo(4156, objects, 44), Bytes(8), mem) == UpTo(4164, objects + [Region(4156, 8)], 52)
  {
    NoWrap(4164);
  }

  lemma NewlyOpened()
    ensures Inv(UpTo(4112, [], 0))
  {
    hide Inv;
    FreshArenaInv(Region(4096, 256), 0);
    assert Down8(256) == 256;
  }

  /** Calls one after the other, none of which needs the allocator. */
  function AfterCalls(t: Trace, ops: seq<Op>, mem: Region): Trace
    decreases |ops|
  {
    if ops == [] || !Ready(t.s) then t else AfterCalls(Step(t, ops[0], mem), ops[1..], mem)
  }

  lemma OneCall(t: Trace, op: Op, ops: seq<Op>, mem: Region)
    requires Ready(t.s)
    ensures AfterCalls(t, [op] + ops, mem) == AfterCalls(Step(t, op, mem), ops, mem)
  {
    hide Step, Ready;
    assert ([op] + ops)[1..] == ops;
  }

  /** The size asserted only in debug builds: 12 bytes aligned to 16 leave the pointer off
      its words, the next 16 bytes aligned to 16 reach past what is taken for them, and the
      allocation after that overlaps them. */
  lemma BrokenWordOverlaps(mem: Region)
    ensures var t := UpTo(4112, [], 0);
            && Inv(t) && AfterCalls(t, [Over(12, 16)] + [], mem).s.ptr % 8 != 0
            && AfterCalls(t, [Over(12, 16)] + ([Over(16, 16)] + ([Bytes(8)] + [])), mem).objects
               == [Region(4112, 12)] + [Region(4144, 16)] + [Region(4156, 8)]
    ensures !Apart(Region(4144, 16), Region(4156, 8))
  {
    hide Inv, Step, AfterCalls;
    NewlyOpened();
    TwelveBytes(mem);
    OneCall(UpTo(4112, [], 0), Over(12, 16), [], mem);
    OneCall(UpTo(4112, [], 0), Over(12, 16), [Over(16, 16)] + ([Bytes(8)] + []), mem);
    var one := [Region(4112, 12)];
    SixteenBytes(one, mem);
    OneCall(UpTo(4132, one, 20), Over(16, 16), [Bytes(8)] + [], mem);
    var two := one + [Region(4144, 16)];
    EightBytes(two, mem);
    OneCall(UpTo(4156, two, 44), Bytes(8), [], mem);
    NoCalls(UpTo(4132, one, 20), mem);
    NoCalls(UpTo(4164, two + [Region(4156, 8)], 52), mem);
  }

  lemma NoCalls(t: Trace, mem: Region)
    ensures AfterCalls(t, [], mem) == t
  {
  }

  /** The retry can fail: a custom allocator that returns just the 316 bytes asked for, and
      the call returns null. */
  lemma BrokenWordIsRefused()
    ensures var mem := Region(4096, 316);
            var t := SentryArena();
            && PowerOfTwo(16) && Reserve(Over(292, 16)) == 300
            && Grants(t.s, multiset{}, Policy(256, 256), Over(292, 16), mem)
            && !Served(t.s, Over(292, 16), mem) && Step(t, Over(292, 16), mem).objects == []
  {
    assert PowerOfTwo(2) && PowerOfTwo(4) && PowerOfTwo(8);
  }

  // ----- the sentry's undercount, reached -----

  /** Calls for strings one after the other, with what the allocator returns to each. */
  function AfterStrings(t: Trace, mems: seq<Region>): Trace
    decreases |mems|
  {
    if mems == [] || !Ready(t.s) then t else AfterStrings(Step(t, String, mems[0]), mems[1..])
  }

  lemma {:induction false} PopsOnly(t: Trace, mems: seq<Region>)
    requires Ready(t.s) && t.s.unused >= STRING * |mems|
    ensures AfterStrings(t, mems).s == t.s.(unused := t.s.unused - STRING * |mems|)
    ensures |AfterStrings(t, mems).handed| == |t.handed| + |mems|
    decreases |mems|
  {
    if mems != [] {
      PopsOnly(Step(t, String, mems[0]), mems[1..]);
    }
  }

  lemma {:induction false} StringsThenOne(t: Trace, mems: seq<Region>, mem: Region)
    requires Ready(AfterStrings(t, mems).s) && Ready(t.s)
    ensures AfterStrings(t, mems + [mem]) == Step(AfterStrings(t, mems), String, mem)
    decreases |mems|
  {
    if mems == [] {
      assert [mem][1..] == [];
    } else {
      StepReadyString(t, mems[0]);
      assert (mems + [mem])[1..] == mems[1..] + [mem];
      StringsThenOne(Step(t, String, mems[0]), mems[1..], mem);
    }
  }

  lemma NewStringsReady(t: Trace, at: nat)
    requires Ready(t.s)
    ensures NextSize(t.s.strings) >= MIN_STRINGS && Ready(NewStrings(t, at).s)
    ensures NewStrings(t, at).s.strings.Strings? && NewStrings(t, at).s.unused >= STRING
  {
    SizesOk(t.s.strings);
  }

  lemma PopReady(t: Trace)
    requires Ready(t.s) && t.s.unused > 0
    ensures t.s.unused >= STRING && Ready(PopString(t).s)
  {
  }

  lemma StepReadyString(t: Trace, mem: Region)
    requires Ready(t.s)
    ensures Ready(Step(t, String, mem).s)
  {
    hide Ready, NewStrings, PopString;
    if t.s.unused == 0 {
      NewStringsReady(t, mem.at);
      PopReady(NewStrings(t, mem.at));
    } else {
      PopReady(t);
    }
  }

  /** Eight strings of a new arena, seven in a heap block that is then retired and one in
      the next: SpaceUsed reports one of them. */
  lemma SentryUndercounts()
    ensures var a, b := Region(1024, 240), Region(2048, 240);
            var t := AfterStrings(SentryArena(), [a, a, a, a, a, a, a, b]);
            && |t.handed| == 8 && t.s.head.Sentry? && t.s.strings.Strings?
            && t.s.unused + STRINGS_HEADER <= t.s.strings.size && SpaceUsed(t.s) == STRING
  {
    var a, b := Region(1024, 240), Region(2048, 240);
    var t0 := SentryArena();
    var t1 := Step(t0, String, a);
    var six := [a, a, a, a, a, a];
    PopsOnly(t1, six);
    assert ([a] + six)[1..] == six;
    assert AfterStrings(t0, [a] + six) == AfterStrings(t1, six);
    StringsThenOne(t0, [a] + six, b);
    assert [a] + six + [b] == [a, a, a, a, a, a, a, b];
  }
}
