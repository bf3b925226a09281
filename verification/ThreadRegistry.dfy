/** The table of per-thread arenas inside one ThreadSafeArena: the lock-free slot
    reservation of SerialArenaChunk::insert, the mutex-protected growth of
    AddSerialArena, and the lookup of GetSerialArenaFallback, as one state machine
    in which any number of threads interleave one atomic access at a time. */
module ThreadRegistry {
  import opened Common

  type Thread = nat
  type Serial = nat

  /** The arena embedded in the ThreadSafeArena itself; it is never in the table. */
  const FIRST: Serial := 0

  /** A SerialArenaChunk. `claims` is a history variable: the threads to which
      fetch_add handed out index 0, 1, 2, ... of this chunk. */
  datatype Chunk = Chunk(
    next: nat, capacity: nat, size: nat,
    ids: seq<Option<Thread>>, arenas: seq<Option<Serial>>,
    claims: seq<Thread>)

  /** Where a thread stands; each case names the next atomic access. `locked` tells
      the insert under the mutex from the one on the fast path. */
  datatype Pc =
    | Outside
    | SearchChunk(chunk: nat, found: Option<Serial>)
    | SearchSlot(chunk: nat, i: nat, n: nat, found: Option<Serial>)
    | LoadHead(serial: Serial)
    | FetchAdd(chunk: nat, serial: Serial, locked: bool)
    | StoreBack(chunk: nat, serial: Serial, locked: bool)
    | StoreId(chunk: nat, idx: nat, serial: Serial, locked: bool)
    | StoreArena(chunk: nat, idx: nat, serial: Serial, locked: bool)
    | WantLock(chunk: nat, serial: Serial)
    | Refetch(chunk: nat, serial: Serial)
    | Grow(chunk: nat, serial: Serial)
    | Publish(chunk: nat, serial: Serial)
    | Unlock(serial: Serial)
    | Returned(serial: Serial)

  /** Chunks are named by their index; chunk 0 is the static sentry. `owner` and `slot`
      are history variables: the serial arena created for a thread, and the slot it
      was handed. */
  datatype State = State(
    chunks: seq<Chunk>, head: nat, mutex: Option<Thread>, pc: map<Thread, Pc>,
    firstOwner: Thread, nextSerial: Serial,
    owner: map<Thread, Serial>, slot: map<Thread, (nat, nat)>)

  const SENTRY := Chunk(0, 0, 0, [], [], [])

  predicate Init(s: State) {
    && s.chunks == [SENTRY] && s.head == 0 && s.mutex == None
    && (forall t <- s.pc :: s.pc[t] == Outside)
    && s.nextSerial == 1 && s.owner == map[] && s.slot == map[]
  }

  /** NewSerialArenaChunk on x64: 16 header bytes and 16 bytes per entry, growing four
      times up to 4096 bytes. */
  function NextCapacity(prev: nat): (c: nat)
    ensures 3 <= c <= 255
    ensures prev < 255 ==> c > prev
    ensures prev <= 63 ==> c + 1 == 4 * (prev + 1)
    ensures prev >= 63 ==> c == 255
  {
    (Min(4096, (16 + 16 * prev) * 4) - 16) / 16
  }

  predicate Enabled(s: State, t: Thread) {
    && t in s.pc
    && (s.pc[t].WantLock? ==> s.mutex == None)
    && PcInRange(s, s.pc[t])
  }

  predicate PcInRange(s: State, p: Pc) {
    && s.head < |s.chunks|
    && (!(p.Outside? || p.LoadHead? || p.Unlock? || p.Returned?) ==> p.chunk < |s.chunks|)
    && (p.SearchSlot? && p.i < p.n ==> p.i < |s.chunks[p.chunk].ids| && p.i < |s.chunks[p.chunk].arenas|)
    && (p.StoreId? ==> p.idx < |s.chunks[p.chunk].ids|)
    && (p.StoreArena? ==> p.idx < |s.chunks[p.chunk].arenas|)
  }

  function Goto(s: State, t: Thread, p: Pc): State {
    s.(pc := s.pc[t := p])
  }

  function Put(s: State, t: Thread, c: nat, ch: Chunk, p: Pc): State
    requires c < |s.chunks|
  {
    Goto(s, t, p).(chunks := s.chunks[c := ch])
  }

  function SafeSize(c: Chunk): nat {
    Min(c.capacity, c.size)
  }

  /** The next atomic access of thread `t`. `extra` is how many entries more than asked
      for the memory returned by AllocateAtLeast has room for. */
  function Step(s: State, t: Thread, extra: nat): State
    requires Enabled(s, t)
  {
    match s.pc[t]
    case Outside => Enter(s, t)
    case Returned(_) => Enter(s, t)
    case SearchChunk(c, found) =>
      if s.chunks[c].capacity != 0 then
        Goto(s, t, SearchSlot(c, 0, SafeSize(s.chunks[c]), found))
      else if found.Some? then
        Goto(s, t, Returned(found.value))
      else
        Goto(s, t, LoadHead(s.nextSerial)).(nextSerial := s.nextSerial + 1, owner := s.owner[t := s.nextSerial])
    case SearchSlot(c, i, n, found) =>
      if i >= n then
        Goto(s, t, SearchChunk(s.chunks[c].next, found))
      else if s.chunks[c].ids[i] == Some(t) then
        Goto(s, t, SearchChunk(s.chunks[c].next, s.chunks[c].arenas[i]))
      else
        Goto(s, t, SearchSlot(c, i + 1, n, found))
    case LoadHead(x) =>
      if s.chunks[s.head].capacity == 0 then Goto(s, t, WantLock(s.head, x))
      else Goto(s, t, FetchAdd(s.head, x, false))
    case FetchAdd(c, x, locked) => Reserve(s, t, c, x, locked)
    case StoreBack(c, x, locked) =>
      Put(s, t, c, s.chunks[c].(size := s.chunks[c].capacity), if locked then Grow(c, x) else WantLock(c, x))
    case StoreId(c, i, x, locked) =>
      Put(s, t, c, s.chunks[c].(ids := s.chunks[c].ids[i := Some(t)]), StoreArena(c, i, x, locked))
    case StoreArena(c, i, x, locked) =>
      Put(s, t, c, s.chunks[c].(arenas := s.chunks[c].arenas[i := Some(x)]),
          if locked then Unlock(x) else Returned(x))
    case WantLock(c, x) => Goto(s.(mutex := Some(t)), t, Refetch(c, x))
    case Refetch(c, x) =>
      if s.head != c then Goto(s, t, FetchAdd(s.head, x, true)) else Goto(s, t, Grow(c, x))
    case Grow(c, x) => Append(s, t, NewChunk(c, NextCapacity(s.chunks[c].capacity) + extra, t, x), x)
    case Publish(k, x) => Goto(s.(head := k), t, Unlock(x))
    case Unlock(x) => Goto(s.(mutex := None), t, Returned(x))
  }

  /** GetSerialArenaFallback: the owner of the first arena gets it back at once, anybody
      else searches the table from the head chunk. */
  function Enter(s: State, t: Thread): State {
    if t == s.firstOwner then Goto(s, t, Returned(FIRST)) else Goto(s, t, SearchChunk(s.head, None))
  }

  /** `size().fetch_add(1)`, a 32-bit counter, and the test of the index it returned. */
  function Reserve(s: State, t: Thread, c: nat, x: Serial, locked: bool): State
    requires c < |s.chunks|
  {
    var ch := s.chunks[c];
    var bumped := ch.(size := (ch.size + 1) % U32);
    if ch.size >= ch.capacity then
      Put(s, t, c, bumped, StoreBack(c, x, locked))
    else
      Put(s, t, c, bumped.(claims := ch.claims + [t]), StoreId(c, ch.size, x, locked))
      .(slot := s.slot[t := (c, ch.size)])
  }

  function Append(s: State, t: Thread, ch: Chunk, x: Serial): State {
    Goto(s, t, Publish(|s.chunks|, x)).(chunks := s.chunks + [ch], slot := s.slot[t := (|s.chunks|, 0)])
  }

  function NewChunk(next: nat, cap: nat, t: Thread, x: Serial): Chunk
    requires cap >= 1
  {
    Chunk(next, cap, 1,
          seq(cap, i requires 0 <= i < cap => if i == 0 then Some(t) else None),
          seq(cap, i requires 0 <= i < cap => if i == 0 then Some(x) else None),
          [t])
  }

  /** The threads between a failing fetch_add on chunk `c` and the store that follows it. */
  function Overshooting(s: State, c: nat): set<Thread> {
    set t | t in s.pc && s.pc[t].StoreBack? && s.pc[t].chunk == c
  }

  /** No chunk has 2^32 - capacity threads stuck between the two accesses, so the 32-bit
      counter does not wrap. */
  predicate NoWrap(s: State) {
    forall c | 0 <= c < |s.chunks| :: s.chunks[c].capacity + |Overshooting(s, c)| + 1 < U32
  }

  // ----- the invariant -----

  predicate ChunkOk(s: State, c: nat)
    requires c < |s.chunks|
  {
    var ch := s.chunks[c];
    && (c == 0 ==> ch == SENTRY)
    && (c > 0 ==> ch.next == c - 1 && ch.capacity >= 1 && ch.size >= 1)
    && |ch.ids| == |ch.arenas| == ch.capacity
    && |ch.claims| == SafeSize(ch)
    && ch.size <= ch.capacity + |Overshooting(s, c)|
  }

  predicate ClaimOk(s: State, c: nat, i: nat)
    requires c < |s.chunks| && i < |s.chunks[c].claims|
  {
    var u := s.chunks[c].claims[i];
    u in s.slot && s.slot[u] == (c, i)
  }

  /** What slot `i` of chunk `c` holds, given how far its claimant has come. */
  predicate SlotOk(s: State, c: nat, i: nat)
    requires c < |s.chunks| && ChunkOk(s, c) && i < |s.chunks[c].ids|
  {
    var ch := s.chunks[c];
    if i < |ch.claims| then
      var u := ch.claims[i];
      && u in s.pc && u in s.owner
      && (ch.ids[i] == if s.pc[u].StoreId? then None else Some(u))
      && (ch.arenas[i] == if s.pc[u].StoreId? || s.pc[u].StoreArena? then None else Some(s.owner[u]))
    else
      ch.ids[i] == None && ch.arenas[i] == None
  }

  predicate ChunksOk(s: State) {
    && |s.chunks| >= 1
    && (forall c | 0 <= c < |s.chunks| :: ChunkOk(s, c))
  }

  predicate SlotsOk(s: State)
    requires ChunksOk(s)
  {
    && (forall c, i | 0 <= c < |s.chunks| && 0 <= i < |s.chunks[c].claims| :: ClaimOk(s, c, i))
    && (forall c, i | 0 <= c < |s.chunks| && 0 <= i < |s.chunks[c].ids| :: SlotOk(s, c, i))
    && (forall t <- s.slot :: SlotOwned(s, t))
  }

  predicate SlotOwned(s: State, t: Thread)
    requires t in s.slot
  {
    var (c, i) := s.slot[t];
    1 <= c < |s.chunks| && i < |s.chunks[c].claims| && s.chunks[c].claims[i] == t
  }

  predicate OwnersOk(s: State) {
    && s.nextSerial > FIRST
    && (forall t <- s.owner :: t in s.pc && t != s.firstOwner && FIRST < s.owner[t] < s.nextSerial)
    && (forall t, u | t in s.owner && u in s.owner && s.owner[t] == s.owner[u] :: t == u)
    && (forall t <- s.slot :: t in s.owner)
  }

  predicate HoldsLock(p: Pc) {
    || ((p.FetchAdd? || p.StoreBack? || p.StoreId? || p.StoreArena?) && p.locked)
    || p.Refetch? || p.Grow? || p.Publish? || p.Unlock?
  }

  /** All chunks are published except possibly the last, which a thread holding the
      mutex is about to publish. */
  predicate HeadOk(s: State) {
    && s.head < |s.chunks|
    && (s.mutex.Some? ==> s.mutex.value in s.pc && HoldsLock(s.pc[s.mutex.value]))
    && (forall t | t in s.pc && HoldsLock(s.pc[t]) :: s.mutex == Some(t))
    && (s.head + 1 == |s.chunks|
        || (s.head + 2 == |s.chunks| && s.mutex.Some? && s.pc[s.mutex.value].Publish?))
  }

  /** A thread whose arena exists but has no slot yet. */
  predicate Unregistered(s: State, t: Thread, x: Serial) {
    t in s.owner && s.owner[t] == x && t !in s.slot
  }

  predicate Registered(s: State, t: Thread, x: Serial) {
    t in s.owner && s.owner[t] == x && t in s.slot
  }

  /** A search that has come to (c, i) has met the thread's own slot if and only if that
      slot is behind it. */
  predicate SearchOk(s: State, t: Thread, c: nat, i: nat, found: Option<Serial>) {
    && t != s.firstOwner
    && (t in s.owner <==> t in s.slot)
    && (t !in s.slot ==> found == None)
    && (t in s.slot ==> s.slot[t].0 <= s.head)
    && (t in s.slot ==> found == if Ahead(s.slot[t], c, i) then None else Some(s.owner[t]))
  }

  predicate Ahead(slot: (nat, nat), c: nat, i: nat) {
    slot.0 < c || (slot.0 == c && i <= slot.1)
  }

  predicate PcOk(s: State, t: Thread)
    requires t in s.pc && s.head < |s.chunks|
  {
    match s.pc[t]
    case Outside => t !in s.owner
    case SearchChunk(c, found) => c <= s.head && SearchOk(s, t, c, 0, found)
    case SearchSlot(c, i, n, found) =>
      && 1 <= c <= s.head && n <= |s.chunks[c].claims| && SearchOk(s, t, c, i, found)
      && (found == None && t in s.slot && s.slot[t].0 == c ==> s.slot[t].1 < n)
    case LoadHead(x) => Unregistered(s, t, x)
    case FetchAdd(c, x, _) => Unregistered(s, t, x) && 1 <= c <= s.head && (s.pc[t].locked ==> c == s.head)
    case StoreBack(c, x, _) =>
      && Unregistered(s, t, x) && 1 <= c <= s.head && s.chunks[c].size >= s.chunks[c].capacity
      && (s.pc[t].locked ==> c == s.head)
    case StoreId(c, i, x, _) => Registered(s, t, x) && s.slot[t] == (c, i) && c <= s.head
    case StoreArena(c, i, x, _) => Registered(s, t, x) && s.slot[t] == (c, i) && c <= s.head
    case WantLock(c, x) => Unregistered(s, t, x) && c <= s.head
    case Refetch(c, x) => Unregistered(s, t, x) && c <= s.head
    case Grow(c, x) => Unregistered(s, t, x) && c == s.head
    case Publish(k, x) => Registered(s, t, x) && k == s.head + 1 == |s.chunks| - 1
    case Unlock(x) => Registered(s, t, x) && s.slot[t].0 <= s.head
    case Returned(x) => if x == FIRST then t == s.firstOwner else Registered(s, t, x) && s.slot[t].0 <= s.head
  }

  predicate Inv(s: State) {
    && ChunksOk(s) && SlotsOk(s) && OwnersOk(s) && HeadOk(s)
    && (forall t <- s.pc :: PcOk(s, t))
  }

  // ----- every step keeps the invariant -----

  lemma InitInv(s: State)
    requires Init(s)
    ensures Inv(s)
  {
  }

  lemma OvershootingAfter(s: State, s': State, t: Thread, p: Pc, c: nat)
    requires t in s.pc && s'.pc == s.pc[t := p]
    ensures var o := Overshooting(s, c);
            var o' := Overshooting(s', c);
            o' == if p.StoreBack? && p.chunk == c then o + {t} else o - {t}
    ensures |Overshooting(s', c)| ==
            |Overshooting(s, c)|
            + (if p.StoreBack? && p.chunk == c then 1 else 0)
            - (if s.pc[t].StoreBack? && s.pc[t].chunk == c then 1 else 0)
  {
    var o := Overshooting(s, c);
    var o' := Overshooting(s', c);
    assert o' == if p.StoreBack? && p.chunk == c then o + {t} else o - {t};
    if t in o {
      assert o == (o - {t}) + {t};
    }
  }

  /** Steps that leave the table alone, and do not move to or from a pending store, keep
      what is said of the table. */
  lemma GotoKeepsChunks(s: State, s': State, t: Thread, p: Pc)
    requires ChunksOk(s) && t in s.pc && s'.chunks == s.chunks && s'.pc == s.pc[t := p]
    requires !Storing(s.pc[t]) && !Storing(p)
    ensures ChunksOk(s')
  {
    forall c | 0 <= c < |s'.chunks| ensures ChunkOk(s', c) {
      assert ChunkOk(s, c);
      OvershootingAfter(s, s', t, p, c);
    }
  }

  lemma GotoKeepsSlots(s: State, s': State, t: Thread, p: Pc)
    requires ChunksOk(s) && SlotsOk(s) && ChunksOk(s') && t in s.pc
    requires s'.chunks == s.chunks && s'.slot == s.slot && s'.pc == s.pc[t := p]
    requires s'.owner == s.owner || (t !in s.slot && t in s'.owner && s'.owner == s.owner[t := s'.owner[t]])
    requires !Storing(s.pc[t]) && !Storing(p)
    ensures SlotsOk(s')
  {
    forall c, i | 0 <= c < |s'.chunks| && 0 <= i < |s'.chunks[c].claims| ensures ClaimOk(s', c, i) {
      assert ClaimOk(s, c, i);
    }
    forall c, i | 0 <= c < |s'.chunks| && 0 <= i < |s'.chunks[c].ids| ensures SlotOk(s', c, i) {
      assert SlotOk(s, c, i);
      assert i < |s.chunks[c].claims| ==> ClaimOk(s, c, i);
    }
    forall u <- s'.slot ensures SlotOwned(s', u) {
      assert SlotOwned(s, u);
    }
  }

  predicate Storing(p: Pc) {
    p.StoreBack? || p.StoreId? || p.StoreArena?
  }

  /** The chunk as it may look after a step of another thread. */
  predicate ChunkGrew(a: Chunk, b: Chunk) {
    && a.capacity == b.capacity && |a.claims| <= |b.claims|
    && (a.size >= a.capacity ==> b.size >= b.capacity)
  }

  /** A step of `t` as the other threads see it. */
  predicate StepOf(s: State, s': State, t: Thread) {
    && t in s.pc && t in s'.pc && s'.pc == s.pc[t := s'.pc[t]] && s'.firstOwner == s.firstOwner
    && (s'.owner == s.owner || (t in s'.owner && s'.owner == s.owner[t := s'.owner[t]]))
    && (s'.slot == s.slot || (t in s'.slot && s'.slot == s.slot[t := s'.slot[t]]))
    && s.head <= s'.head < |s'.chunks| && |s.chunks| <= |s'.chunks|
    && (HoldsLock(s.pc[t]) || (s'.head == s.head && |s'.chunks| == |s.chunks|))
    && (forall c | 0 <= c < |s.chunks| :: ChunkGrew(s.chunks[c], s'.chunks[c]))
  }

  lemma OtherOk(s: State, s': State, t: Thread, u: Thread)
    requires s.head < |s.chunks| && StepOf(s, s', t) && u in s.pc && u != t
    requires HoldsLock(s.pc[u]) ==> !HoldsLock(s.pc[t])
    requires PcOk(s, u)
    ensures PcOk(s', u)
  {
  }

  lemma PcsOk(s: State, s': State, t: Thread)
    requires HeadOk(s) && (forall u <- s.pc :: PcOk(s, u))
    requires StepOf(s, s', t) && PcOk(s', t)
    ensures forall u <- s'.pc :: PcOk(s', u)
  {
    forall u | u in s'.pc && u != t ensures PcOk(s', u) { OtherOk(s, s', t, u); }
  }

  /** A step that rewrites chunk `c0` and is not a reservation. */
  lemma PutKeepsChunks(s: State, s': State, t: Thread, c0: nat, ch: Chunk, p: Pc)
    requires ChunksOk(s) && t in s.pc && 1 <= c0 < |s.chunks| && s' == Put(s, t, c0, ch, p).(slot := s'.slot)
    requires s.pc[t].StoreBack? ==> s.pc[t].chunk == c0
    requires p.StoreBack? ==> p.chunk == c0
    requires ch.next == c0 - 1 && ch.capacity >= 1 && ch.size >= 1
    requires |ch.ids| == |ch.arenas| == ch.capacity && |ch.claims| == SafeSize(ch)
    requires ch.size <= ch.capacity
             || ch.size <= ch.capacity + |Overshooting(s, c0)|
                           + (if p.StoreBack? then 1 else 0) - (if s.pc[t].StoreBack? then 1 else 0)
    ensures ChunksOk(s')
  {
    forall c | 0 <= c < |s'.chunks| ensures ChunkOk(s', c) {
      assert ChunkOk(s, c);
      OvershootingAfter(s, s', t, p, c);
    }
  }

  /** Steps that change nothing in the chunks but their sizes. */
  lemma ResizeKeepsSlots(s: State, s': State, t: Thread)
    requires ChunksOk(s) && SlotsOk(s) && ChunksOk(s') && |s.chunks| == |s'.chunks| && s'.slot == s.slot
    requires s'.owner == s.owner && t !in s.slot && t in s.pc && t in s'.pc && s'.pc == s.pc[t := s'.pc[t]]
    requires forall c | 0 <= c < |s.chunks| :: s'.chunks[c] == s.chunks[c].(size := s'.chunks[c].size)
    ensures SlotsOk(s')
  {
    forall c, i | 0 <= c < |s'.chunks| && 0 <= i < |s'.chunks[c].claims| ensures ClaimOk(s', c, i) {
      assert ClaimOk(s, c, i);
    }
    forall c, i | 0 <= c < |s'.chunks| && 0 <= i < |s'.chunks[c].ids| ensures SlotOk(s', c, i) {
      assert SlotOk(s, c, i);
      assert i < |s.chunks[c].claims| ==> ClaimOk(s, c, i);
    }
    forall u <- s'.slot ensures SlotOwned(s', u) {
      assert SlotOwned(s, u);
    }
  }

  lemma SizeBelowWrap(s: State, c: nat)
    requires ChunksOk(s) && NoWrap(s) && c < |s.chunks|
    ensures s.chunks[c].size + 1 < U32
  {
    assert ChunkOk(s, c);
  }

  lemma ReserveKeepsSlots(s: State, s': State, t: Thread)
    requires ChunksOk(s) && SlotsOk(s) && t in s.pc && t in s.owner && t !in s.slot && s.pc[t].FetchAdd?
    requires s.pc[t].chunk < |s.chunks| && s' == Reserve(s, t, s.pc[t].chunk, s.pc[t].serial, s.pc[t].locked)
    requires ChunksOk(s') && s'.pc[t].StoreId? && s.pc[t].chunk >= 1
    ensures SlotsOk(s')
  {
    var c0 := s.pc[t].chunk;
    assert ChunkOk(s, c0);
    forall c, i | 0 <= c < |s'.chunks| && 0 <= i < |s'.chunks[c].claims| ensures ClaimOk(s', c, i) {
      assert i < |s.chunks[c].claims| ==> ClaimOk(s, c, i);
    }
    forall c, i | 0 <= c < |s'.chunks| && 0 <= i < |s'.chunks[c].ids| ensures SlotOk(s', c, i) {
      assert SlotOk(s, c, i);
      assert i < |s.chunks[c].claims| ==> ClaimOk(s, c, i);
    }
    forall u <- s'.slot ensures SlotOwned(s', u) {
      assert u != t ==> SlotOwned(s, u);
    }
  }

  lemma StoreKeepsSlots(s: State, s': State, t: Thread)
    requires ChunksOk(s) && SlotsOk(s) && ChunksOk(s') && s.head < |s.chunks|
    requires t in s.pc && (s.pc[t].StoreId? || s.pc[t].StoreArena?) && PcOk(s, t)
    requires Enabled(s, t) && s' == Step(s, t, 0)
    ensures SlotsOk(s')
  {
    assert SlotOwned(s, t);
    assert ChunkOk(s, s.pc[t].chunk);
    assert SlotOk(s, s.pc[t].chunk, s.pc[t].idx);
    forall c, i | 0 <= c < |s'.chunks| && 0 <= i < |s'.chunks[c].claims| ensures ClaimOk(s', c, i) {
      assert ClaimOk(s, c, i);
    }
    forall c, i | 0 <= c < |s'.chunks| && 0 <= i < |s'.chunks[c].ids| ensures SlotOk(s', c, i) {
      assert SlotOk(s, c, i);
      assert i < |s.chunks[c].claims| ==> ClaimOk(s, c, i);
    }
    forall u <- s'.slot ensures SlotOwned(s', u) {
      assert SlotOwned(s, u);
    }
  }

  lemma AppendKeepsChunks(s: State, s': State, t: Thread, ch: Chunk, x: Serial)
    requires ChunksOk(s) && t in s.pc && !Storing(s.pc[t])
    requires ch.capacity >= 1 && ch == NewChunk(|s.chunks| - 1, ch.capacity, t, x) && s' == Append(s, t, ch, x)
    ensures ChunksOk(s')
  {
    forall c | 0 <= c < |s'.chunks| ensures ChunkOk(s', c) {
      if c < |s.chunks| {
        assert ChunkOk(s, c);
        OvershootingAfter(s, s', t, s'.pc[t], c);
      }
    }
  }

  lemma AppendKeepsSlots(s: State, s': State, t: Thread, ch: Chunk, x: Serial)
    requires ChunksOk(s) && SlotsOk(s) && ChunksOk(s') && t in s.pc && !Storing(s.pc[t])
    requires t in s.owner && t !in s.slot && s.owner[t] == x
    requires ch.capacity >= 1 && ch == NewChunk(|s.chunks| - 1, ch.capacity, t, x) && s' == Append(s, t, ch, x)
    ensures SlotsOk(s')
  {
    var k := |s.chunks|;
    forall c, i | 0 <= c < |s'.chunks| && 0 <= i < |s'.chunks[c].claims| ensures ClaimOk(s', c, i) {
      assert c < k ==> ClaimOk(s, c, i);
    }
    forall c, i | 0 <= c < |s'.chunks| && 0 <= i < |s'.chunks[c].ids| ensures SlotOk(s', c, i) {
      assert c < k ==> SlotOk(s, c, i);
      assert c < k && i < |s.chunks[c].claims| ==> ClaimOk(s, c, i);
    }
    forall u <- s'.slot ensures SlotOwned(s', u) {
      assert u != t ==> SlotOwned(s, u);
    }
  }

  predicate CanStep(s: State, t: Thread) {
    Enabled(s, t) && PcOk(s, t)
  }

  predicate Core(s: State) {
    ChunksOk(s) && SlotsOk(s) && OwnersOk(s) && HeadOk(s)
  }

  /** What a step of `t` has to establish. */
  predicate Good(s: State, s': State, t: Thread) {
    Core(s') && StepOf(s, s', t) && PcOk(s', t)
  }

  /** What a step of `t` that moves only its own program counter, and perhaps the mutex,
      keeps of the owners. */
  lemma OwnersFrame(s: State, s': State, t: Thread)
    requires OwnersOk(s) && t in s.pc && t in s'.pc && s'.pc == s.pc[t := s'.pc[t]]
    requires s'.owner == s.owner && s'.slot == s.slot && s'.nextSerial == s.nextSerial && s'.firstOwner == s.firstOwner
    ensures OwnersOk(s')
  {
  }

  lemma EnterMoves(s: State, t: Thread)
    requires ChunksOk(s) && SlotsOk(s) && OwnersOk(s) && HeadOk(s) && CanStep(s, t)
    requires (s.pc[t].Outside? || s.pc[t].Returned?)
    ensures var s' := Enter(s, t); HeadOk(s') && StepOf(s, s', t) && PcOk(s', t)
  {
    hide SlotOk, ClaimOk, ChunkOk;
    assert t in s.slot ==> SlotOwned(s, t);
  }

  lemma EnterStep(s: State, t: Thread)
    requires Core(s) && CanStep(s, t) && (s.pc[t].Outside? || s.pc[t].Returned?)
    ensures Good(s, Enter(s, t), t)
  {
    hide ChunksOk, SlotsOk, OwnersOk, HeadOk, StepOf, PcOk;
    var s' := Enter(s, t);
    EnterMoves(s, t);
    GotoKeepsChunks(s, s', t, s'.pc[t]);
    GotoKeepsSlots(s, s', t, s'.pc[t]);
    OwnersFrame(s, s', t);
  }

  lemma SearchChunkMoves(s: State, t: Thread)
    requires ChunksOk(s) && SlotsOk(s) && OwnersOk(s) && HeadOk(s) && CanStep(s, t) && s.pc[t].SearchChunk?
    ensures PcOk(Step(s, t, 0), t)
  {
    hide SlotOk, ClaimOk;
    assert ChunkOk(s, s.pc[t].chunk);
    assert t in s.slot ==> SlotOwned(s, t);
  }

  lemma SearchChunkOwners(s: State, t: Thread)
    requires OwnersOk(s) && CanStep(s, t) && s.pc[t].SearchChunk? && s.chunks[0] == SENTRY
    requires s.chunks[s.pc[t].chunk].capacity == 0 ==> s.pc[t].chunk == 0
    requires t in s.slot ==> 1 <= s.slot[t].0
    ensures var s' := Step(s, t, 0);
            && t in s'.pc && s' == s.(pc := s.pc[t := s'.pc[t]], owner := s'.owner, nextSerial := s'.nextSerial)
            && (s'.owner == s.owner || (t !in s.slot && t in s'.owner && s'.owner == s.owner[t := s'.owner[t]]))
            && !Storing(s'.pc[t]) && !HoldsLock(s'.pc[t]) && OwnersOk(s')
  {
  }

  lemma SearchChunkSeen(s: State, s': State, t: Thread)
    requires HeadOk(s) && t in s.pc && t in s'.pc && !HoldsLock(s.pc[t]) && !HoldsLock(s'.pc[t])
    requires s' == s.(pc := s.pc[t := s'.pc[t]], owner := s'.owner, nextSerial := s'.nextSerial)
    requires s'.owner == s.owner || (t in s'.owner && s'.owner == s.owner[t := s'.owner[t]])
    ensures HeadOk(s') && StepOf(s, s', t)
  {
  }

  lemma SearchChunkPlace(s: State, t: Thread)
    requires ChunksOk(s) && SlotsOk(s) && CanStep(s, t) && s.pc[t].SearchChunk?
    ensures s.chunks[0] == SENTRY && (s.chunks[s.pc[t].chunk].capacity == 0 ==> s.pc[t].chunk == 0)
    ensures t in s.slot ==> 1 <= s.slot[t].0
  {
    hide SlotOk, ClaimOk;
    assert ChunkOk(s, 0) && ChunkOk(s, s.pc[t].chunk);
    assert t in s.slot ==> SlotOwned(s, t);
  }

  lemma SearchChunkStep(s: State, t: Thread)
    requires Core(s) && CanStep(s, t) && s.pc[t].SearchChunk?
    ensures Good(s, Step(s, t, 0), t)
  {
    hide SlotsOk, ChunksOk, OwnersOk, HeadOk, PcOk, StepOf;
    var s' := Step(s, t, 0);
    SearchChunkMoves(s, t);
    SearchChunkPlace(s, t);
    SearchChunkOwners(s, t);
    SearchChunkSeen(s, s', t);
    GotoKeepsChunks(s, s', t, s'.pc[t]);
    GotoKeepsSlots(s, s', t, s'.pc[t]);
  }

  lemma SearchSlotStays(s: State, t: Thread)
    requires CanStep(s, t) && s.pc[t].SearchSlot?
    ensures var s' := Step(s, t, 0);
            && t in s'.pc && s' == s.(pc := s.pc[t := s'.pc[t]])
            && (s'.pc[t].SearchSlot? || s'.pc[t].SearchChunk?)
  {
  }

  lemma SearchSlotStep(s: State, t: Thread)
    requires Core(s) && CanStep(s, t) && s.pc[t].SearchSlot?
    ensures Good(s, Step(s, t, 0), t)
  {
    hide ChunksOk, SlotsOk, PcOk;
    SearchSlotStays(s, t);
    var s' := Step(s, t, 0);
    GotoKeepsChunks(s, s', t, s'.pc[t]);
    GotoKeepsSlots(s, s', t, s'.pc[t]);
    SearchSlotOk(s, t);
  }

  lemma SearchSlotOk(s: State, t: Thread)
    requires ChunksOk(s) && SlotsOk(s) && CanStep(s, t) && s.pc[t].SearchSlot?
    ensures PcOk(Step(s, t, 0), t)
  {
    var p := s.pc[t];
    assert ChunkOk(s, p.chunk);
    assert t in s.slot ==> SlotOwned(s, t);
    if p.i < p.n {
      assert ClaimOk(s, p.chunk, p.i);
      assert SlotOk(s, p.chunk, p.i);
    }
  }

  lemma HeadMoves(s: State, t: Thread)
    requires ChunksOk(s) && HeadOk(s) && CanStep(s, t)
    requires s.pc[t].LoadHead? || s.pc[t].WantLock? || s.pc[t].Refetch?
    ensures var s' := Step(s, t, 0);
            && t in s'.pc && s' == s.(pc := s.pc[t := s'.pc[t]], mutex := s'.mutex) && !Storing(s'.pc[t])
            && HeadOk(s') && StepOf(s, s', t) && PcOk(s', t)
  {
    assert ChunkOk(s, s.head);
  }

  lemma HeadStep(s: State, t: Thread)
    requires Core(s) && CanStep(s, t)
    requires s.pc[t].LoadHead? || s.pc[t].WantLock? || s.pc[t].Refetch?
    ensures Good(s, Step(s, t, 0), t)
  {
    hide ChunksOk, SlotsOk, OwnersOk, PcOk, HeadOk, StepOf;
    var s' := Step(s, t, 0);
    HeadMoves(s, t);
    GotoKeepsChunks(s, s', t, s'.pc[t]);
    GotoKeepsSlots(s, s', t, s'.pc[t]);
    OwnersFrame(s, s', t);
  }

  lemma ReleaseStep(s: State, t: Thread)
    requires Core(s) && CanStep(s, t) && (s.pc[t].Publish? || s.pc[t].Unlock?)
    ensures Good(s, Step(s, t, 0), t)
  {
    var s' := Step(s, t, 0);
    GotoKeepsChunks(s, s', t, s'.pc[t]);
    GotoKeepsSlots(s, s', t, s'.pc[t]);
    assert SlotOwned(s, t);
  }

  lemma OvershootStep(s: State, t: Thread)
    requires Core(s) && CanStep(s, t) && NoWrap(s) && s.pc[t].FetchAdd?
    requires s.chunks[s.pc[t].chunk].size >= s.chunks[s.pc[t].chunk].capacity
    ensures Good(s, Step(s, t, 0), t)
  {
    var s' := Step(s, t, 0);
    var c := s.pc[t].chunk;
    SizeBelowWrap(s, c);
    assert ChunkOk(s, c);
    PutKeepsChunks(s, s', t, c, s'.chunks[c], s'.pc[t]);
    ResizeKeepsSlots(s, s', t);
  }

  lemma ReserveStep(s: State, t: Thread)
    requires Core(s) && CanStep(s, t) && NoWrap(s) && s.pc[t].FetchAdd?
    requires s.chunks[s.pc[t].chunk].size < s.chunks[s.pc[t].chunk].capacity
    ensures Good(s, Step(s, t, 0), t)
  {
    var s' := Step(s, t, 0);
    var c := s.pc[t].chunk;
    SizeBelowWrap(s, c);
    ReserveKeepsChunks(s, s', t, c);
    ReserveKeepsSlots(s, s', t);
  }

  lemma ReserveKeepsChunks(s: State, s': State, t: Thread, c: nat)
    requires ChunksOk(s) && NoWrap(s) && t in s.pc && s.pc[t].FetchAdd? && 1 <= c < |s.chunks|
    requires s.chunks[c].size < s.chunks[c].capacity
    requires s' == Reserve(s, t, c, s.pc[t].serial, s.pc[t].locked)
    ensures ChunksOk(s')
  {
    SizeBelowWrap(s, c);
    assert ChunkOk(s, c);
    PutKeepsChunks(s, s', t, c, s'.chunks[c], s'.pc[t]);
  }

  lemma StoreBackStep(s: State, t: Thread)
    requires Core(s) && CanStep(s, t) && s.pc[t].StoreBack?
    ensures Good(s, Step(s, t, 0), t)
  {
    var s' := Step(s, t, 0);
    var c := s.pc[t].chunk;
    assert ChunkOk(s, c);
    PutKeepsChunks(s, s', t, c, s'.chunks[c], s'.pc[t]);
    ResizeKeepsSlots(s, s', t);
  }

  lemma StoreMoves(s: State, t: Thread)
    requires ChunksOk(s) && SlotsOk(s) && OwnersOk(s) && HeadOk(s) && CanStep(s, t)
    requires s.pc[t].StoreId? || s.pc[t].StoreArena?
    ensures var s', c := Step(s, t, 0), s.pc[t].chunk;
            && 1 <= c < |s.chunks| == |s'.chunks| && t in s'.pc && s' == Put(s, t, c, s'.chunks[c], s'.pc[t])
            && ChunkOk(s, c) && PcOk(s', t)
  {
    hide SlotOk, ClaimOk;
    assert SlotOwned(s, t);
    assert ChunkOk(s, s.pc[t].chunk);
  }

  lemma StoreSeen(s: State, t: Thread)
    requires ChunksOk(s) && HeadOk(s) && CanStep(s, t) && (s.pc[t].StoreId? || s.pc[t].StoreArena?)
    ensures HeadOk(Step(s, t, 0)) && StepOf(s, Step(s, t, 0), t)
  {
    assert ChunkOk(s, s.pc[t].chunk);
  }

  lemma StoreStep(s: State, t: Thread)
    requires Core(s) && CanStep(s, t) && (s.pc[t].StoreId? || s.pc[t].StoreArena?)
    ensures Good(s, Step(s, t, 0), t)
  {
    hide SlotsOk, OwnersOk, HeadOk, StepOf, ChunksOk;
    var s' := Step(s, t, 0);
    StoreMoves(s, t);
    StoreSeen(s, t);
    var c := s.pc[t].chunk;
    PutKeepsChunks(s, s', t, c, s'.chunks[c], s'.pc[t]);
    StoreKeepsSlots(s, s', t);
    OwnersFrame(s, s', t);
  }

  lemma GrowStep(s: State, t: Thread, extra: nat)
    requires Core(s) && CanStep(s, t) && s.pc[t].Grow?
    ensures Good(s, Step(s, t, extra), t)
  {
    var s' := Step(s, t, extra);
    var ch := s'.chunks[|s.chunks|];
    AppendKeepsChunks(s, s', t, ch, s.pc[t].serial);
    AppendKeepsSlots(s, s', t, ch, s.pc[t].serial);
  }

  lemma StepGood(s: State, t: Thread, extra: nat)
    requires Core(s) && CanStep(s, t) && NoWrap(s)
    ensures Good(s, Step(s, t, extra), t)
  {
    match s.pc[t]
    case Outside => EnterStep(s, t);
    case Returned(_) => EnterStep(s, t);
    case SearchChunk(_, _) => SearchChunkStep(s, t);
    case SearchSlot(_, _, _, _) => SearchSlotStep(s, t);
    case FetchAdd(c, _, _) =>
      if s.chunks[c].size >= s.chunks[c].capacity { OvershootStep(s, t); } else { ReserveStep(s, t); }
    case StoreBack(_, _, _) => StoreBackStep(s, t);
    case StoreId(_, _, _, _) => StoreStep(s, t);
    case StoreArena(_, _, _, _) => StoreStep(s, t);
    case Grow(_, _) => GrowStep(s, t, extra);
    case Publish(_, _) => ReleaseStep(s, t);
    case Unlock(_) => ReleaseStep(s, t);
    case _ => HeadStep(s, t);
  }

  lemma StepInv(s: State, t: Thread, extra: nat)
    requires Inv(s) && NoWrap(s) && Enabled(s, t)
    ensures Inv(Step(s, t, extra))
  {
    StepGood(s, t, extra);
    PcsOk(s, Step(s, t, extra), t);
  }

  // ----- runs -----

  /** A run of the table: from an empty one, each step is taken by one thread. */
  ghost predicate IsRun(run: seq<State>, acts: seq<(Thread, nat)>) {
    && |run| == |acts| + 1 && Init(run[0])
    && (forall i | 0 <= i < |acts| :: IsStep(run[i], acts[i], run[i + 1]))
  }

  ghost predicate IsStep(s: State, act: (Thread, nat), s': State) {
    NoWrap(s) && Enabled(s, act.0) && s' == Step(s, act.0, act.1)
  }

  lemma {:induction false} RunInv(run: seq<State>, acts: seq<(Thread, nat)>, i: nat)
    requires IsRun(run, acts) && i < |run|
    ensures Inv(run[i])
  {
    if i == 0 {
      InitInv(run[0]);
    } else {
      RunInv(run, acts, i - 1);
      assert IsStep(run[i - 1], acts[i - 1], run[i - 1 + 1]);
      StepInv(run[i - 1], acts[i - 1].0, acts[i - 1].1);
    }
  }

  /** An arena, once created for a thread, is never replaced. */
  lemma OwnerKept(s: State, t: Thread, extra: nat, u: Thread)
    requires Inv(s) && Enabled(s, t) && u in s.owner
    ensures var s' := Step(s, t, extra); u in s'.owner && s'.owner[u] == s.owner[u]
  {
    assert PcOk(s, t);
    assert t in s.slot ==> SlotOwned(s, t);
    assert s.pc[t].SearchChunk? ==> ChunkOk(s, s.pc[t].chunk);
  }

  /** What stays from one state of a run to any later one. */
  ghost predicate Later(s: State, s': State) {
    && |s.chunks| <= |s'.chunks| && s.firstOwner == s'.firstOwner
    && (forall c | 0 <= c < |s.chunks| :: ChunkGrew(s.chunks[c], s'.chunks[c]))
    && (forall t <- s.owner :: t in s'.owner && s'.owner[t] == s.owner[t])
  }

  lemma LaterStep(run: seq<State>, acts: seq<(Thread, nat)>, k: nat)
    requires IsRun(run, acts) && k < |acts|
    ensures Later(run[k], run[k + 1])
  {
    RunInv(run, acts, k);
    assert IsStep(run[k], acts[k], run[k + 1]);
    hide ChunksOk, SlotsOk, OwnersOk, ChunkGrew, Step;
    assert PcOk(run[k], acts[k].0);
    StepGood(run[k], acts[k].0, acts[k].1);
    assert StepOf(run[k], run[k + 1], acts[k].0);
    forall t <- run[k].owner ensures t in run[k + 1].owner && run[k + 1].owner[t] == run[k].owner[t] {
      OwnerKept(run[k], acts[k].0, acts[k].1, t);
    }
  }

  lemma LaterTransitive(a: State, b: State, c: State)
    requires Later(a, b) && Later(b, c)
    ensures Later(a, c)
  {
    forall i | 0 <= i < |a.chunks| ensures ChunkGrew(a.chunks[i], c.chunks[i]) {
      assert ChunkGrew(a.chunks[i], b.chunks[i]) && ChunkGrew(b.chunks[i], c.chunks[i]);
    }
  }

  /** A chunk keeps its capacity, only gains claims, and once full stays full: the value
      written back after a failed reservation never undoes one. */
  lemma {:induction false} Monotone(run: seq<State>, acts: seq<(Thread, nat)>, i: nat, j: nat)
    requires IsRun(run, acts) && i <= j < |run|
    ensures Later(run[i], run[j])
  {
    if i < j {
      hide Later;
      Monotone(run, acts, i, j - 1);
      LaterStep(run, acts, j - 1);
      LaterTransitive(run[i], run[j - 1], run[j]);
    }
  }

  /** Thread `acts[i].0` performs, in step `i`, a fetch_add on chunk `c` that returns an
      index below the capacity. */
  ghost predicate Reserves(run: seq<State>, acts: seq<(Thread, nat)>, i: nat, c: nat)
    requires IsRun(run, acts) && i < |acts|
  {
    var s := run[i];
    assert IsStep(run[i], acts[i], run[i + 1]);
    s.pc[acts[i].0].FetchAdd? && s.pc[acts[i].0].chunk == c && s.chunks[c].size < s.chunks[c].capacity
  }

  /** No index below the capacity is handed out twice. */
  lemma NoSlotHandedOutTwice(run: seq<State>, acts: seq<(Thread, nat)>, i: nat, j: nat, c: nat)
    requires IsRun(run, acts) && i < j < |acts|
    requires Reserves(run, acts, i, c) && Reserves(run, acts, j, c)
    ensures c < |run[i].chunks| && c < |run[j].chunks|
    ensures run[i].chunks[c].size != run[j].chunks[c].size
  {
    RunInv(run, acts, i);
    RunInv(run, acts, j);
    Monotone(run, acts, i + 1, j);
    assert IsStep(run[i], acts[i], run[i + 1]);
    assert ChunkOk(run[i], c) && ChunkOk(run[j], c);
    assert ChunkGrew(run[i + 1].chunks[c], run[j].chunks[c]);
    assert |run[i + 1].chunks[c].claims| == run[i].chunks[c].size + 1;
  }

  lemma FullChunkStaysFull(run: seq<State>, acts: seq<(Thread, nat)>, i: nat, j: nat, c: nat)
    requires IsRun(run, acts) && i <= j < |run| && c < |run[i].chunks|
    requires run[i].chunks[c].size >= run[i].chunks[c].capacity
    ensures c < |run[j].chunks| && run[j].chunks[c].size >= run[j].chunks[c].capacity
  {
    Monotone(run, acts, i, j);
    assert ChunkGrew(run[i].chunks[c], run[j].chunks[c]);
  }

  /** A thread on its way to the mutex, or about to add a chunk, found its chunk full; the
      sentry has no room at all. */
  ghost predicate TriedFull(s: State, t: Thread) {
    t in s.pc && BeforeGrowth(s.pc[t]) ==>
      s.pc[t].chunk < |s.chunks| && s.chunks[s.pc[t].chunk].size >= s.chunks[s.pc[t].chunk].capacity
  }

  predicate BeforeGrowth(p: Pc) {
    p.WantLock? || p.Refetch? || p.Grow?
  }

  /** Searches, insertions and publications do not lead there by themselves. */
  lemma SearchLeads(s: State, t: Thread, extra: nat)
    requires Enabled(s, t) && (s.pc[t].Outside? || s.pc[t].Returned? || s.pc[t].SearchChunk? || s.pc[t].SearchSlot?)
    ensures t in Step(s, t, extra).pc && !BeforeGrowth(Step(s, t, extra).pc[t])
  {
  }

  lemma InsertLeads(s: State, t: Thread, extra: nat)
    requires Enabled(s, t) && (s.pc[t].FetchAdd? || s.pc[t].StoreId? || s.pc[t].StoreArena?)
    ensures t in Step(s, t, extra).pc && !BeforeGrowth(Step(s, t, extra).pc[t])
  {
  }

  lemma PublishLeads(s: State, t: Thread, extra: nat)
    requires Enabled(s, t) && (s.pc[t].Grow? || s.pc[t].Publish? || s.pc[t].Unlock?)
    ensures t in Step(s, t, extra).pc && !BeforeGrowth(Step(s, t, extra).pc[t])
  {
    hide NewChunk;
  }

  lemma TriedFullOwn(s: State, t: Thread, extra: nat)
    requires Enabled(s, t) && TriedFull(s, t)
    ensures TriedFull(Step(s, t, extra), t)
  {
    var p := s.pc[t];
    if !(p.LoadHead? || p.StoreBack? || p.WantLock? || p.Refetch?) {
      hide Step;
      if p.Grow? || p.Publish? || p.Unlock? {
        PublishLeads(s, t, extra);
      } else if p.FetchAdd? || p.StoreId? || p.StoreArena? {
        InsertLeads(s, t, extra);
      } else {
        SearchLeads(s, t, extra);
      }
    }
  }

  lemma TriedFullOther(s: State, s': State, t: Thread, u: Thread)
    requires StepOf(s, s', t) && t != u && TriedFull(s, u)
    ensures TriedFull(s', u)
  {
    if u in s.pc && BeforeGrowth(s.pc[u]) {
      assert ChunkGrew(s.chunks[s.pc[u].chunk], s'.chunks[s.pc[u].chunk]);
    }
  }

  lemma {:induction false} TriedFullAlways(run: seq<State>, acts: seq<(Thread, nat)>, i: nat, t: Thread)
    requires IsRun(run, acts) && i < |run|
    ensures TriedFull(run[i], t)
  {
    if i > 0 {
      TriedFullAlways(run, acts, i - 1, t);
      var s, act := run[i - 1], acts[i - 1];
      RunInv(run, acts, i - 1);
      assert IsStep(s, act, run[i - 1 + 1]);
      hide ChunksOk, SlotsOk, OwnersOk, HeadOk, Step, TriedFull, StepOf;
      assert PcOk(s, act.0);
      if act.0 == t {
        TriedFullOwn(s, t, act.1);
      } else {
        StepGood(s, act.0, act.1);
        TriedFullOther(s, run[i], act.0, t);
      }
    }
  }

  /** The table grows only when its head has no room left, by one chunk that links to that
      head, is larger than it up to the limit, and holds the entry of the thread that came
      too late. A thread that lost the race for the mutex to another one's new chunk tries
      that chunk first. */
  lemma GrowsOnlyWhenFull(run: seq<State>, acts: seq<(Thread, nat)>, i: nat)
    requires IsRun(run, acts) && i < |acts| && |run[i + 1].chunks| != |run[i].chunks|
    ensures var s, chunks, t := run[i], run[i + 1].chunks, acts[i].0;
            && s.head == |s.chunks| - 1 && s.chunks[s.head].size >= s.chunks[s.head].capacity
            && |chunks| == |s.chunks| + 1 && chunks[..|s.chunks|] == s.chunks
            && var added := chunks[|s.chunks|];
               && added.next == s.head && added.size == 1 && added.claims == [t]
               && added.capacity == NextCapacity(s.chunks[s.head].capacity) + acts[i].1
               && t in s.owner && added.ids[..1] == [Some(t)] && added.arenas[..1] == [Some(s.owner[t])]
  {
    RunInv(run, acts, i);
    var s, act := run[i], acts[i];
    assert IsStep(s, act, run[i + 1]);
    TriedFullAlways(run, acts, i, act.0);
    GrowsByOne(s, act.0, act.1);
  }

  lemma GrowsByOne(s: State, t: Thread, extra: nat)
    requires HeadOk(s) && CanStep(s, t) && TriedFull(s, t) && |Step(s, t, extra).chunks| != |s.chunks|
    ensures s.pc[t].Grow? && s.head == |s.chunks| - 1 && s.chunks[s.head].size >= s.chunks[s.head].capacity
    ensures t in s.owner
    ensures Step(s, t, extra).chunks
         == s.chunks + [NewChunk(s.head, NextCapacity(s.chunks[s.head].capacity) + extra, t, s.owner[t])]
  {
  }

  /** The size overshoots the capacity by no more than the threads that have yet to write
      it back. */
  lemma SizeBound(run: seq<State>, acts: seq<(Thread, nat)>, i: nat, c: nat)
    requires IsRun(run, acts) && i < |run| && c < |run[i].chunks|
    ensures run[i].chunks[c].size <= run[i].chunks[c].capacity + |Overshooting(run[i], c)|
  {
    RunInv(run, acts, i);
    assert ChunkOk(run[i], c);
  }

  // ----- the list of chunks -----

  /** The chunks met on the way from chunk `c` to the sentry. */
  function Walk(chunks: seq<Chunk>, c: nat): seq<nat> {
    if c == 0 || c >= |chunks| || chunks[c].next >= c then [] else [c] + Walk(chunks, chunks[c].next)
  }

  lemma {:induction false} WalkMeetsAll(s: State, h: nat)
    requires ChunksOk(s) && h < |s.chunks|
    ensures |Walk(s.chunks, h)| == h
    ensures forall j | 0 <= j < h :: Walk(s.chunks, h)[j] == h - j
  {
    if h > 0 {
      assert ChunkOk(s, h);
      WalkMeetsAll(s, h - 1);
    }
  }

  /** Thread `t` has registered its arena: it is back, or searching again. */
  ghost predicate Completed(s: State, t: Thread) {
    t in s.pc && t in s.slot && t in s.owner && (s.pc[t].SearchChunk? || s.pc[t].SearchSlot? || s.pc[t].Returned?)
  }

  /** Its own next step does not undo that: the search cannot miss its slot. */
  lemma CompletedOwnStep(s: State, t: Thread, extra: nat)
    requires ChunksOk(s) && SlotsOk(s) && OwnersOk(s) && CanStep(s, t) && Completed(s, t)
    ensures var s' := Step(s, t, extra); Completed(s', t) && s'.slot == s.slot && s'.owner == s.owner
  {
    hide SlotOk, ClaimOk;
    assert SlotOwned(s, t);
    assert s.pc[t].SearchChunk? ==> ChunkOk(s, s.pc[t].chunk);
  }

  lemma CompletedOtherStep(s: State, s': State, t: Thread, u: Thread)
    requires StepOf(s, s', u) && u != t && Completed(s, t)
    ensures Completed(s', t) && s'.slot[t] == s.slot[t] && s'.owner[t] == s.owner[t]
  {
  }

  lemma {:induction false} CompletedStays(run: seq<State>, acts: seq<(Thread, nat)>, i: nat, k: nat, t: Thread)
    requires IsRun(run, acts) && i <= k < |run| && Completed(run[i], t)
    ensures Completed(run[k], t) && run[k].slot[t] == run[i].slot[t] && run[k].owner[t] == run[i].owner[t]
  {
    if i < k {
      CompletedStays(run, acts, i, k - 1, t);
      var s, act := run[k - 1], acts[k - 1];
      RunInv(run, acts, k - 1);
      assert IsStep(s, act, run[k - 1 + 1]);
      hide ChunksOk, SlotsOk, OwnersOk, Step, Completed, StepOf;
      assert PcOk(s, act.0);
      if act.0 == t {
        CompletedOwnStep(s, t, act.1);
      } else {
        StepGood(s, act.0, act.1);
        CompletedOtherStep(s, run[k], t, act.0);
      }
    }
  }

  /** Slot `(c, i)` of the table holds thread `t` and its arena `x`, is reachable from the
      head, and no other slot holds that arena. */
  ghost predicate OnlyEntry(s: State, c: nat, i: nat, t: Thread, x: Serial) {
    && c in Walk(s.chunks, s.head) && c < |s.chunks| && i < |s.chunks[c].ids| && i < |s.chunks[c].arenas|
    && s.chunks[c].ids[i] == Some(t) && s.chunks[c].arenas[i] == Some(x)
    && (forall d, j | 0 <= d < |s.chunks| && 0 <= j < |s.chunks[d].arenas| && (d, j) != (c, i) ::
          s.chunks[d].arenas[j] != Some(x))
  }

  lemma CompletedEntry(s: State, t: Thread)
    requires Inv(s) && Completed(s, t)
    ensures OnlyEntry(s, s.slot[t].0, s.slot[t].1, t, s.owner[t])
  {
    assert PcOk(s, t) && SlotOwned(s, t);
    var (c, i) := s.slot[t];
    assert ChunkOk(s, c);
    assert SlotOk(s, c, i);
    WalkMeetsAll(s, s.head);
    assert Walk(s.chunks, s.head)[s.head - c] == c;
    forall d, j | 0 <= d < |s.chunks| && 0 <= j < |s.chunks[d].arenas| && (d, j) != (c, i)
      ensures s.chunks[d].arenas[j] != Some(s.owner[t])
    {
      assert ChunkOk(s, d);
      assert SlotOk(s, d, j);
      assert j < |s.chunks[d].claims| ==> ClaimOk(s, d, j);
    }
  }

  lemma ReturnedIsCompleted(s: State, t: Thread)
    requires Inv(s) && t in s.pc && s.pc[t].Returned? && s.pc[t].serial != FIRST
    ensures Completed(s, t) && s.owner[t] == s.pc[t].serial
  {
    hide ChunksOk, SlotsOk, OwnersOk;
    assert PcOk(s, t);
  }

  /** From the moment the call of thread `t` has returned, in every later state, its arena
      sits in exactly one slot of all, always the same, beside the thread's id, and that slot
      is reachable from the head. */
  lemma EntryInExactlyOneSlot(run: seq<State>, acts: seq<(Thread, nat)>, i: nat, k: nat, t: Thread)
    requires IsRun(run, acts) && i <= k < |run| && t in run[i].pc
    requires run[i].pc[t].Returned? && run[i].pc[t].serial != FIRST
    ensures t in run[i].slot && OnlyEntry(run[k], run[i].slot[t].0, run[i].slot[t].1, t, run[i].pc[t].serial)
  {
    hide IsRun, Inv, OnlyEntry, Completed;
    RunInv(run, acts, i);
    RunInv(run, acts, k);
    ReturnedIsCompleted(run[i], t);
    CompletedStays(run, acts, i, k, t);
    InSlot(run[i], t);
    CompletedEntry(run[k], t);
  }

  lemma InSlot(s: State, t: Thread)
    requires Completed(s, t)
    ensures t in s.slot && t in s.owner
  {
  }

  /** Every call of one thread gets the same arena, however many chunks are added and
      however the searches interleave with insertions. */
  lemma SameArenaAgain(run: seq<State>, acts: seq<(Thread, nat)>, i: nat, j: nat, t: Thread)
    requires IsRun(run, acts) && i <= j < |run| && t in run[i].pc && t in run[j].pc
    requires run[i].pc[t].Returned? && run[j].pc[t].Returned?
    ensures run[i].pc[t].serial == run[j].pc[t].serial
  {
    hide ChunksOk, SlotsOk, IsRun;
    RunInv(run, acts, i);
    RunInv(run, acts, j);
    Monotone(run, acts, i, j);
    assert PcOk(run[i], t) && PcOk(run[j], t);
  }

  lemma DistinctThreadsDistinctArenas(
      run: seq<State>, acts: seq<(Thread, nat)>, i: nat, j: nat, t: Thread, u: Thread)
    requires IsRun(run, acts) && i <= j < |run| && t in run[i].pc && u in run[j].pc && t != u
    requires run[i].pc[t].Returned? && run[j].pc[u].Returned?
    ensures run[i].pc[t].serial != run[j].pc[u].serial
  {
    RunInv(run, acts, i);
    RunInv(run, acts, j);
    Monotone(run, acts, i, j);
    assert PcOk(run[i], t) && PcOk(run[j], u);
  }
}
