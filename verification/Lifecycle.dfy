/** Lifecycle ids and the thread-local cache that the fast path of an arena trusts:
    GetNextLifeCycleId hands out ids in per-thread batches, every construction or Reset
    starts a new lifetime with a new id, and GetSerialArenaFast returns the cached serial
    arena when the cached id equals the arena's. Threads interleave freely. */
module Lifecycle {
  import opened Common

  type Thread = nat
  type Arena = nat

  /** The number of ids in one per-thread batch. */
  const BATCH: nat := 256
  /** The number of batches before the 64-bit ids wrap. */
  const BATCHES: nat := 0x100_0000_0000_0000
  /** A fresh cache claims to have seen this id. */
  const UNSEEN: nat := U64 - 1

  /** The serial arena that thread `owner` uses during one lifetime of an arena. */
  datatype Serial = Serial(lifetime: nat, owner: Thread)

  datatype Cache = Cache(nextId: nat, seen: nat, serial: Option<Serial>)

  /** Lifetimes are numbered in the order in which they begin; `tags[l]` is the id of
      lifetime `l`, and `current[a]` the lifetime arena `a` is in. */
  datatype State = State(counter: nat, caches: map<Thread, Cache>, tags: seq<nat>, current: map<Arena, nat>)

  const FRESH := Cache(0, UNSEEN, None)

  predicate Init(s: State) {
    && s.counter == 0 && s.tags == [] && s.current == map[]
    && (forall t <- s.caches :: s.caches[t] == FRESH)
  }

  /** The first id of the batch reserved by the `k`-th fetch_add, in 64-bit arithmetic. */
  function BatchStart(k: nat): nat {
    k * BATCH % U64
  }

  /** The id that GetNextLifeCycleId returns to thread `t`. */
  function NextId(s: State, t: Thread): nat
    requires t in s.caches
  {
    if s.caches[t].nextId % BATCH == 0 then BatchStart(s.counter) else s.caches[t].nextId
  }

  /** ThreadSafeArena::Init by thread `t`: take a new id and cache the first arena. */
  function Begin(s: State, t: Thread, a: Arena): State
    requires t in s.caches
  {
    var c := s.caches[t];
    var id := NextId(s, t);
    var l := |s.tags|;
    s.(counter := if c.nextId % BATCH == 0 then s.counter + 1 else s.counter,
       caches := s.caches[t := Cache((id + 1) % U64, id, Some(Serial(l, t)))],
       tags := s.tags + [id],
       current := s.current[a := l])
  }

  /** The end of GetSerialArenaFallback: cache the thread's serial arena of this lifetime. */
  function Remember(s: State, t: Thread, a: Arena): State
    requires t in s.caches && a in s.current && s.current[a] < |s.tags|
  {
    var l := s.current[a];
    s.(caches := s.caches[t := s.caches[t].(seen := s.tags[l], serial := Some(Serial(l, t)))])
  }

  datatype Action = DoBegin(t: Thread, a: Arena) | DoRemember(t: Thread, a: Arena)

  /** One step; reserving a batch is a step only while batches are left. */
  predicate Next(s: State, act: Action, s': State) {
    && act.t in s.caches
    && match act
       case DoBegin(t, a) =>
         (s.caches[t].nextId % BATCH == 0 ==> s.counter + 1 < BATCHES) && s' == Begin(s, t, a)
       case DoRemember(t, a) =>
         a in s.current && s.current[a] < |s.tags| && s' == Remember(s, t, a)
  }

  // ----- invariant -----

  /** The ids thread `t` may still hand out are those from `nextId` to the end of its batch. */
  predicate InOpenBatch(c: Cache, id: nat) {
    c.nextId % BATCH != 0 && c.nextId <= id && id / BATCH == c.nextId / BATCH
  }

  predicate CacheOk(s: State, t: Thread)
    requires t in s.caches
  {
    var c := s.caches[t];
    && (c.nextId % BATCH != 0 ==> c.nextId / BATCH < s.counter)
    && (c.seen == UNSEEN
        || (c.serial.Some? && c.serial.value.owner == t
            && c.serial.value.lifetime < |s.tags| && s.tags[c.serial.value.lifetime] == c.seen))
  }

  predicate Inv(s: State) {
    && s.counter < BATCHES
    && (forall t <- s.caches :: CacheOk(s, t))
    && (forall t, l | t in s.caches && 0 <= l < |s.tags| :: !InOpenBatch(s.caches[t], s.tags[l]))
    && (forall l | 0 <= l < |s.tags| :: s.tags[l] / BATCH < s.counter)
    && (forall l, m | 0 <= l < m < |s.tags| :: s.tags[l] != s.tags[m])
    && (forall t, u | t in s.caches && u in s.caches && t != u :: !SameBatch(s.caches[t], s.caches[u]))
    && (forall a <- s.current :: s.current[a] < |s.tags|)
  }

  predicate SameBatch(c: Cache, d: Cache) {
    c.nextId % BATCH != 0 && d.nextId % BATCH != 0 && c.nextId / BATCH == d.nextId / BATCH
  }

  /** The id handed out is new, and stays clear of everybody's open batch. */
  lemma NextIdIsNew(s: State, t: Thread)
    requires Inv(s) && t in s.caches && (s.caches[t].nextId % BATCH == 0 ==> s.counter + 1 < BATCHES)
    ensures var id := NextId(s, t);
            && id + 1 < U64 && id !in s.tags
            && id / BATCH < s.counter + (if s.caches[t].nextId % BATCH == 0 then 1 else 0)
            && (forall u | u in s.caches && u != t :: !InOpenBatch(s.caches[u], id))
  {
    var c := s.caches[t];
    var id := NextId(s, t);
    assert CacheOk(s, t);
    forall u | u in s.caches && u != t ensures !InOpenBatch(s.caches[u], id) {
      assert CacheOk(s, u);
      assert !SameBatch(c, s.caches[u]);
    }
    forall l | 0 <= l < |s.tags| ensures s.tags[l] != id {
      assert !InOpenBatch(c, s.tags[l]);
    }
  }

  lemma BeginInv(s: State, t: Thread, a: Arena)
    requires Inv(s) && t in s.caches && (s.caches[t].nextId % BATCH == 0 ==> s.counter + 1 < BATCHES)
    ensures Inv(Begin(s, t, a))
  {
    NextIdIsNew(s, t);
    CachesAfter(s, t, a);
    OpenBatchesAfter(s, t, a);
    BatchesApartAfter(s, t, a);
  }

  lemma CachesAfter(s: State, t: Thread, a: Arena)
    requires t in s.caches && (forall u <- s.caches :: CacheOk(s, u))
    requires NextId(s, t) + 1 < U64 && NextId(s, t) / BATCH < Begin(s, t, a).counter
    ensures var s' := Begin(s, t, a); forall u <- s'.caches :: CacheOk(s', u)
  {
    var s' := Begin(s, t, a);
    var id := NextId(s, t);
    assert CacheOk(s', t) by {
      assert s'.caches[t].nextId == id + 1;
      assert (id + 1) % BATCH != 0 ==> (id + 1) / BATCH == id / BATCH;
    }
    forall u | u in s'.caches && u != t ensures CacheOk(s', u) {
      assert CacheOk(s, u);
    }
  }

  lemma SymmetricBatch(c: Cache, d: Cache)
    ensures SameBatch(c, d) == SameBatch(d, c)
  {
  }

  lemma BatchesApartAfter(s: State, t: Thread, a: Arena)
    requires Inv(s) && t in s.caches && (s.caches[t].nextId % BATCH == 0 ==> s.counter + 1 < BATCHES)
    ensures var s' := Begin(s, t, a);
            forall u, v | u in s'.caches && v in s'.caches && u != v :: !SameBatch(s'.caches[u], s'.caches[v])
  {
    hide InOpenBatch;
    NextIdIsNew(s, t);
    var s' := Begin(s, t, a);
    forall u | u in s.caches && u != t ensures !SameBatch(s'.caches[t], s.caches[u]) {
      assert !SameBatch(s.caches[t], s.caches[u]);
      assert CacheOk(s, u);
      OpenedBatch(s.caches[t], s.caches[u], NextId(s, t), s.counter);
    }
    forall u, v | u in s'.caches && v in s'.caches && u != v ensures !SameBatch(s'.caches[u], s'.caches[v]) {
      SymmetricBatch(s'.caches[u], s'.caches[v]);
      if u != t && v != t {
        assert !SameBatch(s.caches[u], s.caches[v]);
      }
    }
  }

  lemma OpenedBatch(c: Cache, d: Cache, id: nat, counter: nat)
    requires !SameBatch(c, d) && id + 1 < U64 && counter < BATCHES
    requires id == if c.nextId % BATCH == 0 then counter * BATCH else c.nextId
    requires d.nextId % BATCH != 0 ==> d.nextId / BATCH < counter
    ensures !SameBatch(Cache((id + 1) % U64, id, c.serial), d)
  {
    assert (id + 1) % BATCH != 0 ==> (id + 1) / BATCH == id / BATCH;
  }

  lemma OpenBatchesAfter(s: State, t: Thread, a: Arena)
    requires Inv(s) && t in s.caches && (s.caches[t].nextId % BATCH == 0 ==> s.counter + 1 < BATCHES)
    ensures var s' := Begin(s, t, a);
            forall u, l | u in s'.caches && 0 <= l < |s'.tags| :: !InOpenBatch(s'.caches[u], s'.tags[l])
  {
    NextIdIsNew(s, t);
    var s' := Begin(s, t, a);
    forall u, l | u in s'.caches && 0 <= l < |s'.tags| ensures !InOpenBatch(s'.caches[u], s'.tags[l]) {
      assert u in s.caches;
      if l < |s.tags| {
        assert !InOpenBatch(s.caches[u], s.tags[l]);
        assert s.tags[l] / BATCH < s.counter;
      }
    }
  }

  lemma RememberInv(s: State, t: Thread, a: Arena)
    requires Inv(s) && t in s.caches && a in s.current
    ensures Inv(Remember(s, t, a))
  {
    var s' := Remember(s, t, a);
    assert CacheOk(s, t);
    forall u <- s'.caches ensures CacheOk(s', u) { assert CacheOk(s, u); }
    forall u, l | u in s'.caches && 0 <= l < |s'.tags| ensures !InOpenBatch(s'.caches[u], s'.tags[l]) {
      assert !InOpenBatch(s.caches[u], s.tags[l]);
    }
    forall u, v | u in s'.caches && v in s'.caches && u != v ensures !SameBatch(s'.caches[u], s'.caches[v]) {
      assert !SameBatch(s.caches[u], s.caches[v]);
    }
  }

  ghost predicate IsRun(run: seq<State>, acts: seq<Action>) {
    && |run| == |acts| + 1 && Init(run[0])
    && (forall i | 0 <= i < |acts| :: Next(run[i], acts[i], run[i + 1]))
  }

  lemma {:induction false} RunInv(run: seq<State>, acts: seq<Action>, i: nat)
    requires IsRun(run, acts) && i < |run|
    ensures Inv(run[i])
  {
    if i > 0 {
      RunInv(run, acts, i - 1);
      assert Next(run[i - 1], acts[i - 1], run[i - 1 + 1]);
      match acts[i - 1]
      case DoBegin(t, a) => BeginInv(run[i - 1], t, a);
      case DoRemember(t, a) => RememberInv(run[i - 1], t, a);
    }
  }

  /** Across all threads, arenas and Resets no id is handed out twice. */
  lemma IdsNeverRepeat(run: seq<State>, acts: seq<Action>, i: nat, l: nat, m: nat)
    requires IsRun(run, acts) && i < |run| && l < m < |run[i].tags|
    ensures run[i].tags[l] != run[i].tags[m]
  {
    RunInv(run, acts, i);
  }

  /** The fast path is right: when the cached id equals the arena's, the cached serial
      arena is this thread's own one of the arena's present lifetime. */
  lemma FastPathReturnsOwnArena(run: seq<State>, acts: seq<Action>, i: nat, t: Thread, a: Arena)
    requires IsRun(run, acts) && i < |run| && t in run[i].caches && a in run[i].current
    ensures var s := run[i];
            && s.current[a] < |s.tags|
            && (s.caches[t].seen == s.tags[s.current[a]]
                ==> s.caches[t].serial == Some(Serial(s.current[a], t)))
  {
    RunInv(run, acts, i);
    var s := run[i];
    assert CacheOk(s, t);
    var l := s.current[a];
    assert s.tags[l] / BATCH < s.counter;
  }

  /** Two batches start at the same id exactly when their numbers agree modulo 2^56, so
      the bound on the number of batches is the exact condition for uniqueness. */
  lemma BatchesCollide(k: nat, j: nat)
    ensures BatchStart(k) == BatchStart(j) <==> k % BATCHES == j % BATCHES
  {
    BatchStartIs(k);
    BatchStartIs(j);
  }

  lemma BatchStartIs(k: nat)
    ensures BatchStart(k) == (k % BATCHES) * BATCH
  {
    var q, r := k / BATCHES, k % BATCHES;
    assert k == q * BATCHES + r;
    assert k * 256 == q * 0x1_0000_0000_0000_0000 + r * 256;
    WrapsOff(q, r * 256);
  }

  lemma WrapsOff(q: nat, x: nat)
    requires x < U64
    ensures (q * 0x1_0000_0000_0000_0000 + x) % U64 == x
  {
  }
}
