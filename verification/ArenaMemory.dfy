/** Address ranges, and the memory an arena has obtained from its allocator and not given
    back yet. */
module ArenaMemory {

  datatype Region = Region(at: nat, size: nat)

  /** No byte in common. */
  predicate Apart(a: Region, b: Region) {
    a.size == 0 || b.size == 0 || a.at + a.size <= b.at || b.at + b.size <= a.at
  }

  /** Every byte of `r` is one of `o`. */
  predicate Within(r: Region, o: Region) {
    o.at <= r.at && r.at + r.size <= o.at + o.size
  }

  lemma ApartWithin(a: Region, b: Region, r: Region)
    requires Apart(a, b) && Within(r, a)
    ensures Apart(r, b) && Apart(b, r)
  {
  }

  /** Two regions of different owners. */
  lemma ApartOwners(r: Region, o: Region, q: Region, p: Region)
    requires Apart(o, p) && Within(r, o) && Within(q, p)
    ensures Apart(r, q)
  {
  }

  /** The allocator may hand out `mem`: it overlaps nothing that is in use. */
  ghost predicate Unused(inUse: multiset<Region>, mem: Region) {
    mem.size > 0 && forall o :: o in inUse ==> Apart(o, mem)
  }

  ghost predicate PairwiseApart(inUse: multiset<Region>) {
    && (forall o :: o in inUse ==> o.size > 0 && inUse[o] == 1)
    && (forall o, p :: o in inUse && p in inUse && o != p ==> Apart(o, p))
  }

  lemma ObtainKeepsApart(inUse: multiset<Region>, mem: Region)
    requires PairwiseApart(inUse) && Unused(inUse, mem)
    ensures mem !in inUse && PairwiseApart(inUse + multiset{mem})
  {
    var all := inUse + multiset{mem};
    forall o | o in all ensures o.size > 0 && all[o] == 1 {
      assert o in inUse || o == mem;
    }
    forall o, p | o in all && p in all && o != p ensures Apart(o, p) {
      assert o in inUse || o == mem;
      assert p in inUse || p == mem;
    }
  }

  /** Giving back the regions of a list one by one. A release of anything that is not
      live, with exactly that size, is a fault. */
  datatype Heap = Heap(live: multiset<Region>) | Fault

  function Release(h: Heap, r: Region): Heap {
    if h.Heap? && r in h.live then Heap(h.live - multiset{r}) else Fault
  }

  function ReleaseAll(h: Heap, rs: seq<Region>): Heap
    decreases |rs|
  {
    if rs == [] then h else ReleaseAll(Release(h, rs[0]), rs[1..])
  }

  lemma {:induction false} FaultStays(rs: seq<Region>)
    ensures ReleaseAll(Fault, rs) == Fault
  {
    if rs != [] {
      FaultStays(rs[1..]);
    }
  }

  lemma TakeOne(live: multiset<Region>, r: Region, rest: multiset<Region>)
    requires r in live
    ensures rest <= live - multiset{r} <==> multiset{r} + rest <= live
    ensures live - multiset{r} - rest == live - (multiset{r} + rest)
  {
    var less, all := live - multiset{r}, multiset{r} + rest;
    if rest <= less {
      forall x ensures all[x] <= live[x] {
        assert rest[x] <= less[x];
      }
    }
    if all <= live {
      forall x ensures rest[x] <= less[x] {
        assert all[x] <= live[x];
      }
    }
  }

  lemma SplitFirst(rs: seq<Region>)
    requires rs != []
    ensures multiset(rs) == multiset{rs[0]} + multiset(rs[1..])
  {
    assert rs == [rs[0]] + rs[1..];
  }

  /** A list can be given back exactly when each of its entries is live as often as the
      list has it, and then just those entries are gone. */
  lemma {:induction false} ReleaseAllExact(live: multiset<Region>, rs: seq<Region>)
    ensures ReleaseAll(Heap(live), rs) == if multiset(rs) <= live then Heap(live - multiset(rs)) else Fault
    decreases |rs|
  {
    if rs == [] {
      assert live - multiset(rs) == live;
    } else {
      SplitFirst(rs);
      if rs[0] in live {
        ReleaseAllExact(live - multiset{rs[0]}, rs[1..]);
        TakeOne(live, rs[0], multiset(rs[1..]));
      } else {
        FaultStays(rs[1..]);
        assert multiset(rs)[rs[0]] > live[rs[0]];
      }
    }
  }

  lemma {:induction false} ReleaseAllAppend(h: Heap, a: seq<Region>, b: seq<Region>)
    ensures ReleaseAll(h, a + b) == ReleaseAll(ReleaseAll(h, a), b)
    decreases |a|
  {
    if a == [] {
      assert a + b == b;
    } else {
      assert (a + b)[0] == a[0] && (a + b)[1..] == a[1..] + b;
      ReleaseAllAppend(Release(h, a[0]), a[1..], b);
    }
  }
}
