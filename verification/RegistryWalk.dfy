/** The order in which ThreadSafeArena::CleanupList and ThreadSafeArena::Free visit the
    serial arenas, in a table nobody is changing any more. */
module RegistryWalk {
  import opened Common
  import opened ThreadRegistry

  /** No thread is inside the arena: the users' obligation before Reset or destruction. */
  predicate Quiescent(s: State) {
    forall t <- s.pc :: s.pc[t].Outside? || s.pc[t].Returned?
  }

  /** The registered threads in the order of their slots, oldest chunk first. */
  function SlotOrder(s: State, h: nat): seq<Thread>
    requires h < |s.chunks|
  {
    if h == 0 then [] else SlotOrder(s, h - 1) + s.chunks[h].claims
  }

  lemma {:induction false} SlotOrderMember(s: State, h: nat, k: nat)
    requires Inv(s) && h < |s.chunks| && k < |SlotOrder(s, h)|
    ensures var u := SlotOrder(s, h)[k];
            u in s.slot && 1 <= s.slot[u].0 <= h
    ensures var u := SlotOrder(s, h)[k];
            var n := |SlotOrder(s, s.slot[u].0 - 1)|;
            k == n + s.slot[u].1
  {
    var n := |SlotOrder(s, h - 1)|;
    if k < n {
      SlotOrderMember(s, h - 1, k);
    } else {
      assert ClaimOk(s, h, k - n);
    }
  }

  /** Every registered thread occurs exactly once. */
  lemma SlotOrderDistinct(s: State, j: nat, k: nat)
    requires Inv(s) && j < k < |SlotOrder(s, s.head)|
    ensures SlotOrder(s, s.head)[j] != SlotOrder(s, s.head)[k]
  {
    SlotOrderMember(s, s.head, j);
    SlotOrderMember(s, s.head, k);
  }

  lemma {:induction false} SlotOrderContains(s: State, h: nat, c: nat, i: nat)
    requires 1 <= c <= h < |s.chunks| && i < |s.chunks[c].claims|
    ensures s.chunks[c].claims[i] in SlotOrder(s, h)
  {
    if c < h {
      SlotOrderContains(s, h - 1, c, i);
    }
  }

  lemma SlotOrderComplete(s: State, t: Thread)
    requires Inv(s) && Quiescent(s) && t in s.owner
    ensures t in SlotOrder(s, s.head)
  {
    assert PcOk(s, t);
    assert SlotOwned(s, t);
    SlotOrderContains(s, s.head, s.slot[t].0, s.slot[t].1);
  }

  lemma HeadInRange(s: State)
    requires Inv(s)
    ensures s.head < |s.chunks|
  {
  }

  /** Walks the chunks from the newest, each backwards, and the first arena last. */
  method CleanupOrder(s: State) returns (visited: seq<Serial>)
    requires Inv(s) && Quiescent(s)
    ensures |visited| == |SlotOrder(s, s.head)| + 1 && visited[|visited| - 1] == FIRST
    ensures Backwards(s, visited[..|visited| - 1], SlotOrder(s, s.head))
    ensures forall j, k | 0 <= j < k < |visited| :: visited[j] != visited[k]
    ensures forall t <- s.owner :: s.owner[t] in visited
  {
    hide SlotsOk, OwnersOk, HeadOk, PcOk;
    HeadInRange(s);
    visited := [];
    var chunk: nat := s.head;
    ghost var order := SlotOrder(s, s.head);
    assert ChunkOk(s, chunk);
    while s.chunks[chunk].capacity != 0
      invariant chunk <= s.head && (s.chunks[chunk].capacity == 0 <==> chunk == 0)
      invariant |visited| == |order| - |SlotOrder(s, chunk)|
      invariant SlotOrder(s, chunk) <= order
      invariant Backwards(s, visited, order)
      decreases chunk
    {
      var nextChunk := s.chunks[chunk].next;
      assert ChunkOk(s, chunk) && ChunkOk(s, nextChunk);
      assert SlotOrder(s, chunk) == SlotOrder(s, nextChunk) + s.chunks[chunk].claims;
      ghost var base := |SlotOrder(s, nextChunk)|;
      var i := SafeSize(s.chunks[chunk]);
      while i > 0
        invariant 0 <= i <= |s.chunks[chunk].claims|
        invariant |visited| == |order| - (base + i)
        invariant Backwards(s, visited, order)
      {
        i := i - 1;
        LiveSlot(s, chunk, i);
        assert order[|order| - 1 - |visited|] == SlotOrder(s, chunk)[base + i] == s.chunks[chunk].claims[i];
        BackwardsNext(s, visited, order);
        visited := visited + [s.chunks[chunk].arenas[i].value];
      }
      chunk := nextChunk;
    }
    EachOnce(s, visited);
    ghost var others := visited;
    visited := visited + [FIRST];
    assert visited[..|visited| - 1] == others;
  }

  /** The arenas visited are those of the threads in `order`, from the last on down. */
  ghost predicate Backwards(s: State, visited: seq<Serial>, order: seq<Thread>) {
    && |visited| <= |order|
    && (forall k | 0 <= k < |visited| :: ArenaOf(s, order[|order| - 1 - k], visited[k]))
  }

  ghost predicate ArenaOf(s: State, t: Thread, x: Serial) {
    t in s.owner && s.owner[t] == x
  }

  lemma BackwardsNext(s: State, visited: seq<Serial>, order: seq<Thread>)
    requires Backwards(s, visited, order) && |visited| < |order| && order[|order| - 1 - |visited|] in s.owner
    ensures Backwards(s, visited + [s.owner[order[|order| - 1 - |visited|]]], order)
  {
    var v := visited + [s.owner[order[|order| - 1 - |visited|]]];
    forall k | 0 <= k < |v| ensures ArenaOf(s, order[|order| - 1 - k], v[k]) {
      if k < |visited| {
        assert ArenaOf(s, order[|order| - 1 - k], visited[k]);
      }
    }
  }

  /** In a quiet table every slot below the size holds the arena of its claimant. */
  lemma LiveSlot(s: State, c: nat, i: nat)
    requires Inv(s) && Quiescent(s) && c < |s.chunks| && i < |s.chunks[c].claims|
    ensures i < |s.chunks[c].arenas| && s.chunks[c].claims[i] in s.owner
    ensures s.chunks[c].arenas[i] == Some(s.owner[s.chunks[c].claims[i]])
  {
    assert ChunkOk(s, c);
    assert SlotOk(s, c, i);
  }

  lemma EachOnce(s: State, visited: seq<Serial>)
    requires Inv(s) && Quiescent(s)
    requires var order := SlotOrder(s, s.head); |visited| == |order| && Backwards(s, visited, order)
    ensures forall j, k | 0 <= j < k < |visited| :: visited[j] != visited[k]
    ensures FIRST !in visited
    ensures forall t <- s.owner :: s.owner[t] in visited
  {
    var order := SlotOrder(s, s.head);
    forall j, k | 0 <= j < k < |visited| ensures visited[j] != visited[k] {
      VisitedDistinct(s, visited, order, j, k);
    }
    forall k | 0 <= k < |visited| ensures visited[k] != FIRST {
      assert ArenaOf(s, order[|order| - 1 - k], visited[k]);
    }
    forall t <- s.owner ensures s.owner[t] in visited {
      SlotOrderComplete(s, t);
      var k :| 0 <= k < |order| && order[k] == t;
      assert ArenaOf(s, order[|order| - 1 - (|order| - 1 - k)], visited[|order| - 1 - k]);
    }
  }

  lemma VisitedDistinct(s: State, visited: seq<Serial>, order: seq<Thread>, j: nat, k: nat)
    requires Inv(s) && order == SlotOrder(s, s.head) && |visited| == |order| && Backwards(s, visited, order)
    requires j < k < |visited|
    ensures visited[j] != visited[k]
  {
    var n := |order|;
    assert ArenaOf(s, order[n - 1 - j], visited[j]) && ArenaOf(s, order[n - 1 - k], visited[k]);
    SlotOrderDistinct(s, n - 1 - k, n - 1 - j);
  }
}
