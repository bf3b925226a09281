/** The list of registered destructors of a serial arena: chunks of nodes, newest chunk
    first, filled in place from the front and run from the back. */
module CleanupList {
  import opened Common
  import opened ArenaMemory

  const CHUNK_HEADER: nat := 16
  const NODE_SIZE: nat := 16

  datatype Node = Node(elem: nat, destructor: nat)

  /** A chunk and the nodes written to it so far. */
  datatype Filled = Filled(mem: Region, nodes: seq<Node>)

  function Capacity(size: nat): nat {
    if size < CHUNK_HEADER then 0 else (size - CHUNK_HEADER) / NODE_SIZE
  }

  /** AllocationSize: start small, then double up to a limit, in size_t. */
  function AllocationSize(last: nat, start: nat, max: nat): nat {
    if last == 0 then start else Min(2 * last % U64, max)
  }

  /** The size AllocateCleanupChunk asks for. */
  function ChunkRequest(list: seq<Filled>): nat {
    AllocationSize(if list == [] then 0 else list[0].mem.size, 64, 4096)
  }

  /** Sizes as allocators hand them out, so that doubling does not wrap. */
  predicate ChunkMemory(list: seq<Filled>, mem: Region) {
    ChunkRequest(list) <= mem.size < U64 / 2
  }

  /** Every chunk but the newest is full, and the newest holds at least one node. */
  predicate ListOk(list: seq<Filled>) {
    && (forall i | 0 <= i < |list| :: 64 <= list[i].mem.size < U64 / 2)
    && (forall i | 0 < i < |list| :: |list[i].nodes| == Capacity(list[i].mem.size))
    && (list != [] ==> 0 < |list[0].nodes| <= Capacity(list[0].mem.size))
  }

  function Added(list: seq<Filled>, node: Node, mem: Region): seq<Filled> {
    if list != [] && |list[0].nodes| < Capacity(list[0].mem.size) then
      [Filled(list[0].mem, list[0].nodes + [node])] + list[1..]
    else [Filled(mem, [node])] + list
  }

  /** The nodes in the order they were added. */
  function Contents(list: seq<Filled>): seq<Node> {
    if list == [] then [] else Contents(list[1..]) + list[0].nodes
  }

  function Reversed(nodes: seq<Node>): (r: seq<Node>)
    ensures |r| == |nodes|
  {
    seq(|nodes|, i requires 0 <= i < |nodes| => nodes[|nodes| - 1 - i])
  }

  /** The order in which the chunk walk runs the destructors. */
  function RunOrder(list: seq<Filled>): seq<Node> {
    if list == [] then [] else Reversed(list[0].nodes) + RunOrder(list[1..])
  }

  /** The memory of the chunks, in the order it is given back. */
  function Memory(list: seq<Filled>): (rs: seq<Region>)
    ensures |rs| == |list|
  {
    seq(|list|, i requires 0 <= i < |list| => list[i].mem)
  }

  lemma AddedOk(list: seq<Filled>, node: Node, mem: Region)
    requires ListOk(list) && ChunkMemory(list, mem)
    ensures ListOk(Added(list, node, mem))
  {
  }

  /** Adding appends to the contents, whichever chunk takes the node. */
  lemma AddedContents(list: seq<Filled>, node: Node, mem: Region)
    ensures Contents(Added(list, node, mem)) == Contents(list) + [node]
  {
    var r := Added(list, node, mem);
    if list != [] && |list[0].nodes| < Capacity(list[0].mem.size) {
      assert r[1..] == list[1..];
      assert Contents(list[1..]) + (list[0].nodes + [node]) == (Contents(list[1..]) + list[0].nodes) + [node];
    } else {
      assert r[1..] == list;
    }
  }

  lemma ReversedAppend(a: seq<Node>, b: seq<Node>)
    ensures Reversed(a + b) == Reversed(b) + Reversed(a)
  {
  }

  /** Destructors run in exactly the reverse of the order in which they were added, each
      one once. */
  lemma {:induction false} RunsInReverse(list: seq<Filled>)
    ensures RunOrder(list) == Reversed(Contents(list))
  {
    if list != [] {
      RunsInReverse(list[1..]);
      ReversedAppend(Contents(list[1..]), list[0].nodes);
    }
  }

  /** Any sequence of additions, with the memory the allocator returned for each. */
  function AddedAll(list: seq<Filled>, nodes: seq<Node>, mems: seq<Region>): seq<Filled>
    requires |nodes| == |mems|
    decreases |nodes|
  {
    if nodes == [] then list
    else AddedAll(Added(list, nodes[0], mems[0]), nodes[1..], mems[1..])
  }

  lemma MoveFirst(a: seq<Node>, b: seq<Node>)
    requires b != []
    ensures (a + [b[0]]) + b[1..] == a + b
  {
  }

  /** Over a whole life of a list: what runs at the end is the reverse of what was added. */
  lemma {:induction false} WholeLifeRunsInReverse(list: seq<Filled>, nodes: seq<Node>, mems: seq<Region>)
    requires |nodes| == |mems|
    ensures RunOrder(AddedAll(list, nodes, mems)) == Reversed(Contents(list) + nodes)
    decreases |nodes|
  {
    if nodes == [] {
      RunsInReverse(list);
      assert Contents(list) + nodes == Contents(list);
    } else {
      WholeLifeRunsInReverse(Added(list, nodes[0], mems[0]), nodes[1..], mems[1..]);
      AddedContents(list, nodes[0], mems[0]);
      MoveFirst(Contents(list), nodes);
    }
  }

  // ----- the list in memory -----

  class Chunk {
    const mem: Region
    const next: Chunk?
    const nodes: array<Node>

    constructor (next: Chunk?, mem: Region)
      ensures this.next == next && this.mem == mem
      ensures fresh(nodes) && nodes.Length == Capacity(mem.size)
    {
      this.next, this.mem := next, mem;
      nodes := new Node[Capacity(mem.size)](_ => Node(0, 0));
    }
  }

  ghost function ArraysOf(chunks: seq<Chunk>): set<array<Node>> {
    set c <- chunks :: c.nodes
  }

  /** The linked chunks from `head` on are `chunks`, each with its own nodes. */
  ghost predicate Chain(head: Chunk?, chunks: seq<Chunk>) {
    if chunks == [] then head == null
    else
      && head == chunks[0]
      && 64 <= head.mem.size < U64 / 2 && head.nodes.Length == Capacity(head.mem.size)
      && head.nodes !in ArraysOf(chunks[1..])
      && Chain(head.next, chunks[1..])
  }

  /** The older chunks, all full. */
  ghost function Full(chunks: seq<Chunk>): (list: seq<Filled>)
    reads ArraysOf(chunks)
    ensures |list| == |chunks|
  {
    if chunks == [] then []
    else
      assert ArraysOf(chunks[1..]) <= ArraysOf(chunks);
      [Filled(chunks[0].mem, chunks[0].nodes[..])] + Full(chunks[1..])
  }

  class ChunkList {
    var head: Chunk?
    var next: nat      // index of the next free node of the head chunk
    var limit: nat
    ghost var chunks: seq<Chunk>

    ghost predicate Valid()
      reads this
    {
      && Chain(head, chunks)
      && (if head == null then next == limit == 0 else 0 < next <= limit == head.nodes.Length)
    }

    ghost function Abs(): (list: seq<Filled>)
      requires Valid()
      reads this, ArraysOf(chunks)
    {
      if chunks == [] then []
      else
        assert ArraysOf(chunks[1..]) <= ArraysOf(chunks);
        [Filled(head.mem, head.nodes[..next])] + Full(chunks[1..])
    }

    constructor ()
      ensures Valid() && Abs() == []
    {
      head, next, limit, chunks := null, 0, 0, [];
    }

    method AddFromExisting(node: Node)
      requires Valid() && next < limit
      modifies this`next, head.nodes
      ensures Valid()
      ensures Abs() == [Filled(old(Abs())[0].mem, old(Abs())[0].nodes + [node])] + old(Abs())[1..]
    {
      head.nodes[next] := node;
      next := next + 1;
      assert head.nodes[..next] == old(head.nodes[..next]) + [node];
    }

    method AddFallback(node: Node, mem: Region)
      requires Valid() && next == limit && ChunkMemory(Abs(), mem)
      modifies this
      ensures Valid() && fresh(ArraysOf(chunks) - old(ArraysOf(chunks)))
      ensures Abs() == [Filled(mem, [node])] + old(Abs())
    {
      head := new Chunk(head, mem);
      chunks := [head] + chunks;
      next, limit := 1, Capacity(mem.size);
      assert chunks[1..] == old(chunks);
      head.nodes[0] := node;
      assert head.nodes[..1] == [node];
      assert old(chunks) != [] ==> old(head.nodes[..next]) == old(head).nodes[..];
    }

    method Add(node: Node, mem: Region)
      requires Valid() && ChunkMemory(Abs(), mem)
      modifies this, ArraysOf(chunks)
      ensures Valid() && fresh(ArraysOf(chunks) - old(ArraysOf(chunks)))
      ensures Abs() == Added(old(Abs()), node, mem)
    {
      if next < limit {
        AddFromExisting(node);
      } else {
        AddFallback(node, mem);
      }
    }

    /** Cleanup: runs every destructor and gives each chunk back once it is done with it. */
    method Cleanup(heap: Heap) returns (destroyed: seq<Node>, after: Heap)
      requires Valid() && ReleaseAll(heap, Memory(Abs())).Heap?
      ensures destroyed == RunOrder(Abs())
      ensures after == ReleaseAll(heap, Memory(Abs()))
    {
      if head == null {
        return [], heap;
      }
      destroyed, after := RunChunks(head, next - 1, heap, chunks, Abs());
    }

    /** PeekForTesting: the elements in the order Cleanup would destroy them. */
    method Peek() returns (elems: seq<nat>)
      requires Valid()
      ensures elems == Elems(RunOrder(Abs()))
    {
      elems := [];
      var c := head;
      if c == null { return; }
      ghost var rest, list := chunks, Abs();
      ghost var order := Elems(RunOrder(list));
      var it := next - 1;
      while true
        invariant Chain(c, rest) && Rest(list, c, it, rest)
        invariant elems + Elems(RunOrder(list)) == order
        decreases |rest|
      {
        ghost var nodes := c.nodes[..it + 1];
        ElemsAppend(elems, Reversed(nodes), RunOrder(list[1..]));
        elems := PeekNodes(c, it, elems);
        RestSteps(list, c, it, rest);
        list, rest := list[1..], rest[1..];
        c := c.next;
        if c == null { return; }
        it := c.nodes.Length - 1;
      }
    }
  }

  /** What a walk that stands at node `it` of chunk `c` has still to visit. */
  ghost predicate Rest(list: seq<Filled>, c: Chunk?, it: int, rest: seq<Chunk>)
    reads ArraysOf(rest)
  {
    rest != [] && c == rest[0] && 0 <= it < c.nodes.Length && list != []
    && list[0] == Filled(c.mem, c.nodes[..it + 1])
    && (assert ArraysOf(rest[1..]) <= ArraysOf(rest); list[1..] == Full(rest[1..]))
  }

  lemma RestSteps(list: seq<Filled>, c: Chunk, it: int, rest: seq<Chunk>)
    requires Chain(c, rest) && Rest(list, c, it, rest)
    ensures if c.next == null then list[1..] == []
            else rest[1..] != [] && Rest(list[1..], c.next, c.next.nodes.Length - 1, rest[1..])
  {
    var next, more := c.next, rest[1..];
    if next != null {
      assert ArraysOf(more[1..]) <= ArraysOf(more);
      assert next.nodes[..next.nodes.Length] == next.nodes[..];
    }
  }

  /** What has been destroyed and given back, and what `list` still has to add to it. */
  ghost predicate Progress(list: seq<Filled>, destroyed: seq<Node>, after: Heap, order: seq<Node>, end: Heap) {
    && destroyed + RunOrder(list) == order
    && ReleaseAll(after, Memory(list)) == end && end.Heap?
  }

  lemma ProgressSteps(list: seq<Filled>, destroyed: seq<Node>, after: Heap, order: seq<Node>, end: Heap)
    requires list != [] && Progress(list, destroyed, after, order, end)
    ensures after.Heap? && list[0].mem in after.live
    ensures Progress(list[1..], destroyed + Reversed(list[0].nodes), Release(after, list[0].mem), order, end)
  {
    assert Memory(list)[1..] == Memory(list[1..]);
    FaultStays(Memory(list[1..]));
    SeqAssoc(destroyed, Reversed(list[0].nodes), RunOrder(list[1..]));
  }

  lemma ProgressEnds(destroyed: seq<Node>, after: Heap, order: seq<Node>, end: Heap)
    requires Progress([], destroyed, after, order, end)
    ensures destroyed == order && after == end
  {
  }

  /** The walk over the chunks, from node `last` of `first` on. */
  method RunChunks(first: Chunk, last: int, heap: Heap, ghost chunks: seq<Chunk>, ghost all: seq<Filled>)
    returns (destroyed: seq<Node>, after: Heap)
    requires Chain(first, chunks) && Rest(all, first, last, chunks)
    requires ReleaseAll(heap, Memory(all)).Heap?
    ensures destroyed == RunOrder(all) && after == ReleaseAll(heap, Memory(all))
  {
    destroyed, after := [], heap;
    var c, it := first, last;
    ghost var rest, list := chunks, all;
    ghost var order, end := RunOrder(list), ReleaseAll(heap, Memory(list));
    while true
      invariant Chain(c, rest) && Rest(list, c, it, rest)
      invariant Progress(list, destroyed, after, order, end)
      decreases |rest|
    {
      var ran := DestroyNodes(c, it);
      ProgressSteps(list, destroyed, after, order, end);
      assert c.mem in after.live;
      destroyed := destroyed + ran;
      var next := c.next;
      after := Release(after, c.mem);
      RestSteps(list, c, it, rest);
      list, rest := list[1..], rest[1..];
      if next == null {
        ProgressEnds(destroyed, after, order, end);
        return;
      }
      c := next;
      it := c.nodes.Length - 1;
    }
  }

  method PeekNodes(c: Chunk, last: int, before: seq<nat>) returns (elems: seq<nat>)
    requires -1 <= last < c.nodes.Length
    ensures elems == before + Elems(Reversed(c.nodes[..last + 1]))
  {
    var found := [];
    var it := last;
    while it >= 0
      invariant -1 <= it <= last && |found| == last - it
      invariant forall k | 0 <= k < |found| :: found[k] == c.nodes[last - k].elem
    {
      found := found + [c.nodes[it].elem];
      it := it - 1;
    }
    assert found == Elems(Reversed(c.nodes[..last + 1]));
    elems := before + found;
  }

  /** The destruction of one chunk's nodes: the first loop only prefetches, the second
      destroys up to eight nodes behind it, the third the rest. */
  method DestroyNodes(c: Chunk, last: int) returns (destroyed: seq<Node>)
    requires -1 <= last < c.nodes.Length
    ensures destroyed == Reversed(c.nodes[..last + 1])
  {
    destroyed := [];
    var it, prefetch, i := last, last, 0;
    while prefetch >= 0 && i < 8
      invariant -1 <= prefetch <= it
    {
      prefetch, i := prefetch - 1, i + 1;
    }
    while prefetch >= 0
      invariant -1 <= prefetch <= it <= last && |destroyed| == last - it
      invariant forall k | 0 <= k < |destroyed| :: destroyed[k] == c.nodes[last - k]
    {
      destroyed := destroyed + [c.nodes[it]];
      it, prefetch := it - 1, prefetch - 1;
    }
    while it >= 0
      invariant -1 <= it <= last && |destroyed| == last - it
      invariant forall k | 0 <= k < |destroyed| :: destroyed[k] == c.nodes[last - k]
    {
      destroyed := destroyed + [c.nodes[it]];
      it := it - 1;
    }
  }

  function Elems(nodes: seq<Node>): (es: seq<nat>)
    ensures |es| == |nodes|
  {
    seq(|nodes|, i requires 0 <= i < |nodes| => nodes[i].elem)
  }

  lemma ElemsAppend(before: seq<nat>, a: seq<Node>, b: seq<Node>)
    ensures before + Elems(a + b) == (before + Elems(a)) + Elems(b)
  {
  }
}
