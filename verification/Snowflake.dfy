/** The snowflake identifiers: a clock reading, a node number and a sequence number packed
    into 64 bits, over whole runs of a generator. */
module Snowflake {
  import opened Common

  const EPOCH: int := 1577836800000
  const MAX_NODE: int := 1023
  const SEQUENCES: int := 4096
  const NODES: int := 1024
  const STAMP: int := 0x40_0000          // 2^22, what shifting by the two lower fields multiplies by
  const STAMPS: int := 0x200_0000_0000   // 2^41
  const I63: int := 0x8000_0000_0000_0000

  // ----- one identifier -----

  /** The packed fields as the 64-bit pattern that `uint64(id)` shows: `stamp` is any
      int64, shifted left by 22 in two's complement. */
  function Compose(stamp: int, node: nat, sequence: nat): (id: nat)
    requires node < NODES && sequence < SEQUENCES
    ensures id < U64
  {
    ComposeFits(stamp, node, sequence);
    stamp * STAMP % U64 + node * SEQUENCES + sequence
  }

  /** Shifting by 22 leaves whole multiples of 2^22. */
  lemma ComposeFits(stamp: int, node: nat, sequence: nat)
    requires node < NODES && sequence < SEQUENCES
    ensures stamp * STAMP % U64 == stamp % (2 * STAMPS) * STAMP
    ensures 0 <= stamp * STAMP % U64 + node * SEQUENCES + sequence < U64
  {
    var q, r := stamp / (2 * STAMPS), stamp % (2 * STAMPS);
    assert stamp * STAMP == q * U64 + r * STAMP;
    assert 0 <= r * STAMP < U64;
    Wrapped(q, r * STAMP);
  }

  lemma Wrapped(q: int, r: int)
    requires 0 <= r < U64
    ensures (q * U64 + r) % U64 == r
  {
  }

  /** The three fields do not overlap, so joining them with OR adds them up, and masking
      the sequence takes it modulo 4096. */
  lemma FieldsDoNotOverlap(stamp: bv64, node: bv64, sequence: bv64)
    requires node < 1024 && sequence < 4096
    ensures (stamp << 22) | (node << 12) | sequence == stamp * 0x40_0000 + node * 4096 + sequence
    ensures (sequence + 1) & 4095 == if sequence == 4095 then 0 else sequence + 1
  {
  }

  datatype Fields = Fields(stamp: nat, node: nat, sequence: nat)

  function Decode(id: nat): Fields {
    Fields(id / STAMP, id / SEQUENCES % NODES, id % SEQUENCES)
  }

  /** Every identifier decodes to the fields it was made from; the timestamp comes back
      modulo 2^42. */
  lemma DecodeOfCompose(stamp: int, node: nat, sequence: nat)
    requires node < NODES && sequence < SEQUENCES
    ensures Decode(Compose(stamp, node, sequence)) == Fields(stamp % (2 * STAMPS), node, sequence)
  {
    ComposeFits(stamp, node, sequence);
    var t := stamp % (2 * STAMPS);
    var id := t * STAMP + node * SEQUENCES + sequence;
    assert id == (t * NODES + node) * SEQUENCES + sequence;
    DivUnique(id, SEQUENCES, t * NODES + node, sequence);
    DivUnique(t * NODES + node, NODES, t, node);
    DivUnique(id, STAMP, t, node * SEQUENCES + sequence);
  }

  /** Two identifiers are equal exactly when they have the same node, the same sequence
      number and timestamps 2^42 milliseconds apart. */
  lemma EqualIdentifiers(s1: int, n1: nat, q1: nat, s2: int, n2: nat, q2: nat)
    requires n1 < NODES && q1 < SEQUENCES && n2 < NODES && q2 < SEQUENCES
    ensures Compose(s1, n1, q1) == Compose(s2, n2, q2)
        <==> n1 == n2 && q1 == q2 && s1 % (2 * STAMPS) == s2 % (2 * STAMPS)
  {
    DecodeOfCompose(s1, n1, q1);
    DecodeOfCompose(s2, n2, q2);
    ComposeFits(s1, n1, q1);
    ComposeFits(s2, n2, q2);
  }

  /** Within 41 bits of timestamp the order of identifiers of one node is that of
      (timestamp, sequence). */
  lemma ComposeOrder(s1: int, q1: nat, s2: int, q2: nat, node: nat)
    requires node < NODES && q1 < SEQUENCES && q2 < SEQUENCES && 0 <= s1 < STAMPS && 0 <= s2 < STAMPS
    ensures Compose(s1, node, q1) < Compose(s2, node, q2) <==> s1 < s2 || (s1 == s2 && q1 < q2)
  {
    ComposeFits(s1, node, q1);
    ComposeFits(s2, node, q2);
  }

  /** Uint64ToInt64. */
  function Uint64ToInt64(id: nat): (v: int)
    requires id < U64
    ensures 0 <= v < I63
  {
    if id > I63 - 1 then id - I63 else id
  }

  /** The conversion keeps an identifier exactly when its timestamp has 41 bits, and only
      then is it undone by converting back. */
  lemma ConversionIsIdentity(stamp: int, node: nat, sequence: nat)
    requires node < NODES && sequence < SEQUENCES
    ensures Uint64ToInt64(Compose(stamp, node, sequence)) == Compose(stamp, node, sequence)
        <==> stamp % (2 * STAMPS) < STAMPS
  {
    ComposeFits(stamp, node, sequence);
  }

  /** Above 2^63 the conversion folds onto the identifiers below. */
  lemma ConversionCollides(a: nat, b: nat)
    requires a < U64 && b < U64 && a != b
    ensures Uint64ToInt64(a) == Uint64ToInt64(b) <==> a + I63 == b || b + I63 == a
  {
  }

  // ----- one call -----

  /** The part of a generator that calls change. */
  datatype State = State(sequence: int, lastTime: int)

  /** A call gets its identifier, panics because the clock went back, or is still
      spinning for the next millisecond when the clock readings given for it end. */
  datatype Outcome = Issued(id: nat) | ClockMovedBack | StillWaiting

  /** The first reading after `last` among `clock`, if any. */
  function Awaited(clock: seq<int>, last: int): Option<int> {
    if clock == [] then None
    else if clock[0] > last then Some(clock[0])
    else Awaited(clock[1..], last)
  }

  /** One call as a function of the state and the clock readings it gets. */
  function Call(s: State, node: nat, clock: seq<int>): (State, Outcome)
    requires node < NODES && 0 <= s.sequence < SEQUENCES && |clock| > 0
  {
    if clock[0] < s.lastTime then (s, ClockMovedBack)
    else if clock[0] > s.lastTime then Issue(State(0, clock[0]), node)
    else if s.sequence < SEQUENCES - 1 then Issue(State(s.sequence + 1, clock[0]), node)
    else
      match Awaited(clock, s.lastTime)
      case None => (State(0, s.lastTime), StillWaiting)
      case Some(now) => Issue(State(0, now), node)
  }

  function Issue(s: State, node: nat): (State, Outcome)
    requires node < NODES && 0 <= s.sequence < SEQUENCES
  {
    (s, Issued(Compose(s.lastTime - EPOCH, node, s.sequence)))
  }

  /** Reading `i` is the first one after `last`. */
  ghost predicate FirstLater(clock: seq<int>, last: int, i: int) {
    0 <= i < |clock| && clock[i] > last && forall j | 0 <= j < i :: clock[j] <= last
  }

  /** Which reading a waiting call ends on: the first one after `last`. */
  lemma {:induction false} AwaitedIff(clock: seq<int>, last: int)
    ensures Awaited(clock, last) == None <==> forall i | 0 <= i < |clock| :: clock[i] <= last
    ensures forall i | FirstLater(clock, last, i) :: Awaited(clock, last) == Some(clock[i])
  {
    if clock != [] && clock[0] <= last {
      AwaitedIff(clock[1..], last);
      forall i | 1 <= i < |clock| ensures clock[i] == clock[1..][i - 1] {}
      forall i | FirstLater(clock, last, i) ensures Awaited(clock, last) == Some(clock[i]) {
        assert FirstLater(clock[1..], last, i - 1);
      }
    }
  }

  /** When a call panics, and when it is left waiting: only in a used-up millisecond that
      no reading leaves. Everything else is answered with an identifier. */
  lemma CallAnswers(s: State, node: nat, clock: seq<int>)
    requires node < NODES && 0 <= s.sequence < SEQUENCES && |clock| > 0
    ensures var (s', out) := Call(s, node, clock);
            && (out.ClockMovedBack? <==> clock[0] < s.lastTime)
            && (out.ClockMovedBack? ==> s' == s)
            && (out.StillWaiting? <==>
                  s.sequence == SEQUENCES - 1 && clock[0] == s.lastTime
                  && forall i | 0 <= i < |clock| :: clock[i] <= s.lastTime)
  {
    AwaitedIff(clock, s.lastTime);
  }

  /** What an identifier taken from the first reading is made of: that reading, the node,
      and the next sequence number of the millisecond, from 0 in a new one. */
  lemma CallIssues(s: State, node: nat, clock: seq<int>)
    requires node < NODES && 0 <= s.sequence < SEQUENCES && |clock| > 0
    requires clock[0] > s.lastTime || (clock[0] == s.lastTime && s.sequence < SEQUENCES - 1)
    ensures var (s', out) := Call(s, node, clock);
            var number := if clock[0] == s.lastTime then s.sequence + 1 else 0;
            && out.Issued? && s' == State(number, clock[0])
            && Decode(out.id) == Fields((clock[0] - 1577836800000) % 0x400_0000_0000, node, number)
  {
    var number := if clock[0] == s.lastTime then s.sequence + 1 else 0;
    DecodeOfCompose(clock[0] - EPOCH, node, number);
  }

  /** After 4096 identifiers in one millisecond the call waits for the first reading of a
      later one and starts again from 0 there. */
  lemma CallWaits(s: State, node: nat, clock: seq<int>, i: nat)
    requires node < NODES && s.sequence == 4095 && |clock| > 0 && clock[0] == s.lastTime
    requires FirstLater(clock, s.lastTime, i)
    ensures var (s', out) := Call(s, node, clock);
            && out.Issued? && s' == State(0, clock[i])
            && Decode(out.id) == Fields((clock[i] - 1577836800000) % 0x400_0000_0000, node, 0)
  {
    AwaitedIff(clock, s.lastTime);
    DecodeOfCompose(clock[i] - EPOCH, node, 0);
  }

  class IDGenerator {
    const nodeID: int
    var sequence: int
    var lastTime: int

    ghost predicate Valid()
      reads this
    {
      0 <= nodeID <= MAX_NODE && 0 <= sequence < SEQUENCES
    }

    ghost function Abs(): State
      reads this
    {
      State(sequence, lastTime)
    }

    /** NewIDGenerator past its range test. */
    constructor (node: int)
      requires 0 <= node <= MAX_NODE
      ensures Valid() && nodeID == node && Abs() == State(0, 0)
    {
      nodeID, sequence, lastTime := node, 0, 0;
    }

    /** GenerateID; `clock` lists what the clock shows each time it is read. A caller whose
        wait never ends keeps the mutex, so no call follows one that is still waiting. */
    method GenerateID(clock: seq<int>) returns (out: Outcome)
      requires Valid() && |clock| > 0
      modifies this
      ensures Valid()
      ensures (Abs(), out) == Call(old(Abs()), nodeID, clock)
    {
      var now := clock[0];
      var next := 1;
      if now < lastTime {
        return ClockMovedBack;
      }
      if now == lastTime {
        sequence := (sequence + 1) % SEQUENCES;
        if sequence == 0 {
          assert clock[1..] == clock[next..];
          while now <= lastTime
            invariant 1 <= next <= |clock|
            invariant Valid() && sequence == 0 && lastTime == old(lastTime)
            invariant now <= lastTime ==> Awaited(clock, lastTime) == Awaited(clock[next..], lastTime)
            invariant now > lastTime ==> Awaited(clock, lastTime) == Some(now)
            decreases |clock| - next
          {
            if next == |clock| {
              return StillWaiting;
            }
            now := clock[next];
            assert clock[next..][1..] == clock[next + 1..];
            next := next + 1;
          }
        }
      } else {
        sequence := 0;
      }
      lastTime := now;
      out := Issued(Compose(now - EPOCH, nodeID, sequence));
    }

    /** GenerateBatchUint64IDs: one identifier per entry of `clocks`, or the outcome that
        ended the batch early. */
    method GenerateBatch(clocks: seq<seq<int>>) returns (ids: seq<nat>, failed: Option<Outcome>)
      requires Valid() && forall c <- clocks :: |c| > 0
      modifies this
      ensures Valid()
      ensures var r := Batch(old(Abs()), nodeID, clocks); Abs() == r.0 && ids == r.1 && failed == r.2
    {
      ids, failed := [], None;
      for i := 0 to |clocks|
        invariant Valid() && failed == None
        invariant var r, rest := Batch(old(Abs()), nodeID, clocks), Batch(Abs(), nodeID, clocks[i..]);
                  r.0 == rest.0 && r.1 == ids + rest.1 && r.2 == rest.2
      {
        assert clocks[i..][1..] == clocks[i + 1..];
        ghost var before := Abs();
        var out := GenerateID(clocks[i]);
        if !out.Issued? {
          failed := Some(out);
          return;
        }
        ghost var rest := Batch(Abs(), nodeID, clocks[i + 1..]);
        assert ids + ([out.id] + rest.1) == (ids + [out.id]) + rest.1;
        ids := ids + [out.id];
      }
    }
  }

  // ----- whole runs -----

  /** Calls one after the other until one does not issue. */
  function Batch(s: State, node: nat, clocks: seq<seq<int>>): (State, seq<nat>, Option<Outcome>)
    requires node < NODES && 0 <= s.sequence < SEQUENCES && forall c <- clocks :: |c| > 0
    decreases |clocks|
  {
    if clocks == [] then (s, [], None)
    else
      var (s', out) := Call(s, node, clocks[0]);
      if !out.Issued? then (s', [], Some(out))
      else
        var (s2, ids, failed) := Batch(s', node, clocks[1..]);
        (s2, [out.id] + ids, failed)
  }

  /** The identifiers issued by any run of calls in which panics may be recovered from:
      a panic changes nothing and the next caller goes on. A call that waits for ever ends
      the run. */
  function Run(s: State, node: nat, clocks: seq<seq<int>>): seq<nat>
    requires node < NODES && 0 <= s.sequence < SEQUENCES && forall c <- clocks :: |c| > 0
    decreases |clocks|
  {
    if clocks == [] then []
    else
      var (s', out) := Call(s, node, clocks[0]);
      match out
      case Issued(id) => [id] + Run(s', node, clocks[1..])
      case ClockMovedBack => Run(s', node, clocks[1..])
      case StillWaiting => []
  }

  /** Clock readings from the epoch on, with a 41-bit offset. */
  predicate InRange(t: int) {
    EPOCH <= t < EPOCH + STAMPS
  }

  predicate ClocksOk(clocks: seq<seq<int>>) {
    forall c <- clocks :: |c| > 0 && forall t <- c :: InRange(t)
  }

  /** A state as created, or left by a call. */
  predicate StateOk(s: State) {
    0 <= s.sequence < SEQUENCES && (s == State(0, 0) || InRange(s.lastTime))
  }

  /** Every identifier issued later is above this one. */
  function Floor(s: State, node: nat): int
    requires node < NODES && StateOk(s)
  {
    if s == State(0, 0) then -1 else Compose(s.lastTime - EPOCH, node, s.sequence)
  }

  lemma AwaitedInRange(clock: seq<int>, last: int)
    requires forall t <- clock :: InRange(t)
    ensures Awaited(clock, last).Some? ==> InRange(Awaited(clock, last).value) && Awaited(clock, last).value > last
  {
    if clock != [] {
      assert clock[0] in clock;
    }
  }

  /** One call: the identifier is above all earlier ones, made of the state it leaves, and
      a panic leaves the state alone. */
  lemma CallRaisesFloor(s: State, node: nat, clock: seq<int>)
    requires node < NODES && StateOk(s) && |clock| > 0 && forall t <- clock :: InRange(t)
    ensures var (s', out) := Call(s, node, clock);
            && (out.Issued? ==> StateOk(s') && InRange(s'.lastTime) && out.id == Floor(s', node) > Floor(s, node))
            && (out.ClockMovedBack? ==> s' == s)
  {
    AwaitedInRange(clock, s.lastTime);
    assert InRange(clock[0]);
    var (s', out) := Call(s, node, clock);
    if out.Issued? && s != State(0, 0) {
      ComposeOrder(s.lastTime - EPOCH, s.sequence, s'.lastTime - EPOCH, s'.sequence, node);
    }
  }

  predicate Increasing(ids: seq<nat>) {
    forall i, j | 0 <= i < j < |ids| :: ids[i] < ids[j]
  }

  /** An identifier issued by `node` within the 41-bit range. */
  ghost predicate IssuedBy(id: nat, node: nat) {
    id < I63 && Decode(id).node == node
  }

  lemma IssuedFits(stamp: int, node: nat, sequence: nat)
    requires node < NODES && sequence < SEQUENCES && 0 <= stamp < STAMPS
    ensures IssuedBy(Compose(stamp, node, sequence), node)
  {
    DecodeOfCompose(stamp, node, sequence);
    ComposeFits(stamp, node, sequence);
  }

  /** Over any run of one generator the identifiers strictly increase, stay below 2^63 and
      carry the generator's node number. */
  lemma {:induction false} RunIsIncreasing(s: State, node: nat, clocks: seq<seq<int>>)
    requires node < NODES && StateOk(s) && ClocksOk(clocks)
    ensures var ids := Run(s, node, clocks);
            && Increasing(ids)
            && (forall i | 0 <= i < |ids| :: ids[i] > Floor(s, node) && IssuedBy(ids[i], node))
    decreases |clocks|
  {
    if clocks != [] {
      assert clocks[0] in clocks;
      CallRaisesFloor(s, node, clocks[0]);
      var (s', out) := Call(s, node, clocks[0]);
      if out.Issued? {
        IssuedFits(s'.lastTime - EPOCH, node, s'.sequence);
      }
      if !out.StillWaiting? {
        RunIsIncreasing(s', node, clocks[1..]);
      }
    }
  }

  /** Two generators with different node numbers never issue the same identifier. */
  lemma NodesNeverCollide(s1: State, n1: nat, clocks1: seq<seq<int>>, s2: State, n2: nat, clocks2: seq<seq<int>>)
    requires n1 < NODES && StateOk(s1) && ClocksOk(clocks1)
    requires n2 < NODES && StateOk(s2) && ClocksOk(clocks2)
    requires n1 != n2
    ensures forall id :: !(id in Run(s1, n1, clocks1) && id in Run(s2, n2, clocks2))
  {
    RunIsIncreasing(s1, n1, clocks1);
    RunIsIncreasing(s2, n2, clocks2);
  }

  lemma {:induction false} BatchIsRun(s: State, node: nat, clocks: seq<seq<int>>)
    requires node < NODES && 0 <= s.sequence < SEQUENCES && forall c <- clocks :: |c| > 0
    ensures Batch(s, node, clocks).2 == None ==>
              |Batch(s, node, clocks).1| == |clocks| && Batch(s, node, clocks).1 == Run(s, node, clocks)
    decreases |clocks|
  {
    if clocks != [] {
      var (s', out) := Call(s, node, clocks[0]);
      if out.Issued? {
        BatchIsRun(s', node, clocks[1..]);
      }
    }
  }

  /** A batch that completes holds as many identifiers as asked for, pairwise distinct as
      unsigned numbers, as int64 and as decimal text. */
  lemma BatchesAreDistinct(s: State, node: nat, clocks: seq<seq<int>>)
    requires node < NODES && StateOk(s) && ClocksOk(clocks) && Batch(s, node, clocks).2 == None
    ensures var ids := Batch(s, node, clocks).1;
            && |ids| == |clocks|
            && (forall i | 0 <= i < |ids| :: ids[i] < I63 && Uint64ToInt64(ids[i]) == ids[i])
            && forall i, j | 0 <= i < j < |ids| ::
                 ids[i] < ids[j] && Decimal(ids[i]) != Decimal(ids[j]) && Session(ids[i]) != Session(ids[j])
  {
    BatchIsRun(s, node, clocks);
    RunIsIncreasing(s, node, clocks);
    var ids := Batch(s, node, clocks).1;
    forall i, j | 0 <= i < j < |ids|
      ensures ids[i] < ids[j] && Decimal(ids[i]) != Decimal(ids[j]) && Session(ids[i]) != Session(ids[j])
    {
      DecimalReadsBack(ids[i]);
      DecimalReadsBack(ids[j]);
      assert Session(ids[i])[1..] == Decimal(ids[i]) && Session(ids[j])[1..] == Decimal(ids[j]);
    }
  }

  // ----- printed forms -----

  function Digit(d: nat): (c: char)
    requires d < 10
    ensures '0' <= c <= '9' && (c - '0') as int == d
  {
    '0' + d as char
  }

  /** FormatUint base 10. */
  function Decimal(n: nat): (s: string)
    ensures |s| > 0
  {
    if n < 10 then [Digit(n)] else Decimal(n / 10) + [Digit(n % 10)]
  }

  predicate Digits(s: string) {
    forall i | 0 <= i < |s| :: '0' <= s[i] <= '9'
  }

  function Value(s: string): nat
    requires Digits(s)
  {
    if s == [] then 0 else Value(s[..|s| - 1]) * 10 + (s[|s| - 1] - '0') as int
  }

  /** ParseUint base 10, 64 bits: it accepts non-empty digit strings, leading zeros
      included, whose value fits. */
  function ParseUint(s: string): Option<nat> {
    if s == "" || !Digits(s) || Value(s) >= U64 then None else Some(Value(s))
  }

  lemma {:induction false} DecimalReadsBack(n: nat)
    ensures Digits(Decimal(n)) && Value(Decimal(n)) == n
  {
    if n >= 10 {
      DecimalReadsBack(n / 10);
      var s := Decimal(n);
      assert s[..|s| - 1] == Decimal(n / 10);
    }
  }

  /** The "S" token of GenerateSessionID. */
  function Session(id: nat): string {
    "S" + Decimal(id)
  }

  /** ParseSessionID. */
  function ParseSession(s: string): Option<nat> {
    if |s| < 2 || s[0] != 'S' then None else ParseUint(s[1..])
  }

  /** Every 64-bit identifier comes back from its session token, and a token is accepted
      exactly when it is an S followed by the digits of a 64-bit number. */
  lemma SessionRoundTrip(id: nat, token: string)
    requires id < U64
    ensures ParseSession(Session(id)) == Some(id)
    ensures ParseSession(token) == Some(id) <==>
              |token| >= 2 && token[0] == 'S' && Digits(token[1..]) && Value(token[1..]) == id
  {
    DecimalReadsBack(id);
    assert Session(id)[1..] == Decimal(id);
  }

  // ----- short numeric forms -----

  /** GenerateShortInt64ID and GenerateShortUint64ID: the second and the low 16 bits of an
      identifier. */
  function Short(second: int, id: nat): int {
    second * 100000 + id % 0x1_0000
  }

  /** The second and the low 16 bits can be read off a short identifier. */
  lemma ShortReadsBack(second: int, id: nat)
    ensures Short(second, id) / 100000 == second && Short(second, id) % 100000 == id % 0x1_0000
  {
  }

  /** Short identifiers collide exactly when taken in the same second with the same low 16
      bits. */
  lemma ShortCollides(t1: int, id1: nat, t2: int, id2: nat)
    ensures Short(t1, id1) == Short(t2, id2) <==> t1 == t2 && id1 % 0x1_0000 == id2 % 0x1_0000
  {
    if t1 < t2 {
      assert (t2 - t1) * 100000 >= 100000;
    } else if t2 < t1 {
      assert (t1 - t2) * 100000 >= 100000;
    }
  }

  /** For identifiers of one generator the low 16 bits say no more than the sequence
      number: in one second, every millisecond's first identifier has the same short
      form. */
  lemma ShortOfOneNode(t1: int, s1: int, q1: nat, t2: int, s2: int, q2: nat, node: nat)
    requires node < NODES && q1 < SEQUENCES && q2 < SEQUENCES
    ensures Short(t1, Compose(s1, node, q1)) == Short(t2, Compose(s2, node, q2)) <==> t1 == t2 && q1 == q2
  {
    ShortCollides(t1, Compose(s1, node, q1), t2, Compose(s2, node, q2));
    LowBits(s1, node, q1);
    LowBits(s2, node, q2);
  }

  lemma LowBits(stamp: int, node: nat, sequence: nat)
    requires node < NODES && sequence < SEQUENCES
    ensures Compose(stamp, node, sequence) % 0x1_0000 == node % 16 * SEQUENCES + sequence
  {
    ComposeFits(stamp, node, sequence);
    var t := stamp % (2 * STAMPS);
    var id := Compose(stamp, node, sequence);
    var low := node % 16 * SEQUENCES + sequence;
    assert id == (t * 64 + node / 16) * 0x1_0000 + low;
    assert 0 <= low < 0x1_0000;
  }
}
