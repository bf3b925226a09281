/** The two string fields of Any messages with their has-bits: setters, mutable pointers,
    release, set_allocated, clear, Clear, MergeFrom, copy and swap. Message `m` has the
    fields 2m (type_url) and 2m + 1 (value). */
module AnyMessage {
  import opened Common
  import opened ArenaString
  import M = Messages

  /** A field's has-bit and value; the pointer behind it is left out. */
  function View(has: bool, m: Option<bytes>): M.Text {
    M.Text(has, Value(m))
  }

  function Views(has: seq<bool>, ms: seq<Option<bytes>>): (r: seq<M.Text>)
    requires |has| == |ms|
    ensures |r| == |has|
  {
    seq(|has|, k requires 0 <= k < |has| => View(has[k], ms[k]))
  }

  /** A set bit means a string of the field's own; a clear one means empty contents. */
  predicate BitOk(has: bool, m: Option<bytes>) {
    if has then m.Some? else Value(m) == []
  }

  predicate BitsOk(has: seq<bool>, ms: seq<Option<bytes>>) {
    |has| == |ms| && forall k | 0 <= k < |has| :: BitOk(has[k], ms[k])
  }

  lemma OneBit(has: seq<bool>, ms: seq<Option<bytes>>, k: nat, bit: bool, m: Option<bytes>)
    requires BitsOk(has, ms) && k < |has| && BitOk(bit, m)
    ensures BitsOk(has[k := bit], ms[k := m])
    ensures Views(has[k := bit], ms[k := m]) == Views(has, ms)[k := View(bit, m)]
  {
  }

  class AnyMessages {
    const strings: StringFields
    var has: seq<bool>

    ghost predicate Valid()
      reads this, strings
    {
      strings.Valid() && BitsOk(has, Meanings(strings.s))
    }

    ghost function Fields(): (r: seq<M.Text>)
      requires Valid()
      reads this, strings
      ensures |r| == |has|
    {
      Views(has, Meanings(strings.s))
    }

    /** New messages, one for each entry of `homes`: the arena it is on, if any. */
    constructor (homes: seq<Option<nat>>, hardened: bool, hardSwap: bool, debug: bool)
      ensures Valid() && fresh(strings) && strings.hardened == hardened
      ensures strings.arenas == seq(2 * |homes|, k requires 0 <= k < 2 * |homes| => homes[k / 2])
      ensures |has| == 2 * |homes| && Fields() == seq(2 * |homes|, _ => M.NO_TEXT)
    {
      var arenas := seq(2 * |homes|, k requires 0 <= k < 2 * |homes| => homes[k / 2]);
      strings := new StringFields(arenas, hardened, hardSwap, debug);
      has := seq(2 * |homes|, _ => false);
    }

    /** set_type_url, set_value. */
    method SetField(k: nat, v: bytes)
      requires Valid() && k < |has|
      modifies this, strings
      ensures Valid() && Fields() == old(Fields())[k := M.Text(true, v)]
    {
      hide BitsOk, Views, Meanings, Ok;
      Lengths(has, strings.s);
      OneBit(has, Meanings(strings.s), k, true, Some(v));
      has := has[k := true];
      strings.Set(k, v);
    }

    /** mutable_type_url, mutable_value: a string of the field's own, never the shared
        empty one. */
    method MutableField(k: nat) returns (id: nat)
      requires Valid() && k < |has|
      modifies this, strings
      ensures Valid() && Fields() == old(Fields())[k := M.Text(true, old(Fields())[k].value)]
      ensures k < |strings.s.fields| && id == strings.s.fields[k].id != EMPTY
    {
      hide BitsOk, Meanings, Ok;
      Lengths(has, strings.s);
      OneBit(has, Meanings(strings.s), k, true, Some(Value(Meaning(strings.s, k))));
      MeaningAt(strings.s, k);
      has := has[k := true];
      id := strings.Mutable(k);
    }

    /** What the holder of a mutable pointer writes while the field is set. */
    method WriteField(k: nat, v: bytes)
      requires Valid() && k < |has| && has[k]
      modifies strings
      ensures Valid() && Fields() == old(Fields())[k := M.Text(true, v)]
    {
      hide Meanings, Ok;
      Lengths(has, strings.s);
      OneBit(has, Meanings(strings.s), k, true, Some(v));
      NotDefault(has, strings.s, strings.arenas, k);
      assert has == has[k := true];
      strings.Write(k, v);
    }

    /** release_type_url, release_value. */
    method ReleaseField(k: nat, left: bytes) returns (id: Option<nat>)
      requires Valid() && k < |has|
      modifies this, strings
      ensures Valid() && Fields() == old(Fields())[k := M.NO_TEXT]
      ensures id.Some? <==> old(has[k])
      ensures id.Some? ==> CallerHas(strings.s, id.value, old(Fields())[k].value)
    {
      hide Meanings, Ok, BitsOk, Views, SameCallers;
      Lengths(has, strings.s);
      if !has[k] {
        AlreadyEmpty(has, Meanings(strings.s), k);
        return None;
      }
      NotDefault(has, strings.s, strings.arenas, k);
      ValueAt(has, strings.s, k);
      OneBit(has, Meanings(strings.s), k, false, None);
      OneBit(has, Meanings(strings.s), k, false, Some([]));
      ghost var ms := Meanings(strings.s);
      has := has[k := false];
      id := strings.Release(k, left);
      assert ms[k := None][k := Some([])] == ms[k := Some([])];
      if strings.hardened {
        ghost var mid := strings.s;
        Lengths(has, mid);
        strings.Set(k, []);
        StillHas(mid, strings.s, id.value);
      }
    }

    /** set_allocated_type_url, set_allocated_value, with a string of the caller's or null. */
    method SetAllocatedField(k: nat, value: Option<nat>, ghost v: bytes)
      requires Valid() && k < |has| && (value.Some? ==> CallerHas(strings.s, value.value, v))
      modifies this, strings
      ensures Valid() && Fields() == old(Fields())[k := if value.Some? then M.Text(true, v) else M.NO_TEXT]
      ensures value.Some? ==> forall w :: !CallerHas(strings.s, value.value, w)
    {
      hide Meanings, Ok, BitsOk, Views, SameCallers;
      Lengths(has, strings.s);
      ghost var ms := Meanings(strings.s);
      OneBit(has, ms, k, true, Some(v));
      OneBit(has, ms, k, false, None);
      OneBit(has, ms, k, false, Some([]));
      has := has[k := value.Some?];
      strings.SetAllocated(k, value, v);
      assert ms[k := None][k := Some([])] == ms[k := Some([])];
      Lengths(has, strings.s);
      TagsByArena(strings.s, strings.arenas, k);
      if strings.hardened && strings.s.fields[k].tag == Default {
        MeaningAt(strings.s, k);
        strings.Set(k, []);
      }
    }

    /** clear_type_url, clear_value. */
    method ClearField(k: nat)
      requires Valid() && k < |has|
      modifies this, strings
      ensures Valid() && Fields() == old(Fields())[k := M.NO_TEXT]
    {
      hide Meanings, Ok, BitsOk, Views, SameCallers;
      Lengths(has, strings.s);
      OneBit(has, Meanings(strings.s), k, false, Some([]));
      OneBit(has, Meanings(strings.s), k, false, None);
      has := has[k := false];
      strings.ClearToEmpty(k);
    }

    /** The part of Clear for one field: only a set bit leads to a write, and then the
        string is the field's own. */
    method ClearBit(k: nat)
      requires Valid() && k < |has|
      modifies this, strings
      ensures Valid() && Fields() == old(Fields())[k := M.NO_TEXT]
    {
      hide Meanings, Ok, BitsOk, Views, SameCallers;
      Lengths(has, strings.s);
      OneBit(has, Meanings(strings.s), k, false, Some([]));
      if has[k] {
        NotDefault(has, strings.s, strings.arenas, k);
        strings.ClearNonDefaultToEmpty(k);
        has := has[k := false];
      } else {
        AlreadyEmpty(has, Meanings(strings.s), k);
      }
    }

    /** Clear: after it the message is as new, though it looks only at fields whose bit is
        set. */
    method Clear(m: nat)
      requires Valid() && 2 * m + 1 < |has|
      modifies this, strings
      ensures Valid() && Fields() == old(Fields())[2 * m := M.NO_TEXT][2 * m + 1 := M.NO_TEXT]
    {
      hide BitsOk, Views, Meanings, Ok;
      ClearBit(2 * m);
      ClearBit(2 * m + 1);
    }

    /** The part of MergeImpl for one field. */
    method MergeField(to: nat, from: nat)
      requires Valid() && to < |has| && from < |has| && to != from
      modifies this, strings
      ensures Valid() && Fields() == old(Fields())[to := M.MergeText(old(Fields())[to], old(Fields())[from])]
    {
      hide Meanings, Ok, BitsOk, SameCallers;
      Lengths(has, strings.s);
      ghost var ms := Meanings(strings.s);
      MeaningAt(strings.s, to);
      MeaningAt(strings.s, from);
      TagsByArena(strings.s, strings.arenas, to);
      TagsByArena(strings.s, strings.arenas, from);
      if has[from] {
        var v := strings.s.text[strings.s.fields[from].id];
        if v != [] {
          OneBit(has, ms, to, true, Some(v));
          strings.Set(to, v);
        } else if strings.s.fields[to].tag == Default {
          OneBit(has, ms, to, true, Some([]));
          strings.Set(to, []);
        } else {
          OneBit(has, ms, to, true, ms[to]);
          assert ms[to := ms[to]] == ms;
        }
        has := has[to := true];
      } else {
        assert Fields()[to := Fields()[to]] == Fields();
      }
    }

    /** MergeFrom of another message. */
    method MergeFrom(m: nat, from: nat)
      requires Valid() && 2 * m + 1 < |has| && 2 * from + 1 < |has| && m != from
      modifies this, strings
      ensures Valid()
      ensures Fields() == old(Fields())[2 * m := M.MergeText(old(Fields())[2 * m], old(Fields())[2 * from])]
                                       [2 * m + 1 := M.MergeText(old(Fields())[2 * m + 1], old(Fields())[2 * from + 1])]
    {
      hide BitsOk, Views, Meanings, Ok, M.MergeText;
      MergeField(2 * m, 2 * from);
      MergeField(2 * m + 1, 2 * from + 1);
    }

    /** CopyFrom: Clear and merge, unless the message is copied to itself. */
    method CopyFrom(m: nat, from: nat)
      requires Valid() && 2 * m + 1 < |has| && 2 * from + 1 < |has|
      modifies this, strings
      ensures Valid()
      ensures Fields() == old(Fields())[2 * m := old(Fields())[2 * from]][2 * m + 1 := old(Fields())[2 * from + 1]]
    {
      hide BitsOk, Views, Meanings, Ok;
      ghost var was := Fields();
      if m == from {
        assert was[2 * m := was[2 * m]][2 * m + 1 := was[2 * m + 1]] == was;
        return;
      }
      DefaultsAreEmpty(has, Meanings(strings.s));
      Clear(m);
      MergeFrom(m, from);
    }

    /** The copy constructor for one field of a message just created. */
    method CopyField(k: nat, from: nat)
      requires Valid() && k < |has| && from < |has| && k != from && |has| == |strings.s.fields|
      requires strings.s.fields[k] == NONE
      modifies this, strings
      ensures Valid() && Fields() == old(Fields())[k := old(Fields())[from]]
    {
      hide Meanings, Ok, SameCallers;
      ghost var ms := Meanings(strings.s);
      MeaningAt(strings.s, from);
      OneBit(has, ms, k, has[from], ms[from]);
      OneBit(has, ms, k, has[from], Some(Value(ms[from])));
      has := has[k := has[from]];
      strings.CopyInto(k, from);
    }

    /** The destructor and a constructor for one field: a new one, or a copy of `from`. */
    method RebuildField(k: nat, from: Option<nat>)
      requires Valid() && k < |has| && (from.Some? ==> from.value < |has| && from.value != k)
      modifies this, strings
      ensures Valid()
      ensures Fields() == old(Fields())[k := if from.Some? then old(Fields())[from.value] else M.NO_TEXT]
    {
      hide Meanings, Ok, BitsOk, Views, SameCallers;
      Lengths(has, strings.s);
      ghost var ms := Meanings(strings.s);
      OneBit(has, ms, k, false, None);
      OneBit(has, ms, k, false, Some([]));
      has := has[k := false];
      strings.Destroy(k);
      Lengths(has, strings.s);
      if from.Some? {
        CopyField(k, from.value);
      } else if strings.hardened {
        assert ms[k := None][k := Some([])] == ms[k := Some([])];
        strings.Set(k, []);
      }
    }

    /** A message is destroyed and a new one constructed in its place: an empty one, or a
        copy of another message, which may be on another arena. */
    method Rebuild(m: nat, from: Option<nat>)
      requires Valid() && 2 * m + 1 < |has| && (from.Some? ==> 2 * from.value + 1 < |has| && from.value != m)
      modifies this, strings
      ensures Valid()
      ensures Fields() == old(Fields())[2 * m := if from.Some? then old(Fields())[2 * from.value] else M.NO_TEXT]
                                       [2 * m + 1 := if from.Some? then old(Fields())[2 * from.value + 1] else M.NO_TEXT]
    {
      hide BitsOk, Views, Meanings, Ok;
      RebuildField(2 * m, if from.Some? then Some(2 * from.value) else None);
      RebuildField(2 * m + 1, if from.Some? then Some(2 * from.value + 1) else None);
    }

    /** The part of InternalSwap for one field of each message. */
    method SwapField(j: nat, k: nat, left: bytes)
      requires Valid() && j < |has| && k < |has| && j != k && |strings.arenas| == |has|
      requires strings.arenas[j] == strings.arenas[k]
      modifies this, strings
      ensures Valid() && Fields() == old(Fields()[j := Fields()[k]][k := Fields()[j]])
    {
      hide Meanings, Ok, SameCallers;
      ghost var ms := Meanings(strings.s);
      Lengths(has, strings.s);
      OneBit(has, ms, j, has[k], ms[k]);
      OneBit(has[j := has[k]], ms[j := ms[k]], k, has[j], ms[j]);
      has := has[j := has[k]][k := has[j]];
      strings.InternalSwap(j, k, left);
    }

    /** InternalSwap of two messages. */
    method Swap(m: nat, n: nat, left: bytes)
      requires Valid() && 2 * m + 1 < |has| && 2 * n + 1 < |has| && m != n && |strings.arenas| == |has|
      requires strings.arenas[2 * m] == strings.arenas[2 * n] && strings.arenas[2 * m + 1] == strings.arenas[2 * n + 1]
      modifies this, strings
      ensures Valid()
      ensures Fields() == old(Fields()[2 * m := Fields()[2 * n]][2 * n := Fields()[2 * m]]
                                      [2 * m + 1 := Fields()[2 * n + 1]][2 * n + 1 := Fields()[2 * m + 1]])
    {
      hide BitsOk, Views, Meanings, Ok;
      SwapField(2 * m, 2 * n, left);
      SwapField(2 * m + 1, 2 * n + 1, left);
    }

    /** One operation on a field. */
    method PerformOnField(op: Op)
      requires Valid() && OpOk(op, strings.arenas) && OnField(op)
      modifies this, strings
      ensures Valid() && |strings.arenas| == |old(Fields())| && Fields() == Performed(old(Fields()), op, strings.arenas)
    {
      ArenasOfFields(has, strings.s, strings.arenas);
      hide BitsOk, Views, Meanings, Ok, SameCallers;
      match op {
        case SetTo(k, v) => SetField(k, v);
        case Mutate(k, v) =>
          var _ := MutableField(k);
          HasBit(has, Meanings(strings.s), k);
          WriteField(k, v);
        case Take(k, left) =>
          ghost var v := Fields()[k].value;
          var id := ReleaseField(k, left);
          if id.Some? {
            strings.Delete(id.value, v);
          }
        case Give(k, v) =>
          var id := strings.NewString(v);
          SetAllocatedField(k, Some(id), v);
        case GiveNothing(k) => SetAllocatedField(k, None, []);
        case Empty(k) => ClearField(k);
      }
    }

    /** One operation that clears a message or takes over the fields of another. */
    method PerformOnMessage(op: Op)
      requires Valid() && OpOk(op, strings.arenas) && (op.ClearAll? || op.Merge? || op.Copy?)
      modifies this, strings
      ensures Valid() && |strings.arenas| == |old(Fields())| && Fields() == Performed(old(Fields()), op, strings.arenas)
    {
      ArenasOfFields(has, strings.s, strings.arenas);
      hide BitsOk, Views, Meanings, Ok, M.MergeText;
      match op {
        case ClearAll(m) => Clear(m);
        case Merge(m, from) => MergeFrom(m, from);
        case Copy(m, from) => CopyFrom(m, from);
      }
    }

    /** One operation that replaces a message, by a new one or by another. */
    method PerformReplacement(op: Op)
      requires Valid() && OpOk(op, strings.arenas) && (op.Renew? || op.Construct? || op.Exchange?)
      modifies this, strings
      ensures Valid() && |strings.arenas| == |old(Fields())| && Fields() == Performed(old(Fields()), op, strings.arenas)
    {
      ArenasOfFields(has, strings.s, strings.arenas);
      hide BitsOk, Views, Meanings, Ok;
      match op {
        case Renew(m) => Rebuild(m, None);
        case Construct(m, from) => Rebuild(m, Some(from));
        case Exchange(m, n, left) => Swap(m, n, left);
      }
    }

    /** Any sequence of operations, in every build mode and with or without an arena, does
        to the messages what it does to plain fields. */
    method Run(ops: seq<Op>)
      requires Valid() && forall op <- ops :: OpOk(op, strings.arenas)
      modifies this, strings
      ensures Valid() && |strings.arenas| == |old(Fields())|
      ensures Fields() == PerformedAll(old(Fields()), ops, strings.arenas)
    {
      ArenasOfFields(has, strings.s, strings.arenas);
      hide BitsOk, Views, Meanings, Ok, Performed, OpOk;
      ghost var was := Fields();
      ghost var end := PerformedAll(was, ops, strings.arenas);
      for i := 0 to |ops|
        invariant Valid() && |has| == |was| && PerformedAll(Fields(), ops[i..], strings.arenas) == end
      {
        assert ops[i] in ops && ops[i..][1..] == ops[i + 1..];
        SameLength(Fields(), ops[i], strings.arenas);
        if OnField(ops[i]) {
          PerformOnField(ops[i]);
        } else if ops[i].ClearAll? || ops[i].Merge? || ops[i].Copy? {
          PerformOnMessage(ops[i]);
        } else {
          PerformReplacement(ops[i]);
        }
      }
    }
  }

  datatype Op =
    | SetTo(k: nat, v: bytes)
    | Mutate(k: nat, v: bytes)       // mutable, then a write through the pointer
    | Take(k: nat, left: bytes)      // release; the caller deletes the string
    | Give(k: nat, v: bytes)         // set_allocated of a string of the caller's
    | GiveNothing(k: nat)            // set_allocated(nullptr)
    | Empty(k: nat)                  // clear_type_url, clear_value
    | ClearAll(m: nat)
    | Merge(m: nat, from: nat)
    | Copy(m: nat, from: nat)
    | Exchange(m: nat, n: nat, left: bytes)
    | Renew(m: nat)                  // destroyed, and a new message in its place
    | Construct(m: nat, from: nat)   // destroyed, and a copy in its place

  predicate OnField(op: Op) {
    op.SetTo? || op.Mutate? || op.Take? || op.Give? || op.GiveNothing? || op.Empty?
  }

  /** Which operations can be called: swapping asks for messages on the same arena, merging
      and copying do not. */
  predicate OpOk(op: Op, arenas: Arenas) {
    var count := |arenas|;
    match op
    case ClearAll(m) => 2 * m + 1 < count
    case Merge(m, n) => 2 * m + 1 < count && 2 * n + 1 < count && m != n
    case Copy(m, n) => 2 * m + 1 < count && 2 * n + 1 < count
    case Exchange(m, n, _) =>
      && 2 * m + 1 < count && 2 * n + 1 < count && m != n
      && arenas[2 * m] == arenas[2 * n] && arenas[2 * m + 1] == arenas[2 * n + 1]
    case Renew(m) => 2 * m + 1 < count
    case Construct(m, n) => 2 * m + 1 < count && 2 * n + 1 < count && m != n
    case _ => op.k < count
  }

  /** The operations on plain fields: a has-bit and a value, no pointers and no sharing. */
  function Performed(fs: seq<M.Text>, op: Op, arenas: Arenas): seq<M.Text>
    requires |fs| == |arenas| && OpOk(op, arenas)
  {
    match op
    case SetTo(k, v) => fs[k := M.Text(true, v)]
    case Mutate(k, v) => fs[k := M.Text(true, v)]
    case Take(k, _) => fs[k := M.NO_TEXT]
    case Give(k, v) => fs[k := M.Text(true, v)]
    case GiveNothing(k) => fs[k := M.NO_TEXT]
    case Empty(k) => fs[k := M.NO_TEXT]
    case ClearAll(m) => fs[2 * m := M.NO_TEXT][2 * m + 1 := M.NO_TEXT]
    case Merge(m, n) =>
      fs[2 * m := M.MergeText(fs[2 * m], fs[2 * n])][2 * m + 1 := M.MergeText(fs[2 * m + 1], fs[2 * n + 1])]
    case Copy(m, n) => fs[2 * m := fs[2 * n]][2 * m + 1 := fs[2 * n + 1]]
    case Exchange(m, n, _) =>
      fs[2 * m := fs[2 * n]][2 * n := fs[2 * m]][2 * m + 1 := fs[2 * n + 1]][2 * n + 1 := fs[2 * m + 1]]
    case Renew(m) => fs[2 * m := M.NO_TEXT][2 * m + 1 := M.NO_TEXT]
    case Construct(m, n) => fs[2 * m := fs[2 * n]][2 * m + 1 := fs[2 * n + 1]]
  }

  function PerformedAll(fs: seq<M.Text>, ops: seq<Op>, arenas: Arenas): seq<M.Text>
    requires |fs| == |arenas| && forall op <- ops :: OpOk(op, arenas)
    decreases |ops|
  {
    if ops == [] then fs
    else
      SameLength(fs, ops[0], arenas);
      PerformedAll(Performed(fs, ops[0], arenas), ops[1..], arenas)
  }

  lemma SameLength(fs: seq<M.Text>, op: Op, arenas: Arenas)
    requires |fs| == |arenas| && OpOk(op, arenas)
    ensures |Performed(fs, op, arenas)| == |fs|
  {
  }

  predicate UnsetAreEmpty(fs: seq<M.Text>) {
    forall k | 0 <= k < |fs| :: !fs[k].has ==> fs[k].value == []
  }

  lemma PerformedUnset(fs: seq<M.Text>, op: Op, arenas: Arenas)
    requires |fs| == |arenas| && OpOk(op, arenas) && UnsetAreEmpty(fs)
    ensures UnsetAreEmpty(Performed(fs, op, arenas))
  {
  }

  /** Over every sequence of operations a field without its bit is empty: serialising,
      merging and clearing may skip it. */
  lemma {:induction false} UnsetFieldsStayEmpty(fs: seq<M.Text>, ops: seq<Op>, arenas: Arenas)
    requires |fs| == |arenas| && (forall op <- ops :: OpOk(op, arenas)) && UnsetAreEmpty(fs)
    ensures UnsetAreEmpty(PerformedAll(fs, ops, arenas))
    decreases |ops|
  {
    if ops != [] {
      hide UnsetAreEmpty, Performed;
      assert ops[0] in ops;
      SameLength(fs, ops[0], arenas);
      PerformedUnset(fs, ops[0], arenas);
      UnsetFieldsStayEmpty(Performed(fs, ops[0], arenas), ops[1..], arenas);
    }
  }

  lemma ArenasOfFields(has: seq<bool>, s: State, arenas: Arenas)
    requires BitsOk(has, Meanings(s)) && Ok(s, arenas)
    ensures |arenas| == |has| == |s.fields|
  {
  }

  lemma HasBit(has: seq<bool>, ms: seq<Option<bytes>>, k: nat)
    requires BitsOk(has, ms) && k < |has|
    ensures Views(has, ms)[k].has == has[k]
  {
  }

  lemma MeaningAt(s: State, k: nat)
    requires k < |s.fields|
    ensures Meanings(s)[k] == Meaning(s, k)
  {
  }

  /** A set bit means that the pointer is not the default one. */
  lemma NotDefault(has: seq<bool>, s: State, arenas: Arenas, k: nat)
    requires BitsOk(has, Meanings(s)) && Ok(s, arenas) && k < |has| && has[k]
    ensures k < |s.fields| && s.fields[k].tag != Default && Meaning(s, k).Some?
  {
    assert BitOk(has[k], Meanings(s)[k]);
  }

  lemma ValueAt(has: seq<bool>, s: State, k: nat)
    requires BitsOk(has, Meanings(s)) && k < |has|
    ensures k < |s.fields| && Views(has, Meanings(s))[k].value == Value(Meaning(s, k))
  {
  }

  lemma AlreadyEmpty(has: seq<bool>, ms: seq<Option<bytes>>, k: nat)
    requires BitsOk(has, ms) && k < |has| && !has[k]
    ensures Views(has, ms) == Views(has, ms)[k := M.NO_TEXT]
  {
    assert BitOk(has[k], ms[k]);
  }

  lemma DefaultsAreEmpty(has: seq<bool>, ms: seq<Option<bytes>>)
    requires BitsOk(has, ms)
    ensures forall k | 0 <= k < |has| :: M.MergeText(M.NO_TEXT, Views(has, ms)[k]) == Views(has, ms)[k]
  {
    forall k | 0 <= k < |has| ensures M.MergeText(M.NO_TEXT, Views(has, ms)[k]) == Views(has, ms)[k] {
      assert BitOk(has[k], ms[k]);
    }
  }

  lemma StillHas(s: State, t: State, id: nat)
    requires SameCallers(s, t)
    ensures forall v :: CallerHas(s, id, v) ==> CallerHas(t, id, v)
  {
  }

  lemma Lengths(has: seq<bool>, s: State)
    requires BitsOk(has, Meanings(s))
    ensures |has| == |s.fields|
  {
  }
}
