/** String fields of messages, each on some arena or on none: tagged pointers to string
    objects, each of which has one owner, and the operations of ArenaStringPtr. */
module ArenaString {
  import opened Common

  /** Default strings are shared and immutable, Allocated ones belong to the field,
      MutableArena ones to the arena. */
  datatype Tag = Default | Allocated | MutableArena

  datatype Ptr = Ptr(tag: Tag, id: nat)

  /** Who will destroy a string object: nobody, the field with that index, the cleanup list
      of that arena, or the caller. */
  datatype Owner = Static | Field(index: nat) | Arena(which: nat) | Caller

  /** For each field the arena its message is on, if any. */
  type Arenas = seq<Option<nat>>

  const EMPTY: nat := 0                       // the global empty string
  const NONE: Ptr := Ptr(Default, EMPTY)

  /** The string objects that exist, by identity, and the string fields. */
  datatype State = State(text: map<nat, bytes>, owner: map<nat, Owner>, next: nat, fields: seq<Ptr>)

  // ----- order -----

  ghost predicate FieldOk(s: State, arenas: Arenas, k: nat)
    requires k < |s.fields| && k < |arenas|
  {
    var p := s.fields[k];
    match p.tag
    case Default => p.id == EMPTY
    case Allocated => arenas[k].None? && p.id in s.owner && s.owner[p.id] == Field(k)
    case MutableArena => arenas[k].Some? && p.id in s.owner && s.owner[p.id] == Arena(arenas[k].value)
  }

  /** A string owned by a field is the one that field points to: nothing is leaked. */
  ghost predicate OwnerOk(s: State, id: nat)
    requires id in s.owner
  {
    && id < s.next && (s.owner[id] == Static <==> id == EMPTY)
    && match s.owner[id]
       case Field(k) => k < |s.fields| && s.fields[k] == Ptr(Allocated, id)
       case _ => true
  }

  ghost predicate Ok(s: State, arenas: Arenas) {
    && |arenas| == |s.fields| && s.text.Keys == s.owner.Keys && EMPTY in s.text && s.text[EMPTY] == []
    && (forall k | 0 <= k < |s.fields| :: FieldOk(s, arenas, k))
    && (forall id | id in s.owner :: OwnerOk(s, id))
    && (forall j, k | 0 <= j < |s.fields| && 0 <= k < |s.fields| && j != k ::
          s.fields[j].tag == Default || s.fields[k].tag == Default || s.fields[j].id != s.fields[k].id)
  }

  // ----- what the fields mean -----

  /** The field as a plain optional string. */
  function Meaning(s: State, k: nat): Option<bytes>
    requires k < |s.fields|
  {
    var p := s.fields[k];
    if p.tag == Default || p.id !in s.text then None else Some(s.text[p.id])
  }

  function Meanings(s: State): (r: seq<Option<bytes>>)
    ensures |r| == |s.fields|
  {
    seq(|s.fields|, k requires 0 <= k < |s.fields| => Meaning(s, k))
  }

  /** What Get returns. */
  function Value(m: Option<bytes>): bytes {
    if m.Some? then m.value else []
  }

  /** The strings that callers own, with their contents. */
  predicate CallerHas(s: State, id: nat, v: bytes) {
    id in s.owner && s.owner[id] == Caller && id in s.text && s.text[id] == v
  }

  ghost predicate SameCallers(s: State, t: State) {
    forall id, v :: CallerHas(s, id, v) <==> CallerHas(t, id, v)
  }

  // ----- elementary changes -----

  /** CreateString or CreateArenaString for field `k`, after which the string it pointed to
      is deleted if the field owned it. */
  function Renewed(s: State, arena: Option<nat>, k: nat, v: bytes): State
    requires k < |s.fields|
  {
    var gone := if s.fields[k].tag == Allocated then {s.fields[k].id} else {};
    var owner := if arena.Some? then Arena(arena.value) else Field(k);
    State((s.text - gone)[s.next := v], (s.owner - gone)[s.next := owner], s.next + 1,
          s.fields[k := Ptr(if arena.Some? then MutableArena else Allocated, s.next)])
  }

  /** Writing through the field's pointer. */
  function Assigned(s: State, k: nat, v: bytes): State
    requires k < |s.fields|
  {
    s.(text := s.text[s.fields[k].id := v])
  }

  /** Destroy, then InitDefault. */
  function Dropped(s: State, k: nat): State
    requires k < |s.fields|
  {
    var gone := if s.fields[k].tag == Allocated then {s.fields[k].id} else {};
    s.(text := s.text - gone, owner := s.owner - gone, fields := s.fields[k := NONE])
  }

  /** The field gives its string up to the caller. */
  function Surrendered(s: State, k: nat): State
    requires k < |s.fields|
  {
    s.(owner := s.owner[s.fields[k].id := Caller], fields := s.fields[k := NONE])
  }

  /** The field, which holds no string, takes over one of the caller's. */
  function Adopted(s: State, arena: Option<nat>, k: nat, id: nat): State
    requires k < |s.fields|
  {
    s.(owner := s.owner[id := if arena.Some? then Arena(arena.value) else Field(k)],
       fields := s.fields[k := Ptr(if arena.Some? then MutableArena else Allocated, id)])
  }

  /** A string for the caller. */
  function Created(s: State, v: bytes): State {
    s.(text := s.text[s.next := v], owner := s.owner[s.next := Caller], next := s.next + 1)
  }

  /** The caller deletes one of its strings. */
  function Deleted(s: State, id: nat): State {
    s.(text := s.text - {id}, owner := s.owner - {id})
  }

  // ----- each keeps order, and what it means -----

  lemma RenewedOk(s: State, arenas: Arenas, k: nat, v: bytes)
    requires Ok(s, arenas) && k < |s.fields|
    ensures var t := Renewed(s, arenas[k], k, v);
            Ok(t, arenas) && Meanings(t) == Meanings(s)[k := Some(v)] && SameCallers(s, t)
  {
    hide SameCallers;
    var t := Renewed(s, arenas[k], k, v);
    assert FieldOk(s, arenas, k);
    forall id | id in t.owner ensures OwnerOk(t, id) {
      if id != s.next { assert OwnerOk(s, id); }
    }
    forall j | 0 <= j < |t.fields| ensures FieldOk(t, arenas, j) && (j != k ==> t.fields[j].id != s.next) {
      assert FieldOk(s, arenas, j);
      assert OwnerOk(s, s.fields[j].id);
    }
    forall j | 0 <= j < |t.fields| ensures Meaning(t, j) == (Meanings(s)[k := Some(v)])[j] {
      assert FieldOk(s, arenas, j) && Meanings(s)[j] == Meaning(s, j);
    }
    RenewedCallers(s, arenas, k, v);
  }

  lemma RenewedCallers(s: State, arenas: Arenas, k: nat, v: bytes)
    requires Ok(s, arenas) && k < |s.fields|
    ensures SameCallers(s, Renewed(s, arenas[k], k, v))
  {
    assert FieldOk(s, arenas, k);
    assert s.next in s.owner ==> OwnerOk(s, s.next);
  }

  /** Assigning needs a string of the field's own: the shared empty string is not touched. */
  lemma AssignedOk(s: State, arenas: Arenas, k: nat, v: bytes)
    requires Ok(s, arenas) && k < |s.fields| && s.fields[k].tag != Default
    ensures var t := Assigned(s, k, v);
            Ok(t, arenas) && Meanings(t) == Meanings(s)[k := Some(v)] && SameCallers(s, t)
  {
    var t := Assigned(s, k, v);
    var id := s.fields[k].id;
    assert FieldOk(s, arenas, k) && OwnerOk(s, id);
    forall i | i in t.owner ensures OwnerOk(t, i) { assert OwnerOk(s, i); }
    forall j | 0 <= j < |t.fields| ensures FieldOk(t, arenas, j) { assert FieldOk(s, arenas, j); }
    forall j | 0 <= j < |t.fields| ensures Meaning(t, j) == (Meanings(s)[k := Some(v)])[j] {
      assert FieldOk(s, arenas, j) && Meanings(s)[j] == Meaning(s, j);
    }
  }

  lemma DroppedOk(s: State, arenas: Arenas, k: nat)
    requires Ok(s, arenas) && k < |s.fields|
    ensures var t := Dropped(s, k);
            Ok(t, arenas) && Meanings(t) == Meanings(s)[k := None] && SameCallers(s, t)
  {
    var t := Dropped(s, k);
    assert FieldOk(s, arenas, k) && OwnerOk(s, EMPTY);
    forall id | id in t.owner ensures OwnerOk(t, id) { assert OwnerOk(s, id); }
    forall j | 0 <= j < |t.fields| ensures FieldOk(t, arenas, j) { assert FieldOk(s, arenas, j); }
    forall j | 0 <= j < |t.fields| ensures Meaning(t, j) == (Meanings(s)[k := None])[j] {
      assert FieldOk(s, arenas, j) && Meanings(s)[j] == Meaning(s, j);
    }
  }

  /** A heap string changes hands without being copied. */
  lemma SurrenderedOk(s: State, arenas: Arenas, k: nat)
    requires Ok(s, arenas) && k < |s.fields| && s.fields[k].tag == Allocated
    ensures var t, id := Surrendered(s, k), s.fields[k].id;
            && Ok(t, arenas) && Meanings(t) == Meanings(s)[k := None]
            && CallerHas(t, id, Value(Meaning(s, k))) && (forall v :: !CallerHas(s, id, v))
            && (forall i, v :: i != id ==> (CallerHas(s, i, v) <==> CallerHas(t, i, v)))
  {
    var t := Surrendered(s, k);
    assert FieldOk(s, arenas, k) && OwnerOk(s, EMPTY);
    forall id | id in t.owner ensures OwnerOk(t, id) { assert OwnerOk(s, id); }
    forall j | 0 <= j < |t.fields| ensures FieldOk(t, arenas, j) { assert FieldOk(s, arenas, j); }
    forall j | 0 <= j < |t.fields| ensures Meaning(t, j) == (Meanings(s)[k := None])[j] {
      assert FieldOk(s, arenas, j) && Meanings(s)[j] == Meaning(s, j);
    }
  }

  lemma AdoptedOk(s: State, arenas: Arenas, k: nat, id: nat, v: bytes)
    requires Ok(s, arenas) && k < |s.fields| && s.fields[k] == NONE && CallerHas(s, id, v)
    ensures var t := Adopted(s, arenas[k], k, id);
            && Ok(t, arenas) && Meanings(t) == Meanings(s)[k := Some(v)]
            && (forall w :: !CallerHas(t, id, w))
            && (forall i, w :: i != id ==> (CallerHas(s, i, w) <==> CallerHas(t, i, w)))
  {
    var t := Adopted(s, arenas[k], k, id);
    assert OwnerOk(s, EMPTY) && OwnerOk(s, id);
    forall i | i in t.owner ensures OwnerOk(t, i) { assert OwnerOk(s, i); }
    forall j | 0 <= j < |t.fields| ensures FieldOk(t, arenas, j) && (j != k ==> t.fields[j].id != id) {
      assert FieldOk(s, arenas, j);
    }
    forall j | 0 <= j < |t.fields| ensures Meaning(t, j) == (Meanings(s)[k := Some(v)])[j] {
      assert FieldOk(s, arenas, j) && Meanings(s)[j] == Meaning(s, j);
    }
  }

  lemma CreatedOk(s: State, arenas: Arenas, v: bytes)
    requires Ok(s, arenas)
    ensures var t := Created(s, v);
            && Ok(t, arenas) && Meanings(t) == Meanings(s) && CallerHas(t, s.next, v) && s.next !in s.owner
            && (forall i, w :: i != s.next ==> (CallerHas(s, i, w) <==> CallerHas(t, i, w)))
  {
    var t := Created(s, v);
    assert s.next in s.owner ==> OwnerOk(s, s.next);
    forall i | i in t.owner ensures OwnerOk(t, i) { if i != s.next { assert OwnerOk(s, i); } }
    forall j | 0 <= j < |t.fields| ensures FieldOk(t, arenas, j) && Meaning(t, j) == Meaning(s, j) {
      assert FieldOk(s, arenas, j);
      assert OwnerOk(s, s.fields[j].id);
    }
    assert OwnerOk(s, EMPTY);
  }

  lemma DeletedOk(s: State, arenas: Arenas, id: nat, v: bytes)
    requires Ok(s, arenas) && CallerHas(s, id, v)
    ensures var t := Deleted(s, id);
            && Ok(t, arenas) && Meanings(t) == Meanings(s)
            && (forall w :: !CallerHas(t, id, w))
            && (forall i, w :: i != id ==> (CallerHas(s, i, w) <==> CallerHas(t, i, w)))
  {
    var t := Deleted(s, id);
    assert OwnerOk(s, id) && OwnerOk(s, EMPTY);
    forall i | i in t.owner ensures OwnerOk(t, i) { assert OwnerOk(s, i); }
    forall j | 0 <= j < |t.fields| ensures FieldOk(t, arenas, j) && Meaning(t, j) == Meaning(s, j) {
      assert FieldOk(s, arenas, j);
    }
  }

  /** std::swap of two tagged pointers; a string owned by one field is then the other's. */
  function Swapped(s: State, j: nat, k: nat): State
    requires j < |s.fields| && k < |s.fields|
  {
    var p, q := s.fields[j], s.fields[k];
    var own1 := if p.tag == Allocated then s.owner[p.id := Field(k)] else s.owner;
    var own2 := if q.tag == Allocated then own1[q.id := Field(j)] else own1;
    s.(owner := own2, fields := s.fields[j := q][k := p])
  }

  lemma SwappedOwners(s: State, arenas: Arenas, j: nat, k: nat)
    requires Ok(s, arenas) && j < |s.fields| && k < |s.fields| && j != k && arenas[j] == arenas[k]
    ensures var t := Swapped(s, j, k);
            (forall id | id in t.owner :: OwnerOk(t, id)) && (forall i | 0 <= i < |t.fields| :: FieldOk(t, arenas, i))
  {
    var t := Swapped(s, j, k);
    assert FieldOk(s, arenas, j) && FieldOk(s, arenas, k);
    forall id | id in t.owner ensures OwnerOk(t, id) { assert OwnerOk(s, id); }
    forall i | 0 <= i < |t.fields| ensures FieldOk(t, arenas, i) { assert FieldOk(s, arenas, i); }
  }

  lemma SwappedKeys(s: State, arenas: Arenas, j: nat, k: nat)
    requires Ok(s, arenas) && j < |s.fields| && k < |s.fields| && j != k && arenas[j] == arenas[k]
    ensures Swapped(s, j, k).owner.Keys == s.owner.Keys && SameCallers(s, Swapped(s, j, k))
  {
    assert FieldOk(s, arenas, j) && FieldOk(s, arenas, k);
  }

  lemma SwappedOk(s: State, arenas: Arenas, j: nat, k: nat)
    requires Ok(s, arenas) && j < |s.fields| && k < |s.fields| && j != k && arenas[j] == arenas[k]
    ensures var t := Swapped(s, j, k);
            && Ok(t, arenas) && SameCallers(s, t)
            && Meanings(t) == Meanings(s)[j := Meanings(s)[k]][k := Meanings(s)[j]]
  {
    hide FieldOk, OwnerOk, SameCallers;
    var t := Swapped(s, j, k);
    SwappedOwners(s, arenas, j, k);
    SwappedKeys(s, arenas, j, k);
    forall i | 0 <= i < |t.fields|
      ensures Meaning(t, i) == (Meanings(s)[j := Meanings(s)[k]][k := Meanings(s)[j]])[i]
    {
      assert Meanings(s)[i] == Meaning(s, i) && Meanings(s)[j] == Meaning(s, j) && Meanings(s)[k] == Meaning(s, k);
    }
  }

  /** A string that only the arena still holds may get any contents. */
  function Scribbled(s: State, id: nat, v: bytes): State {
    s.(text := s.text[id := v])
  }

  ghost predicate Orphan(s: State, id: nat) {
    id in s.owner && s.owner[id].Arena? && forall k | 0 <= k < |s.fields| :: s.fields[k].tag == Default || s.fields[k].id != id
  }

  lemma ScribbledOk(s: State, arenas: Arenas, id: nat, v: bytes)
    requires Ok(s, arenas) && Orphan(s, id)
    ensures var t := Scribbled(s, id, v); Ok(t, arenas) && Meanings(t) == Meanings(s) && SameCallers(s, t)
  {
    var t := Scribbled(s, id, v);
    assert OwnerOk(s, id);
    forall i | i in t.owner ensures OwnerOk(t, i) { assert OwnerOk(s, i); }
    forall j | 0 <= j < |t.fields| ensures FieldOk(t, arenas, j) && Meaning(t, j) == Meaning(s, j) {
      assert FieldOk(s, arenas, j);
    }
  }

  /** On an arena, the string a field pointed to before stays with the arena alone. */
  lemma RenewedOrphan(s: State, arenas: Arenas, k: nat, v: bytes)
    requires Ok(s, arenas) && k < |s.fields| && s.fields[k].tag == MutableArena
    ensures Orphan(Renewed(s, arenas[k], k, v), s.fields[k].id)
  {
    assert FieldOk(s, arenas, k);
    assert OwnerOk(s, s.fields[k].id);
  }

  lemma DroppedOrphan(s: State, arenas: Arenas, k: nat)
    requires Ok(s, arenas) && k < |s.fields| && s.fields[k].tag == MutableArena
    ensures Orphan(Dropped(s, k), s.fields[k].id)
  {
    assert FieldOk(s, arenas, k);
  }

  lemma CreatedOrphan(s: State, arenas: Arenas, id: nat, v: bytes)
    requires Ok(s, arenas) && Orphan(s, id)
    ensures Orphan(Created(s, v), id)
  {
    assert OwnerOk(s, id);
  }

  lemma CallersCompose(s: State, t: State, u: State)
    requires SameCallers(s, t) && SameCallers(t, u)
    ensures SameCallers(s, u)
  {
    forall id, v ensures CallerHas(s, id, v) <==> CallerHas(u, id, v) {
      assert CallerHas(s, id, v) <==> CallerHas(t, id, v);
    }
  }

  /** Which tags a field can have is decided by whether there is an arena. */
  lemma TagsByArena(s: State, arenas: Arenas, k: nat)
    requires Ok(s, arenas) && k < |s.fields|
    ensures s.fields[k].tag == Default <==> Meaning(s, k) == None
    ensures s.fields[k].tag != Default ==> (s.fields[k].tag == if arenas[k].Some? then MutableArena else Allocated)
    ensures s.fields[k].id in s.text && Value(Meaning(s, k)) == s.text[s.fields[k].id]
  {
    assert FieldOk(s, arenas, k);
  }

  // ----- ArenaStringPtr -----

  /** All callers' strings but `id` are as before. */
  ghost predicate SameOtherCallers(s: State, t: State, id: nat) {
    forall i, v :: i != id ==> (CallerHas(s, i, v) <==> CallerHas(t, i, v))
  }

  const GARBAGE: bytes := [103, 97, 114, 98, 97, 103, 101, 100, 97, 116, 97]   // "garbagedata"

  class StringFields {
    const arenas: Arenas    // where each field's message lives
    const hardened: bool    // DebugHardenForceCopyDefaultString
    const hardSwap: bool    // DebugHardenForceCopyInSwap
    const debug: bool       // NDEBUG is not defined
    var s: State

    ghost predicate Valid()
      reads this
    {
      Ok(s, arenas)
    }

    /** New fields; a hardened build gives each its own copy of the empty string. */
    constructor (arenas: Arenas, hardened: bool, hardSwap: bool, debug: bool)
      ensures Valid() && this.arenas == arenas && this.hardened == hardened
      ensures Meanings(s) == seq(|arenas|, _ => if hardened then Some([]) else None)
    {
      this.arenas, this.hardened, this.hardSwap, this.debug := arenas, hardened, hardSwap, debug;
      s := State(map[EMPTY := []], map[EMPTY := Static], 1, seq(|arenas|, _ => NONE));
      new;
      if hardened {
        for k := 0 to |arenas|
          invariant Valid() && |s.fields| == |arenas|
          invariant forall j | 0 <= j < |arenas| :: Meanings(s)[j] == if j < k then Some([]) else None
        {
          Set(k, []);
        }
      }
    }

    /** The caller makes a string of its own. */
    method NewString(v: bytes) returns (id: nat)
      requires Valid()
      modifies this
      ensures Valid() && Meanings(s) == old(Meanings(s))
      ensures CallerHas(s, id, v) && SameOtherCallers(old(s), s, id) && (forall w :: !CallerHas(old(s), id, w))
    {
      hide Ok, Meanings;
      CreatedOk(s, arenas, v);
      NoneOf(s, s.next);
      id := s.next;
      s := Created(s, v);
    }

    /** The caller deletes one of its strings. */
    method Delete(id: nat, ghost v: bytes)
      requires Valid() && CallerHas(s, id, v)
      modifies this
      ensures Valid() && Meanings(s) == old(Meanings(s))
      ensures (forall w :: !CallerHas(s, id, w)) && SameOtherCallers(old(s), s, id)
    {
      hide Ok, Meanings;
      DeletedOk(s, arenas, id, v);
      s := Deleted(s, id);
    }

    /** Set from a view or a const string. */
    method Set(k: nat, v: bytes)
      requires Valid() && k < |s.fields|
      modifies this
      ensures Valid() && Meanings(s) == old(Meanings(s))[k := Some(v)] && SameCallers(old(s), s)
    {
      hide Ok, SameCallers, Meanings, Orphan;
      FieldsHaveArenas(s, arenas);
      TagsByArena(s, arenas, k);
      if s.fields[k].tag == Default {
        RenewedOk(s, arenas, k, v);
        s := Renewed(s, arenas[k], k, v);
      } else if hardened {
        RenewedOk(s, arenas, k, v);
        ghost var before := s;
        var was := s.fields[k];
        if arenas[k].Some? {
          RenewedOrphan(s, arenas, k, v);
        }
        s := Renewed(s, arenas[k], k, v);
        if arenas[k].Some? {
          ScribbledOk(s, arenas, was.id, GARBAGE);
          CallersCompose(before, s, Scribbled(s, was.id, GARBAGE));
          s := Scribbled(s, was.id, GARBAGE);
        }
      } else {
        AssignedOk(s, arenas, k, v);
        s := Assigned(s, k, v);
      }
    }

    /** Set from a string to be moved. */
    method SetMoved(k: nat, v: bytes)
      requires Valid() && k < |s.fields|
      modifies this
      ensures Valid() && Meanings(s) == old(Meanings(s))[k := Some(v)] && SameCallers(old(s), s)
    {
      hide Ok, SameCallers, Meanings;
      FieldsHaveArenas(s, arenas);
      if s.fields[k].tag == Default {
        RenewedOk(s, arenas, k, v);
        s := Renewed(s, arenas[k], k, v);
      } else {
        AssignedOk(s, arenas, k, v);
        s := Assigned(s, k, v);
      }
    }

    /** Mutable: the field's own string, made on demand. */
    method Mutable(k: nat) returns (id: nat)
      requires Valid() && k < |s.fields|
      modifies this
      ensures Valid() && Meanings(s) == old(Meanings(s))[k := Some(old(Value(Meaning(s, k))))]
      ensures SameCallers(old(s), s) && k < |s.fields| && s.fields[k].tag != Default && id == s.fields[k].id != EMPTY
    {
      hide Ok, SameCallers, Meanings;
      FieldsHaveArenas(s, arenas);
      TagsByArena(s, arenas, k);
      if s.fields[k].tag != Default {
        MeaningsSame(s, k);
      } else {
        RenewedOk(s, arenas, k, []);
        s := Renewed(s, arenas[k], k, []);
      }
      OwnString(s, arenas, k);
      id := s.fields[k].id;
    }

    /** What the holder of the mutable pointer writes. */
    method Write(k: nat, v: bytes)
      requires Valid() && k < |s.fields| && s.fields[k].tag != Default
      modifies this
      ensures Valid() && Meanings(s) == old(Meanings(s))[k := Some(v)] && SameCallers(old(s), s)
    {
      hide Ok, SameCallers, Meanings;
      AssignedOk(s, arenas, k, v);
      s := Assigned(s, k, v);
    }

    /** Release; `left` is what moving leaves in an arena string. */
    method Release(k: nat, left: bytes) returns (id: Option<nat>)
      requires Valid() && k < |s.fields|
      modifies this
      ensures Valid() && Meanings(s) == old(Meanings(s))[k := None]
      ensures id.None? <==> old(Meaning(s, k)).None?
      ensures id.None? ==> SameCallers(old(s), s)
      ensures id.Some? ==> CallerHas(s, id.value, old(Value(Meaning(s, k)))) && (forall v :: !CallerHas(old(s), id.value, v))
                           && SameOtherCallers(old(s), s, id.value)
    {
      hide Ok, Meanings, Orphan;
      TagsByArena(s, arenas, k);
      if s.fields[k].tag == Default {
        MeaningsSame(s, k);
        return None;
      }
      if s.fields[k].tag == MutableArena {
        var was := s.fields[k];
        var v := s.text[was.id];
        DroppedOk(s, arenas, k);
        DroppedOrphan(s, arenas, k);
        var s1 := Dropped(s, k);
        CreatedOk(s1, arenas, v);
        CreatedOrphan(s1, arenas, was.id, v);
        id := Some(s1.next);
        var s2 := Created(s1, v);
        ScribbledOk(s2, arenas, was.id, left);
        assert forall w :: !CallerHas(s1, s1.next, w);
        s := Scribbled(s2, was.id, left);
      } else {
        SurrenderedOk(s, arenas, k);
        id := Some(s.fields[k].id);
        s := Surrendered(s, k);
      }
    }

    /** SetAllocated with a string of the caller's, or null. */
    method SetAllocated(k: nat, value: Option<nat>, ghost v: bytes)
      requires Valid() && k < |s.fields| && (value.Some? ==> CallerHas(s, value.value, v))
      modifies this
      ensures Valid() && Meanings(s) == old(Meanings(s))[k := if value.Some? then Some(v) else None]
      ensures value.None? ==> SameCallers(old(s), s)
      ensures value.Some? ==> (forall w :: !CallerHas(s, value.value, w)) && SameOtherCallers(old(s), s, value.value)
    {
      hide Ok, Meanings;
      DroppedOk(s, arenas, k);
      ghost var before := s;
      s := Dropped(s, k);
      if value.Some? {
        var id := value.value;
        assert CallerHas(s, id, v);
        if debug {
          ghost var s1 := s;
          var copy := s.text[id];
          CreatedOk(s, arenas, copy);
          var copied := s.next;
          s := Created(s, copy);
          assert CallerHas(s, id, v);
          DeletedOk(s, arenas, id, v);
          s := Deleted(s, id);
          assert CallerHas(s, copied, v);
          NoneOf(s1, copied);
          id := copied;
        }
        AdoptedOk(s, arenas, k, id, v);
        s := Adopted(s, arenas[k], k, id);
      }
    }

    /** ClearToEmpty. */
    method ClearToEmpty(k: nat)
      requires Valid() && k < |s.fields|
      modifies this
      ensures Valid() && SameCallers(old(s), s)
      ensures Meanings(s) == old(Meanings(s))[k := if old(Meaning(s, k)).Some? then Some([]) else None]
    {
      hide Ok, Meanings;
      TagsByArena(s, arenas, k);
      if s.fields[k].tag == Default {
        MeaningsSame(s, k);
      } else {
        AssignedOk(s, arenas, k, []);
        s := Assigned(s, k, []);
      }
    }

    /** ClearNonDefaultToEmpty, which would write to the shared empty string if the field
        were default. */
    method ClearNonDefaultToEmpty(k: nat)
      requires Valid() && k < |s.fields| && s.fields[k].tag != Default
      modifies this
      ensures Valid() && Meanings(s) == old(Meanings(s))[k := Some([])] && SameCallers(old(s), s)
    {
      hide Ok, SameCallers, Meanings;
      AssignedOk(s, arenas, k, []);
      s := Assigned(s, k, []);
    }

    /** The copy constructor: a hardened build copies even the default. */
    method CopyInto(k: nat, from: nat)
      requires Valid() && k < |s.fields| && from < |s.fields| && k != from && s.fields[k] == NONE
      modifies this
      ensures Valid() && SameCallers(old(s), s)
      ensures Meanings(s) == old(Meanings(s))[k := if hardened then Some(old(Value(Meaning(s, from)))) else old(Meaning(s, from))]
    {
      hide Ok, Meanings;
      FieldsHaveArenas(s, arenas);
      TagsByArena(s, arenas, from);
      TagsByArena(s, arenas, k);
      if hardened || s.fields[from].tag != Default {
        var v := s.text[s.fields[from].id];
        RenewedOk(s, arenas, k, v);
        s := Renewed(s, arenas[k], k, v);
      } else {
        MeaningsSame(s, k);
      }
    }

    /** The destructor of a field, which leaves it ready to be constructed again. */
    method Destroy(k: nat)
      requires Valid() && k < |s.fields|
      modifies this
      ensures Valid() && Meanings(s) == old(Meanings(s))[k := None] && SameCallers(old(s), s)
      ensures k < |s.fields| && s.fields[k] == NONE
    {
      hide Ok, SameCallers, Meanings;
      DroppedOk(s, arenas, k);
      s := Dropped(s, k);
    }

    /** The swap of one hardened field: its string is replaced by a moved copy. */
    method Recopy(k: nat, left: bytes)
      requires Valid() && k < |s.fields| && s.fields[k].tag != Default
      modifies this
      ensures Valid() && Meanings(s) == old(Meanings(s)) && SameCallers(old(s), s)
    {
      hide Ok, SameCallers, Meanings, Orphan;
      FieldsHaveArenas(s, arenas);
      TagsByArena(s, arenas, k);
      ghost var before := s;
      var was := s.fields[k];
      var v := s.text[was.id];
      MeaningsSame(s, k);
      RenewedOk(s, arenas, k, v);
      if arenas[k].Some? {
        RenewedOrphan(s, arenas, k, v);
      }
      s := Renewed(s, arenas[k], k, v);
      if arenas[k].Some? {
        ScribbledOk(s, arenas, was.id, left);
        CallersCompose(before, s, Scribbled(s, was.id, left));
        s := Scribbled(s, was.id, left);
      }
    }

    /** InternalSwap of two different fields. */
    method InternalSwap(j: nat, k: nat, left: bytes)
      requires Valid() && j < |s.fields| && k < |s.fields| && j != k && arenas[j] == arenas[k]
      modifies this
      ensures Valid() && SameCallers(old(s), s)
      ensures Meanings(s) == old(Meanings(s)[j := Meanings(s)[k]][k := Meanings(s)[j]])
    {
      hide Ok, SameCallers, Meanings;
      ghost var before := s;
      SwappedOk(s, arenas, j, k);
      s := Swapped(s, j, k);
      if hardSwap {
        FieldCount(before, s);
        if s.fields[j].tag != Default {
          ghost var mid := s;
          Recopy(j, left);
          CallersCompose(before, mid, s);
          FieldCount(mid, s);
        }
        if s.fields[k].tag != Default {
          ghost var mid := s;
          Recopy(k, left);
          CallersCompose(before, mid, s);
        }
      }
    }
  }

  lemma FieldsHaveArenas(s: State, arenas: Arenas)
    requires Ok(s, arenas)
    ensures |arenas| == |s.fields|
  {
  }

  lemma MeaningsSame(s: State, k: nat)
    requires k < |s.fields|
    ensures Meanings(s) == Meanings(s)[k := Meaning(s, k)] && SameCallers(s, s)
  {
  }

  lemma FieldCount(s: State, t: State)
    ensures |Meanings(s)| == |Meanings(t)| ==> |s.fields| == |t.fields|
  {
  }

  lemma OwnString(s: State, arenas: Arenas, k: nat)
    requires Ok(s, arenas) && k < |s.fields| && s.fields[k].tag != Default
    ensures s.fields[k].id != EMPTY
  {
    assert FieldOk(s, arenas, k);
    assert OwnerOk(s, s.fields[k].id);
  }

  lemma NoneOf(s: State, id: nat)
    requires id !in s.owner
    ensures forall v :: !CallerHas(s, id, v)
  {
  }
}
