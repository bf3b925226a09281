/** Tagged records: the varint and length-delimited fields that serialised messages are
    made of, and reading a message by applying its records one after the other. */
module WireRecords {
  import opened Common
  import V = Varint

  const MAX_FIELD: nat := 0x2000_0000   // field numbers have 29 bits
  const MAX_SIZE: nat := 0x8000_0000    // lengths are non-negative int32

  datatype Record = Len(field: nat, payload: bytes) | Num(field: nat, value: nat)

  predicate RecordOk(r: Record) {
    0 < r.field < MAX_FIELD
    && match r
       case Len(_, payload) => |payload| < MAX_SIZE
       case Num(_, value) => value < U64
  }

  function Encode(r: Record): (b: bytes)
    ensures |b| > 0
  {
    match r
    case Len(field, payload) => V.Write(field * 8 + 2) + V.Write(|payload|) + payload
    case Num(field, value) => V.Write(field * 8) + V.Write(value)
  }

  function EncodeAll(rs: seq<Record>): bytes {
    if rs == [] then [] else Encode(rs[0]) + EncodeAll(rs[1..])
  }

  datatype One = One(record: Record, rest: bytes) | Malformed

  /** One record. Wire types other than varint and length-delimited are not modelled. */
  function ReadOne(b: bytes): (o: One)
    ensures o.One? ==> |o.rest| < |b| && RecordOk(o.record)
  {
    var tag := V.ReadVarint(b);
    if !tag.Read? || tag.value >= 8 * MAX_FIELD || tag.value < 8 then Malformed
    else if tag.value % 8 == 0 then
      var v := V.ReadVarint(tag.rest);
      if v.Read? then One(Num(tag.value / 8, v.value), v.rest) else Malformed
    else if tag.value % 8 == 2 then
      var n := V.ReadVarint(tag.rest);
      if !n.Read? || n.value >= MAX_SIZE || n.value > |n.rest| then Malformed
      else One(Len(tag.value / 8, n.rest[..n.value]), n.rest[n.value..])
    else Malformed
  }

  function ReadAll(b: bytes): Option<seq<Record>>
    decreases |b|
  {
    if b == [] then Some([])
    else
      match ReadOne(b)
      case Malformed => None
      case One(r, rest) =>
        match ReadAll(rest)
        case None => None
        case Some(rs) => Some([r] + rs)
  }

  lemma ReadNum(field: nat, value: nat, rest: bytes)
    requires RecordOk(Num(field, value))
    ensures ReadOne(Encode(Num(field, value)) + rest) == One(Num(field, value), rest)
  {
    hide V.Write, V.ReadVarint;
    SeqAssoc(V.Write(field * 8), V.Write(value), rest);
    V.ReadOfWrite(field * 8, V.Write(value) + rest);
    V.ReadOfWrite(value, rest);
  }

  lemma ReadLen(field: nat, payload: bytes, rest: bytes)
    requires RecordOk(Len(field, payload))
    ensures ReadOne(Encode(Len(field, payload)) + rest) == One(Len(field, payload), rest)
  {
    hide V.Write, V.ReadVarint;
    var tag, n := V.Write(field * 8 + 2), V.Write(|payload|);
    SeqAssoc(tag, n, payload);
    SeqAssoc(tag, n + payload, rest);
    SeqAssoc(n, payload, rest);
    V.ReadOfWrite(field * 8 + 2, n + (payload + rest));
    V.ReadOfWrite(|payload|, payload + rest);
    TagParts(field);
    Cut(payload, rest);
  }

  lemma TagParts(field: nat)
    ensures (field * 8 + 2) % 8 == 2 && (field * 8 + 2) / 8 == field
  {
  }

  lemma Cut(a: bytes, b: bytes)
    ensures (a + b)[..|a|] == a && (a + b)[|a|..] == b
  {
  }

  lemma ReadOneOfEncode(r: Record, rest: bytes)
    requires RecordOk(r)
    ensures ReadOne(Encode(r) + rest) == One(r, rest)
  {
    hide Encode, ReadOne;
    match r {
      case Num(field, value) => ReadNum(field, value, rest);
      case Len(field, payload) => ReadLen(field, payload, rest);
    }
  }

  predicate AllOk(rs: seq<Record>) {
    forall i | 0 <= i < |rs| :: RecordOk(rs[i])
  }

  lemma ReadFirst(b: bytes, r: Record, rest: bytes)
    requires b != [] && ReadOne(b) == One(r, rest)
    ensures ReadAll(b) == match ReadAll(rest) case None => None case Some(rs) => Some([r] + rs)
  {
    hide ReadOne;
  }

  /** Every list of records is read back from its encoding. */
  lemma {:induction false} ReadAllOfEncode(rs: seq<Record>)
    requires AllOk(rs)
    ensures ReadAll(EncodeAll(rs)) == Some(rs)
  {
    hide Encode, ReadOne, ReadAll;
    if rs == [] {
      ReadNothing();
    } else {
      var rest := EncodeAll(rs[1..]);
      ReadOneOfEncode(rs[0], rest);
      ReadAllOfEncode(rs[1..]);
      ReadFirst(EncodeAll(rs), rs[0], rest);
      assert [rs[0]] + rs[1..] == rs;
    }
  }

  lemma ReadNothing()
    ensures ReadAll([]) == Some([])
  {
  }

  lemma {:induction false} EncodeAppend(a: seq<Record>, b: seq<Record>)
    ensures EncodeAll(a + b) == EncodeAll(a) + EncodeAll(b)
  {
    hide Encode;
    if a == [] {
      assert a + b == b;
    } else {
      EncodeAppend(a[1..], b);
      HeadAndTail(a, b);
      SeqAssoc(Encode(a[0]), EncodeAll(a[1..]), EncodeAll(b));
    }
  }

  // ----- applying records to a message -----

  /** The declared fields of a message and the records of undeclared ones. */
  datatype Msg<F> = Msg(fields: F, unknown: seq<Record>)

  /** What a message's field table makes of a record. */
  datatype Applied<F> = Field(fields: F) | Invalid | Undeclared

  type Table<!F> = (F, Record) -> Applied<F>

  function Apply<F>(table: Table<F>, m: Msg<F>, r: Record): Option<Msg<F>> {
    match table(m.fields, r)
    case Field(fields) => Some(m.(fields := fields))
    case Invalid => None
    case Undeclared => Some(m.(unknown := m.unknown + [r]))
  }

  /** A reader applies the records in order, on top of what `m` holds already. */
  function Fold<F>(table: Table<F>, m: Msg<F>, rs: seq<Record>): Option<Msg<F>>
    decreases |rs|
  {
    if rs == [] then Some(m)
    else
      match Apply(table, m, rs[0])
      case None => None
      case Some(m1) => Fold(table, m1, rs[1..])
  }

  function Parse<F>(table: Table<F>, m: Msg<F>, b: bytes): Option<Msg<F>> {
    match ReadAll(b)
    case None => None
    case Some(rs) => Fold(table, m, rs)
  }

  /** The records of a part of a message come first and lead from `m` to `m1`. */
  lemma {:induction false} FoldStep<F>(table: Table<F>, m: Msg<F>, part: seq<Record>, rest: seq<Record>, m1: Msg<F>)
    requires Fold(table, m, part) == Some(m1)
    ensures Fold(table, m, part + rest) == Fold(table, m1, rest)
    decreases |part|
  {
    if part == [] {
      assert part + rest == rest;
    } else {
      HeadAndTail(part, rest);
      FoldStep(table, Apply(table, m, part[0]).value, part[1..], rest, m1);
    }
  }

  lemma FoldOne<F>(table: Table<F>, m: Msg<F>, r: Record)
    ensures Fold(table, m, [r]) == Apply(table, m, r)
  {
    var applied := Apply(table, m, r);
    assert applied.Some? ==> Fold(table, applied.value, [r][1..]) == applied;
  }

  lemma {:induction false} FoldUndeclared<F>(table: Table<F>, m: Msg<F>, rs: seq<Record>)
    requires forall f, i | 0 <= i < |rs| :: table(f, rs[i]) == Undeclared
    ensures Fold(table, m, rs) == Some(m.(unknown := m.unknown + rs))
    decreases |rs|
  {
    if rs == [] {
      assert m.unknown + rs == m.unknown;
    } else {
      assert table(m.fields, rs[0]) == Undeclared;
      FoldUndeclared(table, m.(unknown := m.unknown + [rs[0]]), rs[1..]);
      assert m.unknown + [rs[0]] + rs[1..] == m.unknown + rs;
    }
  }

  lemma ParseOfEncode<F>(table: Table<F>, m: Msg<F>, rs: seq<Record>)
    requires AllOk(rs)
    ensures Parse(table, m, EncodeAll(rs)) == Fold(table, m, rs)
  {
    ReadAllOfEncode(rs);
  }
}
