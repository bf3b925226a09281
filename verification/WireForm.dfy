/** The bytes of the generated messages, with the tags that their parse tables list, and
    what a UTF-8 string is. */
module WireForm {
  import opened Common
  import opened WireRecords
  import opened Messages
  import opened MessageSize
  import V = Varint

  // ----- fields under their tag bytes -----

  /** A length-delimited field. */
  function Under(tag: byte, body: bytes): bytes {
    [tag] + V.Write(|body|) + body
  }

  /** A string or bytes field: nothing when empty. */
  function TextUnder(tag: byte, value: bytes): bytes {
    if value == [] then [] else Under(tag, value)
  }

  function FlagUnder(tag: byte, value: bool): bytes {
    if value then [tag, 1] else []
  }

  /** An int32 in 64-bit two's complement: nothing when zero. */
  function EnumUnder(tag: byte, value: int): bytes
    requires IsInt32(value)
  {
    if value == 0 then [] else [tag] + V.Write(if value < 0 then value + U64 else value)
  }

  /** A repeated sub-message: every element under the same tag, empty ones too. */
  function EachUnder(tag: byte, bodies: seq<bytes>): bytes {
    if bodies == [] then [] else Under(tag, bodies[0]) + EachUnder(tag, bodies[1..])
  }

  /** One byte of tag: the field number times eight plus the wire type. */
  lemma OneByte(v: nat)
    requires v < 128
    ensures V.Write(v) == [v]
  {
  }

  lemma LenUnder(field: nat, payload: bytes)
    requires field < 16
    ensures EncodeAll([Len(field, payload)]) == Under(field * 8 + 2, payload)
  {
    hide V.Write;
    EncodeOne(Len(field, payload));
    OneByte(field * 8 + 2);
  }

  lemma TextForm(field: nat, t: Text)
    requires field < 16 && TextOk(t)
    ensures EncodeAll(TextRecord(field, t)) == TextUnder(field * 8 + 2, t.value)
  {
    hide Under, Encode;
    LenUnder(field, t.value);
  }

  lemma FlagForm(field: nat, f: Flag)
    requires field < 16 && FlagOk(f)
    ensures EncodeAll(FlagRecord(field, f)) == FlagUnder(field * 8, f.value)
  {
    EncodeOne(Num(field, 1));
    OneByte(field * 8);
    OneByte(1);
  }

  lemma EnumForm(field: nat, e: Enum)
    requires field < 16 && EnumOk(e)
    ensures EncodeAll(EnumRecord(field, e)) == EnumUnder(field * 8, e.value)
  {
    hide V.Write;
    EncodeOne(Num(field, e.value % U64));
    OneByte(field * 8);
    assert e.value % U64 == if e.value < 0 then e.value + U64 else e.value;
  }

  lemma SubForm(field: nat, has: bool, body: bytes)
    requires field < 16
    ensures EncodeAll(SubRecord(field, has, body)) == if has then Under(field * 8 + 2, body) else []
  {
    hide Under, Encode;
    LenUnder(field, body);
  }

  // ----- the messages -----

  lemma AnyForm(m: Any)
    requires AnyOk(m)
    ensures EncodeAll(AnyRecords(m)) ==
              TextUnder(10, m.fields.typeUrl.value) + (TextUnder(18, m.fields.value.value) + EncodeAll(m.unknown))
  {
    hide EncodeAll, TextRecord, TextUnder, Utf8, AllOk;
    EncodeAppend(TextRecord(1, m.fields.typeUrl), TextRecord(2, m.fields.value) + m.unknown);
    EncodeAppend(TextRecord(2, m.fields.value), m.unknown);
    TextForm(1, m.fields.typeUrl);
    TextForm(2, m.fields.value);
  }

  lemma SourceForm(m: Source)
    requires SourceOk(m)
    ensures EncodeAll(SourceRecords(m)) == TextUnder(10, m.fields.fileName.value) + EncodeAll(m.unknown)
  {
    hide EncodeAll, TextRecord, TextUnder, Utf8, AllOk;
    EncodeAppend(TextRecord(1, m.fields.fileName), m.unknown);
    TextForm(1, m.fields.fileName);
  }

  lemma MixinForm(m: Mixin)
    requires MixinOk(m)
    ensures MixinBytes(m) ==
              TextUnder(10, m.fields.name.value) + (TextUnder(18, m.fields.root.value) + EncodeAll(m.unknown))
  {
    hide EncodeAll, TextRecord, TextUnder, Utf8, AllOk;
    EncodeAppend(TextRecord(1, m.fields.name), TextRecord(2, m.fields.root) + m.unknown);
    EncodeAppend(TextRecord(2, m.fields.root), m.unknown);
    TextForm(1, m.fields.name);
    TextForm(2, m.fields.root);
  }

  /** A present sub-message is written even when empty. */
  lemma OptForm(m: Opt)
    requires OptOk(m)
    ensures OptBytes(m) ==
              TextUnder(10, m.fields.name.value) +
              ((if m.fields.value.has then Under(18, AnyBytes(m.fields.value)) else []) + EncodeAll(m.unknown))
  {
    hide EncodeAll, TextRecord, SubRecord, TextUnder, Under, Utf8, AllOk, AnyOk, OptBytes, AnyBytes;
    OptParts(m);
    TextForm(1, m.fields.name);
    SubForm(2, m.fields.value.has, AnyBytes(m.fields.value));
  }

  function OptBodies(ms: seq<Opt>): seq<bytes> {
    seq(|ms|, i requires 0 <= i < |ms| => OptBytes(ms[i]))
  }

  function MethodBodies(ms: seq<Method>): seq<bytes> {
    seq(|ms|, i requires 0 <= i < |ms| => MethodBytes(ms[i]))
  }

  function MixinBodies(ms: seq<Mixin>): seq<bytes> {
    seq(|ms|, i requires 0 <= i < |ms| => MixinBytes(ms[i]))
  }

  lemma {:induction false} OptsForm(field: nat, ms: seq<Opt>)
    requires field < 16
    ensures EncodeAll(OptList(field, ms)) == EachUnder(field * 8 + 2, OptBodies(ms))
  {
    hide OptBytes, Under, EncodeAll;
    if ms == [] {
      EncodeNothing();
    } else {
      OptsForm(field, ms[1..]);
      LenUnder(field, OptBytes(ms[0]));
      EncodeAppend([Len(field, OptBytes(ms[0]))], OptList(field, ms[1..]));
      assert OptBodies(ms)[1..] == OptBodies(ms[1..]);
    }
  }

  lemma {:induction false} MethodsForm(ms: seq<Method>)
    ensures EncodeAll(MethodList(ms)) == EachUnder(18, MethodBodies(ms))
  {
    hide MethodBytes, Under, EncodeAll;
    if ms == [] {
      EncodeNothing();
    } else {
      MethodsForm(ms[1..]);
      LenUnder(2, MethodBytes(ms[0]));
      EncodeAppend([Len(2, MethodBytes(ms[0]))], MethodList(ms[1..]));
      assert MethodBodies(ms)[1..] == MethodBodies(ms[1..]);
    }
  }

  lemma {:induction false} MixinsForm(ms: seq<Mixin>)
    ensures EncodeAll(MixinList(ms)) == EachUnder(50, MixinBodies(ms))
  {
    hide MixinBytes, Under, EncodeAll;
    if ms == [] {
      EncodeNothing();
    } else {
      MixinsForm(ms[1..]);
      LenUnder(6, MixinBytes(ms[0]));
      EncodeAppend([Len(6, MixinBytes(ms[0]))], MixinList(ms[1..]));
      assert MixinBodies(ms)[1..] == MixinBodies(ms[1..]);
    }
  }

  lemma MethodForm(m: Method)
    requires MethodOk(m)
    ensures var f := m.fields;
            MethodBytes(m) ==
              TextUnder(10, f.name.value) + (TextUnder(18, f.requestTypeUrl.value) +
              (FlagUnder(24, f.requestStreaming.value) + (TextUnder(34, f.responseTypeUrl.value) +
              (FlagUnder(40, f.responseStreaming.value) + (EachUnder(50, OptBodies(f.options)) +
              (EnumUnder(56, f.syntax.value) + EncodeAll(m.unknown)))))))
  {
    hide EncodeAll, TextRecord, FlagRecord, EnumRecord, OptList, TextUnder, FlagUnder, EnumUnder, EachUnder, OptBodies,
      Utf8, AllOk, OptsOk, MethodBytes, TextOk, FlagOk, EnumOk;
    var f := m.fields;
    MethodParts(m);
    TextForm(1, f.name);
    TextForm(2, f.requestTypeUrl);
    FlagForm(3, f.requestStreaming);
    TextForm(4, f.responseTypeUrl);
    FlagForm(5, f.responseStreaming);
    OptsForm(6, f.options);
    EnumForm(7, f.syntax);
  }

  /** The bytes of every Api: its fields in the order of their numbers under the tags of
      the parse table, each written exactly when its value is not the default, every
      element of a repeated field, and the unknown records last. */
  lemma ApiForm(m: Api)
    requires ApiOk(m)
    ensures var f := m.fields;
            ApiBytes(m) ==
              TextUnder(10, f.name.value) + (EachUnder(18, MethodBodies(f.methods)) +
              (EachUnder(26, OptBodies(f.options)) + (TextUnder(34, f.version.value) +
              ((if f.source.has then Under(42, SourceBytes(f.source)) else []) +
              (EachUnder(50, MixinBodies(f.mixins)) + (EnumUnder(56, f.syntax.value) + EncodeAll(m.unknown)))))))
  {
    hide EncodeAll, TextRecord, EnumRecord, OptList, MethodList, MixinList, SubRecord, TextUnder, EnumUnder, EachUnder,
      Under, OptBodies, MethodBodies, MixinBodies, SourceBytes, Utf8, AllOk, OptsOk, MethodsOk, MixinsOk, SourceOk,
      ApiBytes, TextOk, EnumOk;
    var f := m.fields;
    ApiParts(m);
    TextForm(1, f.name);
    MethodsForm(f.methods);
    OptsForm(3, f.options);
    TextForm(4, f.version);
    SubForm(5, f.source.has, SourceBytes(f.source));
    MixinsForm(f.mixins);
    EnumForm(7, f.syntax);
  }

  // ----- text -----

  /** A Unicode scalar value. */
  predicate Scalar(c: nat) {
    c < 0x11_0000 && !(0xD800 <= c < 0xE000)
  }

  /** The encoding of one character, section 3 of RFC 3629. */
  function Character(c: nat): (b: bytes)
    requires Scalar(c)
    ensures 1 <= |b| <= 4
  {
    if c < 0x80 then [c]
    else if c < 0x800 then [0xC0 + c / 64, 0x80 + c % 64]
    else if c < 0x1_0000 then [0xE0 + c / 4096, 0x80 + c / 64 % 64, 0x80 + c % 64]
    else [0xF0 + c / 0x4_0000, 0x80 + c / 4096 % 64, 0x80 + c / 64 % 64, 0x80 + c % 64]
  }

  ghost predicate Scalars(cs: seq<nat>) {
    forall i | 0 <= i < |cs| :: Scalar(cs[i])
  }

  function Characters(cs: seq<nat>): bytes
    requires Scalars(cs)
  {
    if cs == [] then [] else Character(cs[0]) + Characters(cs[1..])
  }

  lemma CharacterIsValid(c: nat, rest: bytes)
    requires Scalar(c)
    ensures Utf8(Character(c) + rest) <==> Utf8(rest)
  {
    var b := Character(c) + rest;
    assert b[|Character(c)|..] == rest;
    if c < 0x80 {
    } else if c < 0x800 {
      assert 2 <= c / 64 < 32;
    } else if c < 0x1_0000 {
      assert c / 4096 < 16;
      assert c / 4096 == 0 ==> c / 64 % 64 >= 32;
      assert c / 4096 == 13 ==> c / 64 % 64 < 32;
    } else {
      assert c / 0x4_0000 <= 4;
      assert c / 0x4_0000 == 0 ==> c / 4096 % 64 >= 16;
      assert c / 0x4_0000 == 4 ==> c / 4096 % 64 < 16;
    }
  }

  /** Six more bits. */
  function Joined(c: nat, tail: byte): (r: nat)
    requires Tail(tail)
    ensures r / 64 == c && r % 64 == tail - 0x80
  {
    c * 64 + (tail - 0x80)
  }

  lemma TwoBytes(x: byte, y: byte)
    requires 0xC2 <= x <= 0xDF && Tail(y)
    ensures var c := Joined(x - 0xC0, y); Scalar(c) && Character(c) == [x, y]
  {
  }

  lemma ThreeBytes(x: byte, y: byte, z: byte)
    requires 0xE0 <= x <= 0xEF && Tail(y) && Tail(z) && (x == 0xE0 ==> y >= 0xA0) && (x == 0xED ==> y <= 0x9F)
    ensures var c := Joined(Joined(x - 0xE0, y), z); Scalar(c) && Character(c) == [x, y, z]
  {
    var c := Joined(Joined(x - 0xE0, y), z);
    assert c == (x - 0xE0) * 4096 + (y - 0x80) * 64 + (z - 0x80);
    assert c / 4096 == c / 64 / 64 == x - 0xE0;
  }

  lemma FourBytes(x: byte, y: byte, z: byte, w: byte)
    requires 0xF0 <= x <= 0xF4 && Tail(y) && Tail(z) && Tail(w) && (x == 0xF0 ==> y >= 0x90) && (x == 0xF4 ==> y <= 0x8F)
    ensures var c := Joined(Joined(Joined(x - 0xF0, y), z), w); Scalar(c) && Character(c) == [x, y, z, w]
  {
    var c := Joined(Joined(Joined(x - 0xF0, y), z), w);
    assert c == (x - 0xF0) * 0x4_0000 + (y - 0x80) * 4096 + (z - 0x80) * 64 + (w - 0x80);
    assert c / 4096 == c / 64 / 64 && c / 0x4_0000 == c / 4096 / 64 == x - 0xF0;
  }

  /** The first character of a valid string. */
  lemma FirstCharacter(b: bytes) returns (c: nat)
    requires Utf8(b) && b != []
    ensures Scalar(c) && Character(c) <= b && Utf8(b[|Character(c)|..])
  {
    if b[0] < 0x80 {
      c := b[0];
    } else {
      hide Character, Joined;
      if b[0] <= 0xDF {
        c := Joined(b[0] - 0xC0, b[1]);
        TwoBytes(b[0], b[1]);
      } else if b[0] <= 0xEF {
        c := Joined(Joined(b[0] - 0xE0, b[1]), b[2]);
        ThreeBytes(b[0], b[1], b[2]);
      } else {
        c := Joined(Joined(Joined(b[0] - 0xF0, b[1]), b[2]), b[3]);
        FourBytes(b[0], b[1], b[2], b[3]);
      }
    }
  }

  lemma {:induction false} EncodedIsValid(cs: seq<nat>)
    requires Scalars(cs)
    ensures Utf8(Characters(cs))
  {
    if cs != [] {
      hide Character, Utf8;
      EncodedIsValid(cs[1..]);
      CharacterIsValid(cs[0], Characters(cs[1..]));
    }
  }

  lemma {:induction false} ValidIsEncoded(b: bytes)
    requires Utf8(b)
    ensures exists cs :: Scalars(cs) && Characters(cs) == b
    decreases |b|
  {
    hide Character, Utf8;
    if b == [] {
      assert Scalars([]) && Characters([]) == [];
    } else {
      var c := FirstCharacter(b);
      ValidIsEncoded(b[|Character(c)|..]);
      var cs :| Scalars(cs) && Characters(cs) == b[|Character(c)|..];
      assert ([c] + cs)[1..] == cs;
      assert Scalars([c] + cs) && Characters([c] + cs) == b;
    }
  }

  /** A string field is accepted exactly when its bytes are the encoding of some sequence
      of Unicode scalar values. */
  lemma Utf8Iff(b: bytes)
    ensures Utf8(b) <==> exists cs :: Scalars(cs) && Characters(cs) == b
  {
    hide Character, Utf8, Characters;
    if Utf8(b) {
      ValidIsEncoded(b);
    }
    if exists cs :: Scalars(cs) && Characters(cs) == b {
      var cs :| Scalars(cs) && Characters(cs) == b;
      EncodedIsValid(cs);
    }
  }

  /** Two messages written out. */
  lemma SmallMessages()
    ensures EncodeAll(AnyRecords(Msg(AnyFields(Text(true, [0x61]), NO_TEXT), []))) == [0x0A, 0x01, 0x61]
    ensures EncodeAll(AnyRecords(Msg(AnyFields(NO_TEXT, Text(true, [0xFF, 0x00])), []))) == [0x12, 0x02, 0xFF, 0x00]
    ensures V.Write(300) == [0xAC, 0x02]
  {
    AnyForm(Msg(AnyFields(Text(true, [0x61]), NO_TEXT), []));
    AnyForm(Msg(AnyFields(NO_TEXT, Text(true, [0xFF, 0x00])), []));
    OneByte(1);
    OneByte(2);
  }
}
