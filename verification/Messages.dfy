/** The generated messages Any, Option, SourceContext, Mixin, Method and Api: their fields
    with presence bits, what they put on the wire, how a reader applies it, and MergeFrom. */
module Messages {
  import opened Common
  import opened WireRecords

  // ----- fields -----

  /** A string or bytes field and its has-bit. */
  datatype Text = Text(has: bool, value: bytes)
  datatype Flag = Flag(has: bool, value: bool)
  /** An open enum: any int32. */
  datatype Enum = Enum(has: bool, value: int)
  /** A sub-message pointer and its has-bit; Clear keeps the object and clears it. */
  datatype Sub<M> = Sub(has: bool, message: Option<M>)

  const NO_TEXT := Text(false, [])
  const NO_FLAG := Flag(false, false)
  const NO_ENUM := Enum(false, 0)

  predicate IsInt32(v: int) {
    -0x8000_0000 <= v < 0x8000_0000
  }

  /** A field that is not present has its default value. */
  predicate TextOk(t: Text) {
    (!t.has ==> t.value == []) && |t.value| < MAX_SIZE
  }

  predicate FlagOk(f: Flag) {
    !f.has ==> !f.value
  }

  predicate EnumOk(e: Enum) {
    (!e.has ==> e.value == 0) && IsInt32(e.value)
  }

  /** The field value alone: the has-bit of an empty or zero value is dropped. */
  function PlainText(t: Text): Text {
    Text(t.value != [], t.value)
  }

  function PlainFlag(f: Flag): Flag {
    Flag(f.value, f.value)
  }

  function PlainEnum(e: Enum): Enum {
    Enum(e.value != 0, e.value)
  }

  /** MergeImpl of one string field: a present empty string does not overwrite. */
  function MergeText(to: Text, from: Text): Text {
    if !from.has then to else Text(true, if from.value != [] then from.value else to.value)
  }

  function MergeFlag(to: Flag, from: Flag): Flag {
    if !from.has then to else Flag(true, if from.value then from.value else to.value)
  }

  function MergeEnum(to: Enum, from: Enum): Enum {
    if !from.has then to else Enum(true, if from.value != 0 then from.value else to.value)
  }

  /** _InternalSerialize of one field: nothing unless present and not the default. */
  function TextRecord(field: nat, t: Text): seq<Record> {
    if t.has && t.value != [] then [Len(field, t.value)] else []
  }

  function FlagRecord(field: nat, f: Flag): seq<Record> {
    if f.has && f.value then [Num(field, 1)] else []
  }

  /** Enums are sign-extended to 64 bits: a negative one takes ten bytes. */
  function EnumRecord(field: nat, e: Enum): seq<Record> {
    if e.has && e.value != 0 then [Num(field, e.value % U64)] else []
  }

  /** The reader keeps the low 32 bits of a varint in an enum field. */
  lemma EnumReadsBack(v: int)
    requires IsInt32(v)
    ensures ToInt32(v % U64) == v
  {
    if v < 0 {
      assert v % U64 == v + U64;
      assert U64 == U32 * U32;
    }
  }

  /** Well-formed UTF-8, section 4 of RFC 3629. */
  predicate Utf8(b: bytes)
    decreases |b|
  {
    if b == [] then true
    else if b[0] < 0x80 then Utf8(b[1..])
    else if 0xC2 <= b[0] <= 0xDF then |b| >= 2 && Tail(b[1]) && Utf8(b[2..])
    else if 0xE0 <= b[0] <= 0xEF then
      |b| >= 3 && Tail(b[1]) && Tail(b[2]) && Utf8(b[3..])
      && (b[0] == 0xE0 ==> b[1] >= 0xA0) && (b[0] == 0xED ==> b[1] <= 0x9F)
    else if 0xF0 <= b[0] <= 0xF4 then
      |b| >= 4 && Tail(b[1]) && Tail(b[2]) && Tail(b[3]) && Utf8(b[4..])
      && (b[0] == 0xF0 ==> b[1] >= 0x90) && (b[0] == 0xF4 ==> b[1] <= 0x8F)
    else false
  }

  predicate Tail(b: byte) {
    0x80 <= b <= 0xBF
  }

  // ----- Any -----

  datatype AnyFields = AnyFields(typeUrl: Text, value: Text)
  type Any = Msg<AnyFields>

  const NO_ANY: Any := Msg(AnyFields(NO_TEXT, NO_TEXT), [])

  /** The reader's table for Any: a string must be UTF-8, bytes need not. */
  function AnyTable(f: AnyFields, r: Record): Applied<AnyFields> {
    if r.Len? && r.field == 1 then if Utf8(r.payload) then Field(f.(typeUrl := Text(true, r.payload))) else Invalid
    else if r.Len? && r.field == 2 then Field(f.(value := Text(true, r.payload)))
    else Undeclared
  }

  function AnyRecords(m: Any): seq<Record> {
    TextRecord(1, m.fields.typeUrl) + (TextRecord(2, m.fields.value) + m.unknown)
  }

  function MergeAny(to: Any, from: Any): Any {
    Msg(AnyFields(MergeText(to.fields.typeUrl, from.fields.typeUrl), MergeText(to.fields.value, from.fields.value)),
        to.unknown + from.unknown)
  }

  function PlainAny(m: Any): Any {
    Msg(AnyFields(PlainText(m.fields.typeUrl), PlainText(m.fields.value)), m.unknown)
  }

  /** Absent fields hold their defaults, strings are UTF-8, unknown records are unknown. */
  predicate AnyOk(m: Any) {
    && TextOk(m.fields.typeUrl) && TextOk(m.fields.value) && Utf8(m.fields.typeUrl.value)
    && AllOk(m.unknown) && (forall i | 0 <= i < |m.unknown| :: !(m.unknown[i].Len? && m.unknown[i].field in {1, 2}))
  }

  /** Reading the records of `b` on top of `m` is merging `b` into `m`. */
  lemma FoldAny(m: Any, b: Any)
    requires AnyOk(b)
    ensures Fold(AnyTable, m, AnyRecords(b)) == Some(MergeAny(m, PlainAny(b)))
  {
    hide Utf8;
    var f := b.fields;
    FoldOne(AnyTable, m, Len(1, f.typeUrl.value));
    var m1 := m.(fields := m.fields.(typeUrl := MergeText(m.fields.typeUrl, PlainText(f.typeUrl))));
    FoldStep(AnyTable, m, TextRecord(1, f.typeUrl), TextRecord(2, f.value) + b.unknown, m1);
    FoldOne(AnyTable, m1, Len(2, f.value.value));
    var m2 := m1.(fields := m1.fields.(value := MergeText(m.fields.value, PlainText(f.value))));
    FoldStep(AnyTable, m1, TextRecord(2, f.value), b.unknown, m2);
    FoldUndeclared(AnyTable, m2, b.unknown);
  }

  // ----- SourceContext -----

  datatype SourceFields = SourceFields(fileName: Text)
  type Source = Msg<SourceFields>

  const NO_SOURCE: Source := Msg(SourceFields(NO_TEXT), [])

  function SourceTable(f: SourceFields, r: Record): Applied<SourceFields> {
    if r.Len? && r.field == 1 then if Utf8(r.payload) then Field(SourceFields(Text(true, r.payload))) else Invalid
    else Undeclared
  }

  function SourceRecords(m: Source): seq<Record> {
    TextRecord(1, m.fields.fileName) + m.unknown
  }

  function MergeSource(to: Source, from: Source): Source {
    Msg(SourceFields(MergeText(to.fields.fileName, from.fields.fileName)), to.unknown + from.unknown)
  }

  function PlainSource(m: Source): Source {
    Msg(SourceFields(PlainText(m.fields.fileName)), m.unknown)
  }

  predicate SourceOk(m: Source) {
    && TextOk(m.fields.fileName) && Utf8(m.fields.fileName.value)
    && AllOk(m.unknown) && (forall i | 0 <= i < |m.unknown| :: !(m.unknown[i].Len? && m.unknown[i].field == 1))
  }

  lemma FoldSource(m: Source, b: Source)
    requires SourceOk(b)
    ensures Fold(SourceTable, m, SourceRecords(b)) == Some(MergeSource(m, PlainSource(b)))
  {
    hide Utf8;
    var t := b.fields.fileName;
    FoldOne(SourceTable, m, Len(1, t.value));
    var m1 := m.(fields := SourceFields(MergeText(m.fields.fileName, PlainText(t))));
    FoldStep(SourceTable, m, TextRecord(1, t), b.unknown, m1);
    FoldUndeclared(SourceTable, m1, b.unknown);
  }

  // ----- Mixin -----

  datatype MixinFields = MixinFields(name: Text, root: Text)
  type Mixin = Msg<MixinFields>

  const NO_MIXIN: Mixin := Msg(MixinFields(NO_TEXT, NO_TEXT), [])

  function MixinTable(f: MixinFields, r: Record): Applied<MixinFields> {
    if r.Len? && r.field == 1 then if Utf8(r.payload) then Field(f.(name := Text(true, r.payload))) else Invalid
    else if r.Len? && r.field == 2 then if Utf8(r.payload) then Field(f.(root := Text(true, r.payload))) else Invalid
    else Undeclared
  }

  function MixinRecords(m: Mixin): seq<Record> {
    TextRecord(1, m.fields.name) + (TextRecord(2, m.fields.root) + m.unknown)
  }

  function MergeMixin(to: Mixin, from: Mixin): Mixin {
    Msg(MixinFields(MergeText(to.fields.name, from.fields.name), MergeText(to.fields.root, from.fields.root)),
        to.unknown + from.unknown)
  }

  function PlainMixin(m: Mixin): Mixin {
    Msg(MixinFields(PlainText(m.fields.name), PlainText(m.fields.root)), m.unknown)
  }

  predicate MixinOk(m: Mixin) {
    && TextOk(m.fields.name) && Utf8(m.fields.name.value) && TextOk(m.fields.root) && Utf8(m.fields.root.value)
    && AllOk(m.unknown) && (forall i | 0 <= i < |m.unknown| :: !(m.unknown[i].Len? && m.unknown[i].field in {1, 2}))
  }

  lemma FoldMixin(m: Mixin, b: Mixin)
    requires MixinOk(b)
    ensures Fold(MixinTable, m, MixinRecords(b)) == Some(MergeMixin(m, PlainMixin(b)))
  {
    hide Utf8;
    var f := b.fields;
    FoldOne(MixinTable, m, Len(1, f.name.value));
    var m1 := m.(fields := m.fields.(name := MergeText(m.fields.name, PlainText(f.name))));
    FoldStep(MixinTable, m, TextRecord(1, f.name), TextRecord(2, f.root) + b.unknown, m1);
    FoldOne(MixinTable, m1, Len(2, f.root.value));
    var m2 := m1.(fields := m1.fields.(root := MergeText(m.fields.root, PlainText(f.root))));
    FoldStep(MixinTable, m1, TextRecord(2, f.root), b.unknown, m2);
    FoldUndeclared(MixinTable, m2, b.unknown);
  }

  // ----- Option -----

  datatype OptFields = OptFields(name: Text, value: Sub<Any>)
  type Opt = Msg<OptFields>

  const NO_OPT: Opt := Msg(OptFields(NO_TEXT, Sub(false, None)), [])

  /** A sub-message record is read on top of the sub-message already there. */
  function OptTable(f: OptFields, r: Record): Applied<OptFields> {
    if r.Len? && r.field == 1 then if Utf8(r.payload) then Field(f.(name := Text(true, r.payload))) else Invalid
    else if r.Len? && r.field == 2 then
      match Parse(AnyTable, if f.value.message.Some? then f.value.message.value else NO_ANY, r.payload)
      case None => Invalid
      case Some(any) => Field(f.(value := Sub(true, Some(any))))
    else Undeclared
  }

  function SubRecord(field: nat, has: bool, body: bytes): seq<Record> {
    if has then [Len(field, body)] else []
  }

  function AnyBytes(s: Sub<Any>): bytes {
    if s.message.Some? then EncodeAll(AnyRecords(s.message.value)) else []
  }

  function OptRecords(m: Opt): seq<Record> {
    TextRecord(1, m.fields.name) + (SubRecord(2, m.fields.value.has, AnyBytes(m.fields.value)) + m.unknown)
  }

  function MergeSubAny(to: Sub<Any>, from: Sub<Any>): Sub<Any> {
    if !from.has then to
    else if from.message.None? then Sub(true, to.message)
    else if to.message.None? then from
    else Sub(true, Some(MergeAny(to.message.value, from.message.value)))
  }

  function MergeOpt(to: Opt, from: Opt): Opt {
    Msg(OptFields(MergeText(to.fields.name, from.fields.name), MergeSubAny(to.fields.value, from.fields.value)),
        to.unknown + from.unknown)
  }

  function PlainSubAny(s: Sub<Any>): Sub<Any> {
    if s.has && s.message.Some? then Sub(true, Some(PlainAny(s.message.value))) else Sub(false, None)
  }

  function PlainOpt(m: Opt): Opt {
    Msg(OptFields(PlainText(m.fields.name), PlainSubAny(m.fields.value)), m.unknown)
  }

  /** A present sub-message exists; an absent one that still exists is empty. */
  predicate SubAnyOk(s: Sub<Any>) {
    && (s.has ==> s.message.Some? && AnyOk(s.message.value) && |AnyBytes(s)| < MAX_SIZE)
    && (!s.has && s.message.Some? ==> s.message.value == NO_ANY)
  }

  predicate OptOk(m: Opt) {
    && TextOk(m.fields.name) && Utf8(m.fields.name.value) && SubAnyOk(m.fields.value)
    && AllOk(m.unknown) && (forall i | 0 <= i < |m.unknown| :: !(m.unknown[i].Len? && m.unknown[i].field in {1, 2}))
  }

  lemma AnyRecordsOk(m: Any)
    requires AnyOk(m)
    ensures AllOk(AnyRecords(m))
  {
    hide Utf8;
  }

  /** Parsing the bytes of `b` on top of `m` merges `b` into `m`. */
  lemma ParseAny(m: Any, b: Any)
    requires AnyOk(b)
    ensures Parse(AnyTable, m, EncodeAll(AnyRecords(b))) == Some(MergeAny(m, PlainAny(b)))
  {
    hide AnyOk, Fold, Parse, EncodeAll, AnyRecords;
    AnyRecordsOk(b);
    ParseOfEncode(AnyTable, m, AnyRecords(b));
    FoldAny(m, b);
  }

  lemma MergeIntoNoAny(b: Any)
    ensures MergeAny(NO_ANY, PlainAny(b)) == PlainAny(b)
  {
    assert [] + b.unknown == b.unknown;
  }

  lemma FoldSubAny(m: Opt, b: Sub<Any>)
    requires SubAnyOk(b)
    ensures Fold(OptTable, m, SubRecord(2, b.has, AnyBytes(b)))
         == Some(m.(fields := m.fields.(value := MergeSubAny(m.fields.value, PlainSubAny(b)))))
  {
    hide AnyOk, Parse, EncodeAll, AnyRecords, MergeAny, PlainAny, Utf8;
    FoldOne(OptTable, m, Len(2, AnyBytes(b)));
    if b.has {
      var was := m.fields.value.message;
      ParseAny(if was.Some? then was.value else NO_ANY, b.message.value);
      MergeIntoNoAny(b.message.value);
    }
  }

  lemma FoldOpt(m: Opt, b: Opt)
    requires OptOk(b)
    ensures Fold(OptTable, m, OptRecords(b)) == Some(MergeOpt(m, PlainOpt(b)))
  {
    hide Utf8, SubAnyOk, AnyBytes, Parse, MergeSubAny, PlainSubAny;
    var f := b.fields;
    FoldOne(OptTable, m, Len(1, f.name.value));
    var m1 := m.(fields := m.fields.(name := MergeText(m.fields.name, PlainText(f.name))));
    var sub := SubRecord(2, f.value.has, AnyBytes(f.value));
    FoldStep(OptTable, m, TextRecord(1, f.name), sub + b.unknown, m1);
    FoldSubAny(m1, f.value);
    var m2 := m1.(fields := m1.fields.(value := MergeSubAny(m.fields.value, PlainSubAny(f.value))));
    FoldStep(OptTable, m1, sub, b.unknown, m2);
    FoldUndeclared(OptTable, m2, b.unknown);
  }

  // ----- Method -----

  datatype MethodFields = MethodFields(
    name: Text, requestTypeUrl: Text, requestStreaming: Flag, responseTypeUrl: Text, responseStreaming: Flag,
    options: seq<Opt>, syntax: Enum)
  type Method = Msg<MethodFields>

  const NO_METHOD: Method := Msg(MethodFields(NO_TEXT, NO_TEXT, NO_FLAG, NO_TEXT, NO_FLAG, [], NO_ENUM), [])

  function MethodTable(f: MethodFields, r: Record): Applied<MethodFields> {
    match r
    case Len(field, payload) =>
      if field == 1 then if Utf8(payload) then Field(f.(name := Text(true, payload))) else Invalid
      else if field == 2 then if Utf8(payload) then Field(f.(requestTypeUrl := Text(true, payload))) else Invalid
      else if field == 4 then if Utf8(payload) then Field(f.(responseTypeUrl := Text(true, payload))) else Invalid
      else if field == 6 then
        match Parse(OptTable, NO_OPT, payload)
        case None => Invalid
        case Some(o) => Field(f.(options := f.options + [o]))
      else Undeclared
    case Num(field, v) =>
      if field == 3 then Field(f.(requestStreaming := Flag(true, v != 0)))
      else if field == 5 then Field(f.(responseStreaming := Flag(true, v != 0)))
      else if field == 7 then Field(f.(syntax := Enum(true, ToInt32(v))))
      else Undeclared
  }

  function OptBytes(m: Opt): bytes {
    EncodeAll(OptRecords(m))
  }

  function OptList(field: nat, ms: seq<Opt>): seq<Record> {
    if ms == [] then [] else [Len(field, OptBytes(ms[0]))] + OptList(field, ms[1..])
  }

  function PlainOpts(ms: seq<Opt>): seq<Opt> {
    if ms == [] then [] else [PlainOpt(ms[0])] + PlainOpts(ms[1..])
  }

  predicate OptsOk(ms: seq<Opt>) {
    forall i | 0 <= i < |ms| :: OptOk(ms[i]) && |OptBytes(ms[i])| < MAX_SIZE
  }

  function MethodRecords(m: Method): seq<Record> {
    var f := m.fields;
    TextRecord(1, f.name) + (TextRecord(2, f.requestTypeUrl) + (FlagRecord(3, f.requestStreaming) +
    (TextRecord(4, f.responseTypeUrl) + (FlagRecord(5, f.responseStreaming) + (OptList(6, f.options) +
    (EnumRecord(7, f.syntax) + m.unknown))))))
  }

  function MergeMethod(to: Method, from: Method): Method {
    var a, b := to.fields, from.fields;
    Msg(MethodFields(MergeText(a.name, b.name), MergeText(a.requestTypeUrl, b.requestTypeUrl),
                     MergeFlag(a.requestStreaming, b.requestStreaming), MergeText(a.responseTypeUrl, b.responseTypeUrl),
                     MergeFlag(a.responseStreaming, b.responseStreaming), a.options + b.options,
                     MergeEnum(a.syntax, b.syntax)),
        to.unknown + from.unknown)
  }

  function PlainMethod(m: Method): Method {
    var f := m.fields;
    Msg(MethodFields(PlainText(f.name), PlainText(f.requestTypeUrl), PlainFlag(f.requestStreaming),
                     PlainText(f.responseTypeUrl), PlainFlag(f.responseStreaming), PlainOpts(f.options),
                     PlainEnum(f.syntax)),
        m.unknown)
  }

  predicate StringOk(t: Text) {
    TextOk(t) && Utf8(t.value)
  }

  predicate UnknownToMethod(r: Record) {
    if r.Len? then r.field !in {1, 2, 4, 6} else r.field !in {3, 5, 7}
  }

  predicate MethodOk(m: Method) {
    var f := m.fields;
    && StringOk(f.name) && StringOk(f.requestTypeUrl) && StringOk(f.responseTypeUrl)
    && FlagOk(f.requestStreaming) && FlagOk(f.responseStreaming) && EnumOk(f.syntax) && OptsOk(f.options)
    && AllOk(m.unknown) && (forall i | 0 <= i < |m.unknown| :: UnknownToMethod(m.unknown[i]))
  }

  lemma OptRecordsOk(m: Opt)
    requires OptOk(m)
    ensures AllOk(OptRecords(m))
  {
    hide Utf8, AnyOk, EncodeAll, AnyRecords;
  }

  lemma ParseOpt(m: Opt, b: Opt)
    requires OptOk(b)
    ensures Parse(OptTable, m, OptBytes(b)) == Some(MergeOpt(m, PlainOpt(b)))
  {
    hide OptOk, Fold, Parse, EncodeAll, OptRecords;
    OptRecordsOk(b);
    ParseOfEncode(OptTable, m, OptRecords(b));
    FoldOpt(m, b);
  }

  lemma ParseFreshOpt(b: Opt)
    requires OptOk(b)
    ensures Parse(OptTable, NO_OPT, OptBytes(b)) == Some(PlainOpt(b))
  {
    hide OptOk, Parse, OptBytes;
    ParseOpt(NO_OPT, b);
    assert [] + b.unknown == b.unknown;
  }

  lemma {:induction false} FoldMethodOptions(m: Method, bs: seq<Opt>)
    requires OptsOk(bs)
    ensures Fold(MethodTable, m, OptList(6, bs))
         == Some(m.(fields := m.fields.(options := m.fields.options + PlainOpts(bs))))
    decreases |bs|
  {
    hide OptOk, Parse, OptBytes, Utf8, PlainOpt;
    if bs == [] {
      assert m.fields.options + PlainOpts(bs) == m.fields.options;
    } else {
      ParseFreshOpt(bs[0]);
      var m1 := m.(fields := m.fields.(options := m.fields.options + [PlainOpt(bs[0])]));
      FoldOne(MethodTable, m, Len(6, OptBytes(bs[0])));
      FoldStep(MethodTable, m, [Len(6, OptBytes(bs[0]))], OptList(6, bs[1..]), m1);
      FoldMethodOptions(m1, bs[1..]);
      SeqAssoc(m.fields.options, [PlainOpt(bs[0])], PlainOpts(bs[1..]));
    }
  }

  /** The singular fields one by one: each record sets its field, an absent one does not. */
  lemma FoldMethodScalars(m: Method, f: MethodFields)
    requires EnumOk(f.syntax)
    requires Utf8(f.name.value) && Utf8(f.requestTypeUrl.value) && Utf8(f.responseTypeUrl.value)
    requires TextOk(f.name) && TextOk(f.requestTypeUrl) && TextOk(f.responseTypeUrl)
    requires FlagOk(f.requestStreaming) && FlagOk(f.responseStreaming)
    ensures Fold(MethodTable, m, TextRecord(1, f.name))
         == Some(m.(fields := m.fields.(name := MergeText(m.fields.name, PlainText(f.name)))))
    ensures Fold(MethodTable, m, TextRecord(2, f.requestTypeUrl))
         == Some(m.(fields := m.fields.(requestTypeUrl := MergeText(m.fields.requestTypeUrl, PlainText(f.requestTypeUrl)))))
    ensures Fold(MethodTable, m, FlagRecord(3, f.requestStreaming))
         == Some(m.(fields := m.fields.(requestStreaming := MergeFlag(m.fields.requestStreaming, PlainFlag(f.requestStreaming)))))
    ensures Fold(MethodTable, m, TextRecord(4, f.responseTypeUrl))
         == Some(m.(fields := m.fields.(responseTypeUrl := MergeText(m.fields.responseTypeUrl, PlainText(f.responseTypeUrl)))))
    ensures Fold(MethodTable, m, FlagRecord(5, f.responseStreaming))
         == Some(m.(fields := m.fields.(responseStreaming := MergeFlag(m.fields.responseStreaming, PlainFlag(f.responseStreaming)))))
    ensures Fold(MethodTable, m, EnumRecord(7, f.syntax))
         == Some(m.(fields := m.fields.(syntax := MergeEnum(m.fields.syntax, PlainEnum(f.syntax)))))
  {
    hide Utf8, Parse;
    FoldOne(MethodTable, m, Len(1, f.name.value));
    FoldOne(MethodTable, m, Len(2, f.requestTypeUrl.value));
    FoldOne(MethodTable, m, Num(3, 1));
    FoldOne(MethodTable, m, Len(4, f.responseTypeUrl.value));
    FoldOne(MethodTable, m, Num(5, 1));
    EnumReadsBack(f.syntax.value);
    FoldOne(MethodTable, m, Num(7, f.syntax.value % U64));
  }

  lemma FoldMethod(m: Method, b: Method)
    requires MethodOk(b)
    ensures Fold(MethodTable, m, MethodRecords(b)) == Some(MergeMethod(m, PlainMethod(b)))
  {
    hide Utf8, OptsOk, OptList, PlainOpts, Parse, TextOk, FlagOk, EnumOk, TextRecord, FlagRecord, EnumRecord,
      MergeText, MergeFlag, MergeEnum, PlainText, PlainFlag, PlainEnum;
    var f := b.fields;
    var r7 := EnumRecord(7, f.syntax) + b.unknown;
    var r6 := OptList(6, f.options) + r7;
    var r5 := FlagRecord(5, f.responseStreaming) + r6;
    var r4 := TextRecord(4, f.responseTypeUrl) + r5;
    var r3 := FlagRecord(3, f.requestStreaming) + r4;
    var r2 := TextRecord(2, f.requestTypeUrl) + r3;
    FoldMethodScalars(m, f);
    var m1 := m.(fields := m.fields.(name := MergeText(m.fields.name, PlainText(f.name))));
    FoldStep(MethodTable, m, TextRecord(1, f.name), r2, m1);
    FoldMethodScalars(m1, f);
    var m2 := m1.(fields := m1.fields.(requestTypeUrl := MergeText(m.fields.requestTypeUrl, PlainText(f.requestTypeUrl))));
    FoldStep(MethodTable, m1, TextRecord(2, f.requestTypeUrl), r3, m2);
    FoldMethodScalars(m2, f);
    var m3 := m2.(fields := m2.fields.(requestStreaming := MergeFlag(m.fields.requestStreaming, PlainFlag(f.requestStreaming))));
    FoldStep(MethodTable, m2, FlagRecord(3, f.requestStreaming), r4, m3);
    FoldMethodScalars(m3, f);
    var m4 := m3.(fields := m3.fields.(responseTypeUrl := MergeText(m.fields.responseTypeUrl, PlainText(f.responseTypeUrl))));
    FoldStep(MethodTable, m3, TextRecord(4, f.responseTypeUrl), r5, m4);
    FoldMethodScalars(m4, f);
    var m5 := m4.(fields := m4.fields.(responseStreaming := MergeFlag(m.fields.responseStreaming, PlainFlag(f.responseStreaming))));
    FoldStep(MethodTable, m4, FlagRecord(5, f.responseStreaming), r6, m5);
    FoldMethodOptions(m5, f.options);
    var m6 := m5.(fields := m5.fields.(options := m.fields.options + PlainOpts(f.options)));
    FoldStep(MethodTable, m5, OptList(6, f.options), r7, m6);
    FoldMethodScalars(m6, f);
    var m7 := m6.(fields := m6.fields.(syntax := MergeEnum(m.fields.syntax, PlainEnum(f.syntax))));
    FoldStep(MethodTable, m6, EnumRecord(7, f.syntax), b.unknown, m7);
    FoldUndeclared(MethodTable, m7, b.unknown);
  }

  // ----- Api -----

  datatype ApiFields = ApiFields(
    name: Text, methods: seq<Method>, options: seq<Opt>, version: Text, source: Sub<Source>, mixins: seq<Mixin>,
    syntax: Enum)
  type Api = Msg<ApiFields>

  const NO_API: Api := Msg(ApiFields(NO_TEXT, [], [], NO_TEXT, Sub(false, None), [], NO_ENUM), [])

  function ApiTable(f: ApiFields, r: Record): Applied<ApiFields> {
    match r
    case Len(field, payload) =>
      if field == 1 then if Utf8(payload) then Field(f.(name := Text(true, payload))) else Invalid
      else if field == 2 then
        match Parse(MethodTable, NO_METHOD, payload)
        case None => Invalid
        case Some(x) => Field(f.(methods := f.methods + [x]))
      else if field == 3 then
        match Parse(OptTable, NO_OPT, payload)
        case None => Invalid
        case Some(x) => Field(f.(options := f.options + [x]))
      else if field == 4 then if Utf8(payload) then Field(f.(version := Text(true, payload))) else Invalid
      else if field == 5 then
        match Parse(SourceTable, if f.source.message.Some? then f.source.message.value else NO_SOURCE, payload)
        case None => Invalid
        case Some(x) => Field(f.(source := Sub(true, Some(x))))
      else if field == 6 then
        match Parse(MixinTable, NO_MIXIN, payload)
        case None => Invalid
        case Some(x) => Field(f.(mixins := f.mixins + [x]))
      else Undeclared
    case Num(field, v) =>
      if field == 7 then Field(f.(syntax := Enum(true, ToInt32(v)))) else Undeclared
  }

  function MethodBytes(m: Method): bytes {
    EncodeAll(MethodRecords(m))
  }

  function MethodList(ms: seq<Method>): seq<Record> {
    if ms == [] then [] else [Len(2, MethodBytes(ms[0]))] + MethodList(ms[1..])
  }

  function PlainMethods(ms: seq<Method>): seq<Method> {
    if ms == [] then [] else [PlainMethod(ms[0])] + PlainMethods(ms[1..])
  }

  predicate MethodsOk(ms: seq<Method>) {
    forall i | 0 <= i < |ms| :: MethodOk(ms[i]) && |MethodBytes(ms[i])| < MAX_SIZE
  }

  function MixinBytes(m: Mixin): bytes {
    EncodeAll(MixinRecords(m))
  }

  function MixinList(ms: seq<Mixin>): seq<Record> {
    if ms == [] then [] else [Len(6, MixinBytes(ms[0]))] + MixinList(ms[1..])
  }

  function PlainMixins(ms: seq<Mixin>): seq<Mixin> {
    if ms == [] then [] else [PlainMixin(ms[0])] + PlainMixins(ms[1..])
  }

  predicate MixinsOk(ms: seq<Mixin>) {
    forall i | 0 <= i < |ms| :: MixinOk(ms[i]) && |MixinBytes(ms[i])| < MAX_SIZE
  }

  function SourceBytes(s: Sub<Source>): bytes {
    if s.message.Some? then EncodeAll(SourceRecords(s.message.value)) else []
  }

  function MergeSubSource(to: Sub<Source>, from: Sub<Source>): Sub<Source> {
    if !from.has then to
    else if from.message.None? then Sub(true, to.message)
    else if to.message.None? then from
    else Sub(true, Some(MergeSource(to.message.value, from.message.value)))
  }

  function PlainSubSource(s: Sub<Source>): Sub<Source> {
    if s.has && s.message.Some? then Sub(true, Some(PlainSource(s.message.value))) else Sub(false, None)
  }

  predicate SubSourceOk(s: Sub<Source>) {
    && (s.has ==> s.message.Some? && SourceOk(s.message.value) && |SourceBytes(s)| < MAX_SIZE)
    && (!s.has && s.message.Some? ==> s.message.value == NO_SOURCE)
  }

  /** _InternalSerialize of Api: the fields in the order of their numbers. */
  function ApiRecords(m: Api): seq<Record> {
    var f := m.fields;
    TextRecord(1, f.name) + (MethodList(f.methods) + (OptList(3, f.options) + (TextRecord(4, f.version) +
    (SubRecord(5, f.source.has, SourceBytes(f.source)) + (MixinList(f.mixins) + (EnumRecord(7, f.syntax) + m.unknown))))))
  }

  function ApiBytes(m: Api): bytes {
    EncodeAll(ApiRecords(m))
  }

  /** MergeImpl of Api: strings overwritten, repeated fields concatenated, the sub-message
      merged. */
  function MergeApi(to: Api, from: Api): Api {
    var a, b := to.fields, from.fields;
    Msg(ApiFields(MergeText(a.name, b.name), a.methods + b.methods, a.options + b.options,
                  MergeText(a.version, b.version), MergeSubSource(a.source, b.source), a.mixins + b.mixins,
                  MergeEnum(a.syntax, b.syntax)),
        to.unknown + from.unknown)
  }

  function PlainApi(m: Api): Api {
    var f := m.fields;
    Msg(ApiFields(PlainText(f.name), PlainMethods(f.methods), PlainOpts(f.options), PlainText(f.version),
                  PlainSubSource(f.source), PlainMixins(f.mixins), PlainEnum(f.syntax)),
        m.unknown)
  }

  predicate UnknownToApi(r: Record) {
    if r.Len? then r.field !in {1, 2, 3, 4, 5, 6} else r.field != 7
  }

  predicate ApiOk(m: Api) {
    var f := m.fields;
    && StringOk(f.name) && StringOk(f.version) && EnumOk(f.syntax) && SubSourceOk(f.source)
    && MethodsOk(f.methods) && OptsOk(f.options) && MixinsOk(f.mixins)
    && AllOk(m.unknown) && (forall i | 0 <= i < |m.unknown| :: UnknownToApi(m.unknown[i]))
  }

  lemma {:induction false} OptListOk(field: nat, ms: seq<Opt>)
    requires OptsOk(ms) && 0 < field < 16
    ensures AllOk(OptList(field, ms))
  {
    hide OptOk, OptBytes;
    if ms != [] {
      OptListOk(field, ms[1..]);
    }
  }

  lemma ScalarsOk(field: nat, t: Text, g: Flag, e: Enum)
    requires 0 < field < 16
    ensures TextOk(t) ==> AllOk(TextRecord(field, t))
    ensures AllOk(FlagRecord(field, g))
    ensures EnumOk(e) ==> AllOk(EnumRecord(field, e))
  {
  }

  lemma BothOk(a: seq<Record>, b: seq<Record>)
    requires AllOk(a) && AllOk(b)
    ensures AllOk(a + b)
  {
  }

  lemma MethodRecordsOk(m: Method)
    requires MethodOk(m)
    ensures AllOk(MethodRecords(m))
  {
    hide Utf8, OptsOk, OptList, AllOk, TextRecord, FlagRecord, EnumRecord, TextOk, EnumOk;
    var f := m.fields;
    var r7 := EnumRecord(7, f.syntax) + m.unknown;
    var r6 := OptList(6, f.options) + r7;
    var r5 := FlagRecord(5, f.responseStreaming) + r6;
    var r4 := TextRecord(4, f.responseTypeUrl) + r5;
    var r3 := FlagRecord(3, f.requestStreaming) + r4;
    var r2 := TextRecord(2, f.requestTypeUrl) + r3;
    ScalarsOk(7, f.name, f.requestStreaming, f.syntax);
    BothOk(EnumRecord(7, f.syntax), m.unknown);
    OptListOk(6, f.options);
    BothOk(OptList(6, f.options), r7);
    ScalarsOk(5, f.name, f.responseStreaming, f.syntax);
    BothOk(FlagRecord(5, f.responseStreaming), r6);
    ScalarsOk(4, f.responseTypeUrl, f.responseStreaming, f.syntax);
    BothOk(TextRecord(4, f.responseTypeUrl), r5);
    ScalarsOk(3, f.name, f.requestStreaming, f.syntax);
    BothOk(FlagRecord(3, f.requestStreaming), r4);
    ScalarsOk(2, f.requestTypeUrl, f.responseStreaming, f.syntax);
    BothOk(TextRecord(2, f.requestTypeUrl), r3);
    ScalarsOk(1, f.name, f.responseStreaming, f.syntax);
    BothOk(TextRecord(1, f.name), r2);
  }

  lemma ParseFreshMethod(b: Method)
    requires MethodOk(b)
    ensures Parse(MethodTable, NO_METHOD, MethodBytes(b)) == Some(PlainMethod(b))
  {
    hide MethodOk, Fold, Parse, EncodeAll, MethodRecords;
    MethodRecordsOk(b);
    ParseOfEncode(MethodTable, NO_METHOD, MethodRecords(b));
    FoldMethod(NO_METHOD, b);
    assert [] + b.unknown == b.unknown;
    assert [] + PlainOpts(b.fields.options) == PlainOpts(b.fields.options);
  }

  lemma ParseFreshMixin(b: Mixin)
    requires MixinOk(b)
    ensures Parse(MixinTable, NO_MIXIN, MixinBytes(b)) == Some(PlainMixin(b))
  {
    hide Fold, Parse, EncodeAll, Utf8;
    ParseOfEncode(MixinTable, NO_MIXIN, MixinRecords(b));
    FoldMixin(NO_MIXIN, b);
    assert [] + b.unknown == b.unknown;
  }

  lemma ParseSource(m: Source, b: Source)
    requires SourceOk(b)
    ensures Parse(SourceTable, m, EncodeAll(SourceRecords(b))) == Some(MergeSource(m, PlainSource(b)))
  {
    hide Fold, Parse, EncodeAll, Utf8;
    ParseOfEncode(SourceTable, m, SourceRecords(b));
    FoldSource(m, b);
  }

  lemma {:induction false} FoldMethods(m: Api, bs: seq<Method>)
    requires MethodsOk(bs)
    ensures Fold(ApiTable, m, MethodList(bs))
         == Some(m.(fields := m.fields.(methods := m.fields.methods + PlainMethods(bs))))
    decreases |bs|
  {
    hide MethodOk, Parse, MethodBytes, Utf8, PlainMethod;
    if bs == [] {
      assert m.fields.methods + PlainMethods(bs) == m.fields.methods;
    } else {
      ParseFreshMethod(bs[0]);
      var m1 := m.(fields := m.fields.(methods := m.fields.methods + [PlainMethod(bs[0])]));
      FoldOne(ApiTable, m, Len(2, MethodBytes(bs[0])));
      FoldStep(ApiTable, m, [Len(2, MethodBytes(bs[0]))], MethodList(bs[1..]), m1);
      FoldMethods(m1, bs[1..]);
      assert m.fields.methods + [PlainMethod(bs[0])] + PlainMethods(bs[1..]) == m.fields.methods + PlainMethods(bs);
    }
  }

  lemma {:induction false} FoldOptions(m: Api, bs: seq<Opt>)
    requires OptsOk(bs)
    ensures Fold(ApiTable, m, OptList(3, bs))
         == Some(m.(fields := m.fields.(options := m.fields.options + PlainOpts(bs))))
    decreases |bs|
  {
    hide OptOk, Parse, OptBytes, Utf8, PlainOpt;
    if bs == [] {
      assert m.fields.options + PlainOpts(bs) == m.fields.options;
    } else {
      ParseFreshOpt(bs[0]);
      var m1 := m.(fields := m.fields.(options := m.fields.options + [PlainOpt(bs[0])]));
      FoldOne(ApiTable, m, Len(3, OptBytes(bs[0])));
      FoldStep(ApiTable, m, [Len(3, OptBytes(bs[0]))], OptList(3, bs[1..]), m1);
      FoldOptions(m1, bs[1..]);
      SeqAssoc(m.fields.options, [PlainOpt(bs[0])], PlainOpts(bs[1..]));
    }
  }

  lemma {:induction false} FoldMixins(m: Api, bs: seq<Mixin>)
    requires MixinsOk(bs)
    ensures Fold(ApiTable, m, MixinList(bs))
         == Some(m.(fields := m.fields.(mixins := m.fields.mixins + PlainMixins(bs))))
    decreases |bs|
  {
    hide MixinOk, Parse, MixinBytes, Utf8, PlainMixin;
    if bs == [] {
      assert m.fields.mixins + PlainMixins(bs) == m.fields.mixins;
    } else {
      ParseFreshMixin(bs[0]);
      var m1 := m.(fields := m.fields.(mixins := m.fields.mixins + [PlainMixin(bs[0])]));
      FoldOne(ApiTable, m, Len(6, MixinBytes(bs[0])));
      FoldStep(ApiTable, m, [Len(6, MixinBytes(bs[0]))], MixinList(bs[1..]), m1);
      FoldMixins(m1, bs[1..]);
      assert m.fields.mixins + [PlainMixin(bs[0])] + PlainMixins(bs[1..]) == m.fields.mixins + PlainMixins(bs);
    }
  }

  lemma FoldSubSource(m: Api, b: Sub<Source>)
    requires SubSourceOk(b)
    ensures Fold(ApiTable, m, SubRecord(5, b.has, SourceBytes(b)))
         == Some(m.(fields := m.fields.(source := MergeSubSource(m.fields.source, PlainSubSource(b)))))
  {
    hide SourceOk, Parse, EncodeAll, SourceRecords, Utf8;
    FoldOne(ApiTable, m, Len(5, SourceBytes(b)));
    if b.has {
      var was := m.fields.source.message;
      ParseSource(if was.Some? then was.value else NO_SOURCE, b.message.value);
      assert [] + b.message.value.unknown == b.message.value.unknown;
    }
  }

  lemma FoldApiScalars(m: Api, f: ApiFields)
    requires StringOk(f.name) && StringOk(f.version) && EnumOk(f.syntax)
    ensures Fold(ApiTable, m, TextRecord(1, f.name))
         == Some(m.(fields := m.fields.(name := MergeText(m.fields.name, PlainText(f.name)))))
    ensures Fold(ApiTable, m, TextRecord(4, f.version))
         == Some(m.(fields := m.fields.(version := MergeText(m.fields.version, PlainText(f.version)))))
    ensures Fold(ApiTable, m, EnumRecord(7, f.syntax))
         == Some(m.(fields := m.fields.(syntax := MergeEnum(m.fields.syntax, PlainEnum(f.syntax)))))
  {
    hide Utf8, Parse;
    FoldOne(ApiTable, m, Len(1, f.name.value));
    FoldOne(ApiTable, m, Len(4, f.version.value));
    EnumReadsBack(f.syntax.value);
    FoldOne(ApiTable, m, Num(7, f.syntax.value % U64));
  }

  lemma FoldApi(m: Api, b: Api)
    requires ApiOk(b)
    ensures Fold(ApiTable, m, ApiRecords(b)) == Some(MergeApi(m, PlainApi(b)))
  {
    hide Utf8, OptsOk, MethodsOk, MixinsOk, SubSourceOk, OptList, MethodList, MixinList, SubRecord, SourceBytes,
      PlainOpts, PlainMethods, PlainMixins, PlainSubSource, MergeSubSource, Parse, StringOk, EnumOk,
      TextRecord, EnumRecord, MergeText, MergeEnum, PlainText, PlainEnum;
    var f := b.fields;
    var sub := SubRecord(5, f.source.has, SourceBytes(f.source));
    var r7 := EnumRecord(7, f.syntax) + b.unknown;
    var r6 := MixinList(f.mixins) + r7;
    var r5 := sub + r6;
    var r4 := TextRecord(4, f.version) + r5;
    var r3 := OptList(3, f.options) + r4;
    var r2 := MethodList(f.methods) + r3;
    FoldApiScalars(m, f);
    var m1 := m.(fields := m.fields.(name := MergeText(m.fields.name, PlainText(f.name))));
    FoldStep(ApiTable, m, TextRecord(1, f.name), r2, m1);
    FoldMethods(m1, f.methods);
    var m2 := m1.(fields := m1.fields.(methods := m.fields.methods + PlainMethods(f.methods)));
    FoldStep(ApiTable, m1, MethodList(f.methods), r3, m2);
    FoldOptions(m2, f.options);
    var m3 := m2.(fields := m2.fields.(options := m.fields.options + PlainOpts(f.options)));
    FoldStep(ApiTable, m2, OptList(3, f.options), r4, m3);
    FoldApiScalars(m3, f);
    var m4 := m3.(fields := m3.fields.(version := MergeText(m.fields.version, PlainText(f.version))));
    FoldStep(ApiTable, m3, TextRecord(4, f.version), r5, m4);
    FoldSubSource(m4, f.source);
    var m5 := m4.(fields := m4.fields.(source := MergeSubSource(m.fields.source, PlainSubSource(f.source))));
    FoldStep(ApiTable, m4, sub, r6, m5);
    FoldMixins(m5, f.mixins);
    var m6 := m5.(fields := m5.fields.(mixins := m.fields.mixins + PlainMixins(f.mixins)));
    FoldStep(ApiTable, m5, MixinList(f.mixins), r7, m6);
    FoldApiScalars(m6, f);
    var m7 := m6.(fields := m6.fields.(syntax := MergeEnum(m.fields.syntax, PlainEnum(f.syntax))));
    FoldStep(ApiTable, m6, EnumRecord(7, f.syntax), b.unknown, m7);
    FoldUndeclared(ApiTable, m7, b.unknown);
  }

  lemma {:induction false} MethodListOk(ms: seq<Method>)
    requires MethodsOk(ms)
    ensures AllOk(MethodList(ms))
  {
    hide MethodOk, MethodBytes;
    if ms != [] {
      MethodListOk(ms[1..]);
    }
  }

  lemma {:induction false} MixinListOk(ms: seq<Mixin>)
    requires MixinsOk(ms)
    ensures AllOk(MixinList(ms))
  {
    hide MixinOk, MixinBytes;
    if ms != [] {
      MixinListOk(ms[1..]);
    }
  }

  lemma SubSourceRecordOk(s: Sub<Source>)
    requires SubSourceOk(s)
    ensures AllOk(SubRecord(5, s.has, SourceBytes(s)))
  {
    hide SourceOk, SourceBytes;
  }

  lemma ApiRecordsOk(m: Api)
    requires ApiOk(m)
    ensures AllOk(ApiRecords(m))
  {
    hide Utf8, OptsOk, MethodsOk, MixinsOk, SubSourceOk, OptList, MethodList, MixinList, SubRecord, SourceBytes, AllOk,
      TextRecord, FlagRecord, EnumRecord, TextOk, EnumOk;
    var f := m.fields;
    var sub := SubRecord(5, f.source.has, SourceBytes(f.source));
    var r7 := EnumRecord(7, f.syntax) + m.unknown;
    var r6 := MixinList(f.mixins) + r7;
    var r5 := sub + r6;
    var r4 := TextRecord(4, f.version) + r5;
    var r3 := OptList(3, f.options) + r4;
    var r2 := MethodList(f.methods) + r3;
    ScalarsOk(7, f.name, NO_FLAG, f.syntax);
    BothOk(EnumRecord(7, f.syntax), m.unknown);
    MixinListOk(f.mixins);
    BothOk(MixinList(f.mixins), r7);
    SubSourceRecordOk(f.source);
    BothOk(sub, r6);
    ScalarsOk(4, f.version, NO_FLAG, f.syntax);
    BothOk(TextRecord(4, f.version), r5);
    OptListOk(3, f.options);
    BothOk(OptList(3, f.options), r4);
    MethodListOk(f.methods);
    BothOk(MethodList(f.methods), r3);
    ScalarsOk(1, f.name, NO_FLAG, f.syntax);
    BothOk(TextRecord(1, f.name), r2);
  }

  // ----- reading back what was written, one message after another -----

  lemma PlainFieldsMerge(a: Text, b: Text, c: Flag, d: Flag, e: Enum, g: Enum)
    ensures TextOk(a) && TextOk(b) ==> MergeText(PlainText(a), PlainText(b)) == PlainText(MergeText(a, b))
    ensures FlagOk(c) && FlagOk(d) ==> MergeFlag(PlainFlag(c), PlainFlag(d)) == PlainFlag(MergeFlag(c, d))
    ensures EnumOk(e) && EnumOk(g) ==> MergeEnum(PlainEnum(e), PlainEnum(g)) == PlainEnum(MergeEnum(e, g))
  {
  }

  lemma {:induction false} PlainOptsAppend(a: seq<Opt>, b: seq<Opt>)
    ensures PlainOpts(a) + PlainOpts(b) == PlainOpts(a + b)
  {
    hide PlainOpt;
    if a == [] {
      assert a + b == b;
    } else {
      PlainOptsAppend(a[1..], b);
      HeadAndTail(a, b);
      SeqAssoc([PlainOpt(a[0])], PlainOpts(a[1..]), PlainOpts(b));
    }
  }

  lemma {:induction false} PlainMethodsAppend(a: seq<Method>, b: seq<Method>)
    ensures PlainMethods(a) + PlainMethods(b) == PlainMethods(a + b)
  {
    hide PlainMethod;
    if a == [] {
      assert a + b == b;
    } else {
      PlainMethodsAppend(a[1..], b);
      HeadAndTail(a, b);
      SeqAssoc([PlainMethod(a[0])], PlainMethods(a[1..]), PlainMethods(b));
    }
  }

  lemma {:induction false} PlainMixinsAppend(a: seq<Mixin>, b: seq<Mixin>)
    ensures PlainMixins(a) + PlainMixins(b) == PlainMixins(a + b)
  {
    hide PlainMixin;
    if a == [] {
      assert a + b == b;
    } else {
      PlainMixinsAppend(a[1..], b);
      HeadAndTail(a, b);
      SeqAssoc([PlainMixin(a[0])], PlainMixins(a[1..]), PlainMixins(b));
    }
  }

  lemma PlainSubsMerge(a: Sub<Source>, b: Sub<Source>)
    requires SubSourceOk(a) && SubSourceOk(b)
    ensures MergeSubSource(PlainSubSource(a), PlainSubSource(b)) == PlainSubSource(MergeSubSource(a, b))
  {
    hide Utf8, EncodeAll, SourceRecords;
    if b.has {
      assert [] + b.message.value.unknown == b.message.value.unknown;
    }
  }

  lemma PlainMergeApi(a: Api, b: Api)
    requires ApiOk(a) && ApiOk(b)
    ensures MergeApi(PlainApi(a), PlainApi(b)) == PlainApi(MergeApi(a, b))
  {
    hide Utf8, SubSourceOk, MethodsOk, OptsOk, MixinsOk, PlainOpts, PlainMethods, PlainMixins, TextOk, EnumOk,
      MergeText, PlainText, MergeEnum, PlainEnum, MergeSubSource, PlainSubSource;
    var f, g := a.fields, b.fields;
    PlainFieldsMerge(f.name, g.name, NO_FLAG, NO_FLAG, f.syntax, g.syntax);
    PlainFieldsMerge(f.version, g.version, NO_FLAG, NO_FLAG, f.syntax, g.syntax);
    PlainMethodsAppend(f.methods, g.methods);
    PlainOptsAppend(f.options, g.options);
    PlainMixinsAppend(f.mixins, g.mixins);
    PlainSubsMerge(f.source, g.source);
  }

  /** Generic part: two encodings one after the other are read as one list of records. */
  lemma ParseTwo<F>(table: Table<F>, empty: Msg<F>, ra: seq<Record>, rb: seq<Record>, ma: Msg<F>)
    requires AllOk(ra) && AllOk(rb) && Fold(table, empty, ra) == Some(ma)
    ensures Parse(table, empty, EncodeAll(ra) + EncodeAll(rb)) == Fold(table, ma, rb)
  {
    hide AllOk, EncodeAll, Parse, Fold;
    EncodeAppend(ra, rb);
    BothOk(ra, rb);
    ParseOfEncode(table, empty, ra + rb);
    FoldStep(table, empty, ra, rb, ma);
  }

  lemma MergeIntoNoApi(b: Api)
    ensures MergeApi(NO_API, PlainApi(b)) == PlainApi(b)
  {
    var f := PlainApi(b).fields;
    assert [] + f.methods == f.methods && [] + f.options == f.options && [] + f.mixins == f.mixins;
    assert [] + b.unknown == b.unknown;
  }

  /** Reading serialise(a) followed by serialise(b) gives the field values of `a` after
      MergeFrom(b), unknown fields included; with an empty `b` this is the round trip. */
  lemma ApiConcatenationMerges(a: Api, b: Api)
    requires ApiOk(a) && ApiOk(b)
    ensures Parse(ApiTable, NO_API, ApiBytes(a) + ApiBytes(b)) == Some(PlainApi(MergeApi(a, b)))
  {
    hide ApiOk, AllOk, Fold, Parse, EncodeAll, ApiRecords, MergeApi, PlainApi;
    FoldApi(NO_API, a);
    MergeIntoNoApi(a);
    FoldApi(PlainApi(a), b);
    ApiRecordsOk(a);
    ApiRecordsOk(b);
    ParseTwo(ApiTable, NO_API, ApiRecords(a), ApiRecords(b), PlainApi(a));
    PlainMergeApi(a, b);
  }

  lemma ApiRoundTrip(a: Api)
    requires ApiOk(a)
    ensures Parse(ApiTable, NO_API, ApiBytes(a)) == Some(PlainApi(a))
  {
    hide ApiOk, AllOk, Fold, Parse, EncodeAll, ApiRecords, MergeApi, PlainApi;
    FoldApi(NO_API, a);
    MergeIntoNoApi(a);
    ApiRecordsOk(a);
    ParseOfEncode(ApiTable, NO_API, ApiRecords(a));
  }

  lemma PlainMergeMethod(a: Method, b: Method)
    requires MethodOk(a) && MethodOk(b)
    ensures MergeMethod(PlainMethod(a), PlainMethod(b)) == PlainMethod(MergeMethod(a, b))
  {
    hide Utf8, OptsOk, PlainOpts, TextOk, EnumOk, FlagOk, MergeText, PlainText, MergeEnum, PlainEnum, MergeFlag, PlainFlag;
    var f, g := a.fields, b.fields;
    PlainFieldsMerge(f.name, g.name, f.requestStreaming, g.requestStreaming, f.syntax, g.syntax);
    PlainFieldsMerge(f.requestTypeUrl, g.requestTypeUrl, f.responseStreaming, g.responseStreaming, f.syntax, g.syntax);
    PlainFieldsMerge(f.responseTypeUrl, g.responseTypeUrl, NO_FLAG, NO_FLAG, f.syntax, g.syntax);
    PlainOptsAppend(f.options, g.options);
  }

  lemma MethodConcatenationMerges(a: Method, b: Method)
    requires MethodOk(a) && MethodOk(b)
    ensures Parse(MethodTable, NO_METHOD, MethodBytes(a) + MethodBytes(b)) == Some(PlainMethod(MergeMethod(a, b)))
  {
    hide MethodOk, AllOk, Fold, Parse, EncodeAll, MethodRecords;
    MethodRecordsOk(a);
    MethodRecordsOk(b);
    FoldMethod(NO_METHOD, a);
    assert [] + a.unknown == a.unknown;
    assert [] + PlainOpts(a.fields.options) == PlainOpts(a.fields.options);
    FoldMethod(PlainMethod(a), b);
    ParseTwo(MethodTable, NO_METHOD, MethodRecords(a), MethodRecords(b), PlainMethod(a));
    PlainMergeMethod(a, b);
  }

  lemma AnyConcatenationMerges(a: Any, b: Any)
    requires AnyOk(a) && AnyOk(b)
    ensures Parse(AnyTable, NO_ANY, EncodeAll(AnyRecords(a)) + EncodeAll(AnyRecords(b))) == Some(PlainAny(MergeAny(a, b)))
  {
    hide AllOk, Fold, Parse, EncodeAll, AnyRecords, Utf8;
    AnyRecordsOk(a);
    AnyRecordsOk(b);
    FoldAny(NO_ANY, a);
    MergeIntoNoAny(a);
    FoldAny(PlainAny(a), b);
    ParseTwo(AnyTable, NO_ANY, AnyRecords(a), AnyRecords(b), PlainAny(a));
  }

  // ----- Clear and CopyFrom -----

  /** Clear looks at the contents only where the bit is set. */
  function ClearText(t: Text): Text {
    Text(false, if t.has then [] else t.value)
  }

  function ClearAny(m: Any): Any {
    Msg(AnyFields(ClearText(m.fields.typeUrl), ClearText(m.fields.value)), [])
  }

  function ClearMixin(m: Mixin): Mixin {
    Msg(MixinFields(ClearText(m.fields.name), ClearText(m.fields.root)), [])
  }

  function ClearSource(m: Source): Source {
    Msg(SourceFields(ClearText(m.fields.fileName)), [])
  }

  /** The two flags and the enum are zeroed together, if any of their bits is set. */
  function ClearMethod(m: Method): Method {
    var f := m.fields;
    var zero := f.requestStreaming.has || f.responseStreaming.has || f.syntax.has;
    Msg(MethodFields(ClearText(f.name), ClearText(f.requestTypeUrl),
                     Flag(false, !zero && f.requestStreaming.value), ClearText(f.responseTypeUrl),
                     Flag(false, !zero && f.responseStreaming.value), [],
                     Enum(false, if zero then 0 else f.syntax.value)), [])
  }

  /** The enum is zeroed in any case; the sub-message object stays and is cleared. */
  function ClearApi(m: Api): Api {
    var f := m.fields;
    var source := if f.source.has && f.source.message.Some? then Some(ClearSource(f.source.message.value))
                  else f.source.message;
    Msg(ApiFields(ClearText(f.name), [], [], ClearText(f.version), Sub(false, source), [], Enum(false, 0)), [])
  }

  /** Although Clear skips what its bits say is unset, nothing is left over: a cleared
      message is a new one, but for the empty sub-message object Api keeps. */
  lemma ClearIsComplete(api: Api, m: Method, mixin: Mixin, any: Any)
    ensures AnyOk(any) ==> ClearAny(any) == NO_ANY
    ensures MixinOk(mixin) ==> ClearMixin(mixin) == NO_MIXIN
    ensures MethodOk(m) ==> ClearMethod(m) == NO_METHOD
    ensures ApiOk(api) ==> ApiOk(ClearApi(api)) && PlainApi(ClearApi(api)) == NO_API
  {
    hide Utf8, EncodeAll, OptsOk, MethodsOk, MixinsOk, ClearApi, PlainApi, ApiOk;
    ClearedApi(api);
  }

  lemma ClearedApi(api: Api)
    ensures ApiOk(api) ==> ApiOk(ClearApi(api)) && PlainApi(ClearApi(api)) == NO_API
  {
    hide EncodeAll;
    assert Utf8([]);
    assert PlainMethods([]) == [] && PlainOpts([]) == [] && PlainMixins([]) == [];
  }

  /** CopyFrom is Clear and MergeFrom: it leaves the field values of `from`. */
  lemma CopyFromCopies(to: Api, from: Api)
    requires ApiOk(to) && ApiOk(from)
    ensures PlainApi(MergeApi(ClearApi(to), from)) == PlainApi(from)
  {
    hide ApiOk, PlainApi, MergeApi, ClearApi;
    ClearedApi(to);
    PlainMergeApi(ClearApi(to), from);
    MergeIntoNoApi(from);
  }
}
