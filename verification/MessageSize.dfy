/** ByteSizeLong and _InternalSerialize: sizes are computed first and cached in the nested
    messages, and serialisation writes the cached sizes as length prefixes. */
module MessageSize {
  import opened Common
  import opened WireRecords
  import opened Messages
  import V = Varint

  // ----- cached sizes, as a tree beside the message -----

  datatype OptSize = OptSize(self: nat, value: nat)
  datatype MethodSize = MethodSize(self: nat, options: seq<OptSize>)
  datatype ApiSize = ApiSize(self: nat, methods: seq<MethodSize>, options: seq<OptSize>, source: nat, mixins: seq<nat>)

  // ----- serialisation with cached sizes -----

  /** InternalWriteMessage: tag, the cached size as uint32, then the body. */
  function EmitMessage(field: nat, cached: nat, body: bytes): bytes {
    V.Write(field * 8 + 2) + V.Write(cached % U32) + body
  }

  function EmitOpt(m: Opt, c: OptSize): bytes {
    EncodeAll(TextRecord(1, m.fields.name)) +
    ((if m.fields.value.has then EmitMessage(2, c.value, AnyBytes(m.fields.value)) else []) + EncodeAll(m.unknown))
  }

  function EmitOpts(field: nat, ms: seq<Opt>, cs: seq<OptSize>): bytes
    requires |ms| == |cs|
  {
    if ms == [] then [] else EmitMessage(field, cs[0].self, EmitOpt(ms[0], cs[0])) + EmitOpts(field, ms[1..], cs[1..])
  }

  function EmitMethod(m: Method, c: MethodSize): bytes
    requires |m.fields.options| == |c.options|
  {
    var f := m.fields;
    EncodeAll(TextRecord(1, f.name)) + (EncodeAll(TextRecord(2, f.requestTypeUrl)) +
    (EncodeAll(FlagRecord(3, f.requestStreaming)) + (EncodeAll(TextRecord(4, f.responseTypeUrl)) +
    (EncodeAll(FlagRecord(5, f.responseStreaming)) + (EmitOpts(6, f.options, c.options) +
    (EncodeAll(EnumRecord(7, f.syntax)) + EncodeAll(m.unknown)))))))
  }

  /** The cached sizes have the shape of the message. */
  predicate Shaped(ms: seq<Method>, cs: seq<MethodSize>) {
    |ms| == |cs| && forall i | 0 <= i < |ms| :: |ms[i].fields.options| == |cs[i].options|
  }

  function EmitMethods(ms: seq<Method>, cs: seq<MethodSize>): bytes
    requires Shaped(ms, cs)
  {
    if ms == [] then [] else EmitMessage(2, cs[0].self, EmitMethod(ms[0], cs[0])) + EmitMethods(ms[1..], cs[1..])
  }

  function EmitMixins(ms: seq<Mixin>, cs: seq<nat>): bytes
    requires |ms| == |cs|
  {
    if ms == [] then [] else EmitMessage(6, cs[0], MixinBytes(ms[0])) + EmitMixins(ms[1..], cs[1..])
  }

  predicate ApiShaped(m: Api, c: ApiSize) {
    Shaped(m.fields.methods, c.methods) && |m.fields.options| == |c.options| && |m.fields.mixins| == |c.mixins|
  }

  function EmitApi(m: Api, c: ApiSize): bytes
    requires ApiShaped(m, c)
  {
    var f := m.fields;
    EncodeAll(TextRecord(1, f.name)) + (EmitMethods(f.methods, c.methods) + (EmitOpts(3, f.options, c.options) +
    (EncodeAll(TextRecord(4, f.version)) +
    ((if f.source.has then EmitMessage(5, c.source, SourceBytes(f.source)) else []) +
    (EmitMixins(f.mixins, c.mixins) + (EncodeAll(EnumRecord(7, f.syntax)) + EncodeAll(m.unknown)))))))
  }

  // ----- sizes -----

  /** LengthDelimitedSize, with the length truncated to uint32 in the prefix. */
  function Delimited(n: nat): nat {
    n + V.Size(n % U32)
  }

  function TextSize(t: Text): nat {
    if t.has && t.value != [] then 1 + Delimited(|t.value|) else 0
  }

  function FlagSize(f: Flag): nat {
    if f.has && f.value then 2 else 0
  }

  function EnumSize(e: Enum): nat {
    if e.has && e.value != 0 then 1 + V.Size(e.value % U64) else 0
  }

  lemma TagIsOneByte(field: nat)
    requires field < 16
    ensures |V.Write(field * 8 + 2)| == 1 && |V.Write(field * 8)| == 1
  {
  }

  lemma SmallModulo(n: nat)
    requires n < MAX_SIZE
    ensures n % U32 == n && n < U64
  {
  }

  /** A delimited record takes a tag byte and its delimited size. */
  lemma LenLength(field: nat, payload: bytes)
    requires 0 < field < 16 && |payload| < MAX_SIZE
    ensures |EncodeAll([Len(field, payload)])| == 1 + Delimited(|payload|)
  {
    hide V.Write, V.Size;
    EncodeOne(Len(field, payload));
    TagIsOneByte(field);
    SmallModulo(|payload|);
    V.SizeIsLength(|payload|);
  }

  lemma EncodeOne(r: Record)
    ensures EncodeAll([r]) == Encode(r)
  {
    hide Encode;
    assert EncodeAll([r][1..]) == [];
  }

  lemma TextLength(field: nat, t: Text)
    requires 0 < field < 16 && TextOk(t)
    ensures |EncodeAll(TextRecord(field, t))| == TextSize(t)
  {
    hide Encode, Delimited;
    LenLength(field, t.value);
  }

  lemma FlagLength(field: nat, f: Flag)
    requires 0 < field < 16
    ensures |EncodeAll(FlagRecord(field, f))| == FlagSize(f)
  {
    EncodeOne(Num(field, 1));
    TagIsOneByte(field);
  }

  /** Negative enum values included: they are sign-extended. */
  lemma EnumLength(field: nat, e: Enum)
    requires 0 < field < 16
    ensures |EncodeAll(EnumRecord(field, e))| == EnumSize(e)
    ensures EnumOk(e) && e.value < 0 ==> EnumSize(e) == 11
  {
    hide V.Write, V.Size;
    EncodeOne(Num(field, e.value % U64));
    TagIsOneByte(field);
    V.SizeIsLength(e.value % U64);
    if EnumOk(e) && e.value < 0 {
      NegativeIsTen(e.value);
    }
  }

  lemma NegativeIsTen(v: int)
    requires -0x8000_0000 <= v < 0
    ensures |V.Write(v % U64)| == 10
  {
    var w := v + U64;
    assert v % U64 == w;
    var w3 := w / 0x20_0000;
    assert w / 128 / 128 / 128 == w3;
    assert |V.Write(w)| == 1 + |V.Write(w / 128)|;
    assert |V.Write(w / 128)| == 1 + |V.Write(w / 128 / 128)|;
    assert |V.Write(w / 128 / 128)| == 1 + |V.Write(w3)|;
    var w6 := w3 / 0x20_0000;
    assert w3 / 128 / 128 / 128 == w6;
    assert |V.Write(w3)| == 1 + |V.Write(w3 / 128)|;
    assert |V.Write(w3 / 128)| == 1 + |V.Write(w3 / 128 / 128)|;
    assert |V.Write(w3 / 128 / 128)| == 1 + |V.Write(w6)|;
    assert |V.Write(w6)| == 1 + |V.Write(w6 / 128)|;
    assert |V.Write(w6 / 128)| == 1 + |V.Write(w6 / 128 / 128)|;
    assert |V.Write(w6 / 128 / 128)| == 1 + |V.Write(w6 / 128 / 128 / 128)|;
    assert w6 / 128 / 128 / 128 < 128;
  }

  /** A nested message is written as its record exactly when the cached size is the length
      of its body: a stale cache corrupts the stream. */
  lemma PrefixIsLength(field: nat, cached: nat, body: bytes)
    requires |body| < MAX_SIZE
    ensures EmitMessage(field, cached, body) == EncodeAll([Len(field, body)]) <==> cached % U32 == |body|
  {
    hide V.Write;
    EncodeOne(Len(field, body));
    var tag := V.Write(field * 8 + 2);
    if EmitMessage(field, cached, body) == Encode(Len(field, body)) {
      SamePrefix(tag, V.Write(cached % U32), V.Write(|body|), body);
      V.ReadOfWrite(cached % U32, body);
      V.ReadOfWrite(|body|, body);
    }
  }

  lemma SamePrefix(tag: bytes, a: bytes, b: bytes, body: bytes)
    requires tag + a + body == tag + b + body
    ensures a + body == b + body
  {
    assert (tag + a + body)[|tag|..] == a + body;
    assert (tag + b + body)[|tag|..] == b + body;
  }

  // ----- with sizes computed, serialisation writes the records -----

  predicate OptSized(m: Opt, c: OptSize) {
    c.self == |OptBytes(m)| && (m.fields.value.has ==> c.value == |AnyBytes(m.fields.value)|)
  }

  predicate OptsSized(ms: seq<Opt>, cs: seq<OptSize>) {
    |ms| == |cs| && forall i | 0 <= i < |ms| :: OptSized(ms[i], cs[i])
  }

  predicate MethodSized(m: Method, c: MethodSize) {
    c.self == |MethodBytes(m)| && OptsSized(m.fields.options, c.options)
  }

  predicate MethodsSized(ms: seq<Method>, cs: seq<MethodSize>) {
    |ms| == |cs| && forall i | 0 <= i < |ms| :: MethodSized(ms[i], cs[i])
  }

  predicate MixinsSized(ms: seq<Mixin>, cs: seq<nat>) {
    |ms| == |cs| && forall i | 0 <= i < |ms| :: cs[i] == |MixinBytes(ms[i])|
  }

  predicate ApiSized(m: Api, c: ApiSize) {
    var f := m.fields;
    && c.self == |ApiBytes(m)| && MethodsSized(f.methods, c.methods) && OptsSized(f.options, c.options)
    && (f.source.has ==> c.source == |SourceBytes(f.source)|) && MixinsSized(f.mixins, c.mixins)
  }

  lemma SubIsRecord(field: nat, has: bool, cached: nat, body: bytes)
    requires has ==> |body| < MAX_SIZE && cached == |body|
    ensures (if has then EmitMessage(field, cached, body) else []) == EncodeAll(SubRecord(field, has, body))
  {
    hide Encode, EmitMessage;
    if has {
      SmallModulo(|body|);
      PrefixIsLength(field, cached, body);
    }
  }

  lemma OptParts(m: Opt)
    ensures OptBytes(m) == EncodeAll(TextRecord(1, m.fields.name)) +
              (EncodeAll(SubRecord(2, m.fields.value.has, AnyBytes(m.fields.value))) + EncodeAll(m.unknown))
  {
    hide EncodeAll, TextRecord, SubRecord, AnyBytes;
    var sub := SubRecord(2, m.fields.value.has, AnyBytes(m.fields.value));
    EncodeAppend(TextRecord(1, m.fields.name), sub + m.unknown);
    EncodeAppend(sub, m.unknown);
  }

  lemma EmitOptIsBytes(m: Opt, c: OptSize)
    requires OptOk(m) && OptSized(m, c)
    ensures EmitOpt(m, c) == OptBytes(m)
  {
    hide EncodeAll, TextRecord, SubRecord, EmitMessage, Utf8, AnyOk, OptBytes, AnyBytes;
    OptParts(m);
    SubIsRecord(2, m.fields.value.has, c.value, AnyBytes(m.fields.value));
  }

  lemma {:induction false} EmitOptsIsBytes(field: nat, ms: seq<Opt>, cs: seq<OptSize>)
    requires OptsOk(ms) && OptsSized(ms, cs)
    ensures EmitOpts(field, ms, cs) == EncodeAll(OptList(field, ms))
  {
    hide EncodeAll, EmitMessage, OptOk, OptBytes, EmitOpt;
    if ms == [] {
      EncodeNothing();
    } else {
      assert OptSized(ms[0], cs[0]);
      EmitOptIsBytes(ms[0], cs[0]);
      SmallModulo(cs[0].self);
      PrefixIsLength(field, cs[0].self, OptBytes(ms[0]));
      EmitOptsIsBytes(field, ms[1..], cs[1..]);
      EncodeAppend([Len(field, OptBytes(ms[0]))], OptList(field, ms[1..]));
    }
  }

  lemma EncodeNothing()
    ensures EncodeAll([]) == []
  {
  }

  lemma MethodParts(m: Method)
    ensures var f := m.fields;
            MethodBytes(m) ==
              EncodeAll(TextRecord(1, f.name)) + (EncodeAll(TextRecord(2, f.requestTypeUrl)) +
              (EncodeAll(FlagRecord(3, f.requestStreaming)) + (EncodeAll(TextRecord(4, f.responseTypeUrl)) +
              (EncodeAll(FlagRecord(5, f.responseStreaming)) + (EncodeAll(OptList(6, f.options)) +
              (EncodeAll(EnumRecord(7, f.syntax)) + EncodeAll(m.unknown)))))))
  {
    hide EncodeAll, TextRecord, FlagRecord, EnumRecord, OptList;
    var f := m.fields;
    var r7 := EnumRecord(7, f.syntax) + m.unknown;
    var r6 := OptList(6, f.options) + r7;
    var r5 := FlagRecord(5, f.responseStreaming) + r6;
    var r4 := TextRecord(4, f.responseTypeUrl) + r5;
    var r3 := FlagRecord(3, f.requestStreaming) + r4;
    EncodeAppend(TextRecord(1, f.name), TextRecord(2, f.requestTypeUrl) + r3);
    EncodeAppend(TextRecord(2, f.requestTypeUrl), r3);
    EncodeAppend(FlagRecord(3, f.requestStreaming), r4);
    EncodeAppend(TextRecord(4, f.responseTypeUrl), r5);
    EncodeAppend(FlagRecord(5, f.responseStreaming), r6);
    EncodeAppend(OptList(6, f.options), r7);
    EncodeAppend(EnumRecord(7, f.syntax), m.unknown);
  }

  lemma EmitMethodIsBytes(m: Method, c: MethodSize)
    requires MethodOk(m) && MethodSized(m, c)
    ensures EmitMethod(m, c) == MethodBytes(m)
  {
    hide EncodeAll, TextRecord, FlagRecord, EnumRecord, OptList, OptsOk, OptSized, Utf8, MethodBytes, EmitOpts;
    MethodParts(m);
    EmitOptsIsBytes(6, m.fields.options, c.options);
  }

  lemma {:induction false} EmitMethodsIsBytes(ms: seq<Method>, cs: seq<MethodSize>)
    requires MethodsOk(ms) && MethodsSized(ms, cs)
    ensures Shaped(ms, cs) && EmitMethods(ms, cs) == EncodeAll(MethodList(ms))
  {
    hide EncodeAll, EmitMessage, MethodOk, MethodBytes, EmitMethod, OptSized;
    if ms == [] {
      EncodeNothing();
    } else {
      assert MethodSized(ms[0], cs[0]);
      EmitMethodIsBytes(ms[0], cs[0]);
      SmallModulo(cs[0].self);
      PrefixIsLength(2, cs[0].self, MethodBytes(ms[0]));
      EmitMethodsIsBytes(ms[1..], cs[1..]);
      EncodeAppend([Len(2, MethodBytes(ms[0]))], MethodList(ms[1..]));
    }
  }

  lemma {:induction false} EmitMixinsIsBytes(ms: seq<Mixin>, cs: seq<nat>)
    requires MixinsOk(ms) && MixinsSized(ms, cs)
    ensures EmitMixins(ms, cs) == EncodeAll(MixinList(ms))
  {
    hide EncodeAll, EmitMessage, MixinOk, MixinBytes;
    if ms == [] {
      EncodeNothing();
    } else {
      SmallModulo(cs[0]);
      PrefixIsLength(6, cs[0], MixinBytes(ms[0]));
      EmitMixinsIsBytes(ms[1..], cs[1..]);
      EncodeAppend([Len(6, MixinBytes(ms[0]))], MixinList(ms[1..]));
    }
  }

  lemma ApiParts(m: Api)
    ensures var f := m.fields;
            ApiBytes(m) ==
              EncodeAll(TextRecord(1, f.name)) + (EncodeAll(MethodList(f.methods)) + (EncodeAll(OptList(3, f.options)) +
              (EncodeAll(TextRecord(4, f.version)) + (EncodeAll(SubRecord(5, f.source.has, SourceBytes(f.source))) +
              (EncodeAll(MixinList(f.mixins)) + (EncodeAll(EnumRecord(7, f.syntax)) + EncodeAll(m.unknown)))))))
  {
    hide EncodeAll, TextRecord, EnumRecord, OptList, MethodList, MixinList, SubRecord, SourceBytes;
    var f := m.fields;
    var sub := SubRecord(5, f.source.has, SourceBytes(f.source));
    var r7 := EnumRecord(7, f.syntax) + m.unknown;
    var r6 := MixinList(f.mixins) + r7;
    var r5 := sub + r6;
    var r4 := TextRecord(4, f.version) + r5;
    var r3 := OptList(3, f.options) + r4;
    EncodeAppend(TextRecord(1, f.name), MethodList(f.methods) + r3);
    EncodeAppend(MethodList(f.methods), r3);
    EncodeAppend(OptList(3, f.options), r4);
    EncodeAppend(TextRecord(4, f.version), r5);
    EncodeAppend(sub, r6);
    EncodeAppend(MixinList(f.mixins), r7);
    EncodeAppend(EnumRecord(7, f.syntax), m.unknown);
  }

  /** With the sizes of ByteSizeLong cached, every nested length prefix is the length of
      its body and serialisation writes exactly the records of the message. */
  lemma EmitApiIsBytes(m: Api, c: ApiSize)
    requires ApiOk(m) && ApiSized(m, c)
    ensures ApiShaped(m, c) && EmitApi(m, c) == ApiBytes(m) && |EmitApi(m, c)| == c.self
  {
    hide EncodeAll, TextRecord, EnumRecord, OptList, MethodList, MixinList, SubRecord, SourceBytes, OptsOk, MethodsOk,
      MixinsOk, SourceOk, Utf8, ApiBytes, EmitOpts, EmitMethods, EmitMixins, EmitMessage, MethodSized, OptSized;
    var f := m.fields;
    ApiParts(m);
    EmitMethodsIsBytes(f.methods, c.methods);
    EmitOptsIsBytes(3, f.options, c.options);
    SubIsRecord(5, f.source.has, c.source, SourceBytes(f.source));
    EmitMixinsIsBytes(f.mixins, c.mixins);
  }

  // ----- ByteSizeLong -----

  method ByteSizeAny(m: Any) returns (total: nat)
    requires AnyOk(m)
    ensures total == |EncodeAll(AnyRecords(m))|
  {
    hide EncodeAll, Utf8, TextRecord, TextSize, AllOk;
    total := TextSize(m.fields.typeUrl) + TextSize(m.fields.value) + |EncodeAll(m.unknown)|;
    EncodeAppend(TextRecord(1, m.fields.typeUrl), TextRecord(2, m.fields.value) + m.unknown);
    EncodeAppend(TextRecord(2, m.fields.value), m.unknown);
    TextLength(1, m.fields.typeUrl);
    TextLength(2, m.fields.value);
  }

  method ByteSizeSource(m: Source) returns (total: nat)
    requires SourceOk(m)
    ensures total == |EncodeAll(SourceRecords(m))|
  {
    hide EncodeAll, Utf8, TextRecord, TextSize, AllOk;
    total := TextSize(m.fields.fileName) + |EncodeAll(m.unknown)|;
    EncodeAppend(TextRecord(1, m.fields.fileName), m.unknown);
    TextLength(1, m.fields.fileName);
  }

  method ByteSizeMixin(m: Mixin) returns (total: nat)
    requires MixinOk(m)
    ensures total == |MixinBytes(m)|
  {
    hide EncodeAll, Utf8, TextRecord, TextSize, AllOk;
    total := TextSize(m.fields.name) + TextSize(m.fields.root) + |EncodeAll(m.unknown)|;
    EncodeAppend(TextRecord(1, m.fields.name), TextRecord(2, m.fields.root) + m.unknown);
    EncodeAppend(TextRecord(2, m.fields.root), m.unknown);
    TextLength(1, m.fields.name);
    TextLength(2, m.fields.root);
  }

  lemma SubLength(field: nat, has: bool, body: bytes)
    requires 0 < field < 16 && (has ==> |body| < MAX_SIZE)
    ensures |EncodeAll(SubRecord(field, has, body))| == if has then 1 + Delimited(|body|) else 0
  {
    hide Encode, Delimited;
    if has {
      LenLength(field, body);
    }
  }

  /** ByteSizeLong of Option; the size of its value is cached on the way. */
  method ByteSizeOpt(m: Opt) returns (c: OptSize)
    requires OptOk(m)
    ensures OptSized(m, c)
  {
    hide EncodeAll, Utf8, TextRecord, TextSize, AllOk, AnyOk, OptBytes, SubRecord, Delimited, AnyRecords;
    var total := TextSize(m.fields.name);
    var value := 0;
    if m.fields.value.has {
      value := ByteSizeAny(m.fields.value.message.value);
      total := total + 1 + Delimited(value);
    }
    c := OptSize(total + |EncodeAll(m.unknown)|, value);
    OptParts(m);
    TextLength(1, m.fields.name);
    SubLength(2, m.fields.value.has, AnyBytes(m.fields.value));
  }

  function OptSum(ms: seq<Opt>): nat {
    if ms == [] then 0 else Delimited(|OptBytes(ms[0])|) + OptSum(ms[1..])
  }

  lemma {:induction false} OptListLength(field: nat, ms: seq<Opt>)
    requires OptsOk(ms) && 0 < field < 16
    ensures |EncodeAll(OptList(field, ms))| == |ms| + OptSum(ms)
  {
    hide EncodeAll, OptOk, OptBytes, Delimited;
    if ms == [] {
      EncodeNothing();
    } else {
      OptListLength(field, ms[1..]);
      EncodeAppend([Len(field, OptBytes(ms[0]))], OptList(field, ms[1..]));
      LenLength(field, OptBytes(ms[0]));
    }
  }

  /** The loop over a repeated Option field. */
  method ByteSizeOpts(field: nat, ms: seq<Opt>) returns (total: nat, cs: seq<OptSize>)
    requires OptsOk(ms) && 0 < field < 16
    ensures total == |EncodeAll(OptList(field, ms))| && OptsSized(ms, cs)
  {
    hide EncodeAll, OptOk, OptBytes, Delimited;
    total, cs := |ms|, [];
    for i := 0 to |ms|
      invariant total + OptSum(ms[i..]) == |ms| + OptSum(ms)
      invariant |cs| == i && forall k | 0 <= k < i :: OptSized(ms[k], cs[k])
    {
      var c := ByteSizeOpt(ms[i]);
      assert ms[i..][0] == ms[i] && ms[i..][1..] == ms[i + 1..];
      total, cs := total + Delimited(c.self), cs + [c];
    }
    OptListLength(field, ms);
  }

  /** ByteSizeLong of Method: the repeated field first, then the singular ones. */
  method ByteSizeMethod(m: Method) returns (c: MethodSize)
    requires MethodOk(m)
    ensures MethodSized(m, c)
  {
    hide EncodeAll, Utf8, TextRecord, TextSize, FlagRecord, FlagSize, EnumRecord, EnumSize, AllOk, OptsOk, MethodBytes,
      OptList, OptsSized;
    var f := m.fields;
    var total, options := ByteSizeOpts(6, f.options);
    total := total + TextSize(f.name) + TextSize(f.requestTypeUrl) + TextSize(f.responseTypeUrl);
    total := total + FlagSize(f.requestStreaming) + FlagSize(f.responseStreaming) + EnumSize(f.syntax);
    c := MethodSize(total + |EncodeAll(m.unknown)|, options);
    MethodParts(m);
    TextLength(1, f.name);
    TextLength(2, f.requestTypeUrl);
    TextLength(4, f.responseTypeUrl);
    FlagLength(3, f.requestStreaming);
    FlagLength(5, f.responseStreaming);
    EnumLength(7, f.syntax);
  }

  function MethodSum(ms: seq<Method>): nat {
    if ms == [] then 0 else Delimited(|MethodBytes(ms[0])|) + MethodSum(ms[1..])
  }

  lemma {:induction false} MethodListLength(ms: seq<Method>)
    requires MethodsOk(ms)
    ensures |EncodeAll(MethodList(ms))| == |ms| + MethodSum(ms)
  {
    hide EncodeAll, MethodOk, MethodBytes, Delimited;
    if ms == [] {
      EncodeNothing();
    } else {
      MethodListLength(ms[1..]);
      EncodeAppend([Len(2, MethodBytes(ms[0]))], MethodList(ms[1..]));
      LenLength(2, MethodBytes(ms[0]));
    }
  }

  method ByteSizeMethods(ms: seq<Method>) returns (total: nat, cs: seq<MethodSize>)
    requires MethodsOk(ms)
    ensures total == |EncodeAll(MethodList(ms))| && MethodsSized(ms, cs)
  {
    hide EncodeAll, MethodOk, MethodBytes, Delimited, OptsSized;
    total, cs := |ms|, [];
    for i := 0 to |ms|
      invariant total + MethodSum(ms[i..]) == |ms| + MethodSum(ms)
      invariant |cs| == i && forall k | 0 <= k < i :: MethodSized(ms[k], cs[k])
    {
      var c := ByteSizeMethod(ms[i]);
      assert ms[i..][0] == ms[i] && ms[i..][1..] == ms[i + 1..];
      total, cs := total + Delimited(c.self), cs + [c];
    }
    MethodListLength(ms);
  }

  function MixinSum(ms: seq<Mixin>): nat {
    if ms == [] then 0 else Delimited(|MixinBytes(ms[0])|) + MixinSum(ms[1..])
  }

  lemma {:induction false} MixinListLength(ms: seq<Mixin>)
    requires MixinsOk(ms)
    ensures |EncodeAll(MixinList(ms))| == |ms| + MixinSum(ms)
  {
    hide EncodeAll, MixinOk, MixinBytes, Delimited;
    if ms == [] {
      EncodeNothing();
    } else {
      MixinListLength(ms[1..]);
      EncodeAppend([Len(6, MixinBytes(ms[0]))], MixinList(ms[1..]));
      LenLength(6, MixinBytes(ms[0]));
    }
  }

  method ByteSizeMixins(ms: seq<Mixin>) returns (total: nat, cs: seq<nat>)
    requires MixinsOk(ms)
    ensures total == |EncodeAll(MixinList(ms))| && MixinsSized(ms, cs)
  {
    hide EncodeAll, MixinOk, MixinBytes, Delimited;
    total, cs := |ms|, [];
    for i := 0 to |ms|
      invariant total + MixinSum(ms[i..]) == |ms| + MixinSum(ms)
      invariant |cs| == i && forall k | 0 <= k < i :: cs[k] == |MixinBytes(ms[k])|
    {
      var c := ByteSizeMixin(ms[i]);
      assert ms[i..][0] == ms[i] && ms[i..][1..] == ms[i + 1..];
      total, cs := total + Delimited(c), cs + [c];
    }
    MixinListLength(ms);
  }

  /** ByteSizeLong of Api, and what serialising right after it writes. */
  method ByteSizeApi(m: Api) returns (c: ApiSize)
    requires ApiOk(m)
    ensures ApiSized(m, c) && ApiShaped(m, c)
    ensures |EmitApi(m, c)| == c.self && EmitApi(m, c) == ApiBytes(m)
  {
    hide EncodeAll, Utf8, TextRecord, TextSize, EnumRecord, EnumSize, AllOk, OptsOk, MethodsOk, MixinsOk, SourceOk,
      ApiBytes, OptList, MethodList, MixinList, SubRecord, OptsSized, MethodsSized, MixinsSized, Delimited, EmitApi,
      SourceRecords, ApiShaped;
    var f := m.fields;
    var methods, methodSizes := ByteSizeMethods(f.methods);
    var options, optionSizes := ByteSizeOpts(3, f.options);
    var mixins, mixinSizes := ByteSizeMixins(f.mixins);
    var total := methods + options + mixins + TextSize(f.name) + TextSize(f.version);
    var source := 0;
    if f.source.has {
      source := ByteSizeSource(f.source.message.value);
      total := total + 1 + Delimited(source);
    }
    total := total + EnumSize(f.syntax) + |EncodeAll(m.unknown)|;
    c := ApiSize(total, methodSizes, optionSizes, source, mixinSizes);
    ApiParts(m);
    TextLength(1, f.name);
    TextLength(4, f.version);
    EnumLength(7, f.syntax);
    SubLength(5, f.source.has, SourceBytes(f.source));
    EmitApiIsBytes(m, c);
  }

  // ----- _InternalSerialize, appending to the target -----

  method WriteOpts(target: bytes, field: nat, ms: seq<Opt>, cs: seq<OptSize>) returns (out: bytes)
    requires |ms| == |cs|
    ensures out == target + EmitOpts(field, ms, cs)
  {
    hide EmitMessage, EmitOpt;
    out := target;
    for i := 0 to |ms|
      invariant out + EmitOpts(field, ms[i..], cs[i..]) == target + EmitOpts(field, ms, cs)
    {
      var next := EmitMessage(field, cs[i].self, EmitOpt(ms[i], cs[i]));
      assert ms[i..][1..] == ms[i + 1..] && cs[i..][1..] == cs[i + 1..];
      SeqAssoc(out, next, EmitOpts(field, ms[i + 1..], cs[i + 1..]));
      out := out + next;
    }
    assert out + [] == out;
  }

  method WriteMixins(target: bytes, ms: seq<Mixin>, cs: seq<nat>) returns (out: bytes)
    requires |ms| == |cs|
    ensures out == target + EmitMixins(ms, cs)
  {
    hide EmitMessage, MixinBytes;
    out := target;
    for i := 0 to |ms|
      invariant out + EmitMixins(ms[i..], cs[i..]) == target + EmitMixins(ms, cs)
    {
      var next := EmitMessage(6, cs[i], MixinBytes(ms[i]));
      assert ms[i..][1..] == ms[i + 1..] && cs[i..][1..] == cs[i + 1..];
      SeqAssoc(out, next, EmitMixins(ms[i + 1..], cs[i + 1..]));
      out := out + next;
    }
    assert out + [] == out;
  }

  method WriteMethod(target: bytes, m: Method, c: MethodSize) returns (out: bytes)
    requires |m.fields.options| == |c.options|
    ensures out == target + EmitMethod(m, c)
  {
    hide EncodeAll, TextRecord, FlagRecord, EnumRecord, EmitOpts;
    var f := m.fields;
    out := target + EncodeAll(TextRecord(1, f.name));
    out := out + EncodeAll(TextRecord(2, f.requestTypeUrl));
    out := out + EncodeAll(FlagRecord(3, f.requestStreaming));
    out := out + EncodeAll(TextRecord(4, f.responseTypeUrl));
    out := out + EncodeAll(FlagRecord(5, f.responseStreaming));
    out := WriteOpts(out, 6, f.options, c.options);
    out := out + EncodeAll(EnumRecord(7, f.syntax));
    out := out + EncodeAll(m.unknown);
    Eight(target, EncodeAll(TextRecord(1, f.name)), EncodeAll(TextRecord(2, f.requestTypeUrl)),
      EncodeAll(FlagRecord(3, f.requestStreaming)), EncodeAll(TextRecord(4, f.responseTypeUrl)),
      EncodeAll(FlagRecord(5, f.responseStreaming)), EmitOpts(6, f.options, c.options),
      EncodeAll(EnumRecord(7, f.syntax)), EncodeAll(m.unknown));
  }

  lemma Eight(t: bytes, a: bytes, b: bytes, c: bytes, d: bytes, e: bytes, f: bytes, g: bytes, h: bytes)
    ensures t + a + b + c + d + e + f + g + h == t + (a + (b + (c + (d + (e + (f + (g + h)))))))
  {
    SeqAssoc(t + a + b + c + d + e + f, g, h);
    SeqAssoc(t + a + b + c + d + e, f, g + h);
    SeqAssoc(t + a + b + c + d, e, f + (g + h));
    SeqAssoc(t + a + b + c, d, e + (f + (g + h)));
    SeqAssoc(t + a + b, c, d + (e + (f + (g + h))));
    SeqAssoc(t + a, b, c + (d + (e + (f + (g + h)))));
    SeqAssoc(t, a, b + (c + (d + (e + (f + (g + h))))));
  }

  method WriteMethods(target: bytes, ms: seq<Method>, cs: seq<MethodSize>) returns (out: bytes)
    requires Shaped(ms, cs)
    ensures out == target + EmitMethods(ms, cs)
  {
    hide EmitMethod;
    out := target;
    for i := 0 to |ms|
      invariant out + EmitMethods(ms[i..], cs[i..]) == target + EmitMethods(ms, cs)
    {
      var body := WriteMethod([], ms[i], cs[i]);
      assert [] + EmitMethod(ms[i], cs[i]) == EmitMethod(ms[i], cs[i]);
      var next := EmitMessage(2, cs[i].self, body);
      assert ms[i..][1..] == ms[i + 1..] && cs[i..][1..] == cs[i + 1..];
      SeqAssoc(out, next, EmitMethods(ms[i + 1..], cs[i + 1..]));
      out := out + next;
    }
    assert out + [] == out;
  }

  /** _InternalSerialize of Api. */
  method WriteApi(target: bytes, m: Api, c: ApiSize) returns (out: bytes)
    requires ApiShaped(m, c)
    ensures out == target + EmitApi(m, c)
  {
    hide EncodeAll, TextRecord, EnumRecord, EmitOpts, EmitMethods, EmitMixins, EmitMessage, SourceBytes;
    var f := m.fields;
    out := target + EncodeAll(TextRecord(1, f.name));
    out := WriteMethods(out, f.methods, c.methods);
    out := WriteOpts(out, 3, f.options, c.options);
    out := out + EncodeAll(TextRecord(4, f.version));
    var source := if f.source.has then EmitMessage(5, c.source, SourceBytes(f.source)) else [];
    out := out + source;
    out := WriteMixins(out, f.mixins, c.mixins);
    out := out + EncodeAll(EnumRecord(7, f.syntax));
    out := out + EncodeAll(m.unknown);
    Eight(target, EncodeAll(TextRecord(1, f.name)), EmitMethods(f.methods, c.methods), EmitOpts(3, f.options, c.options),
      EncodeAll(TextRecord(4, f.version)), source, EmitMixins(f.mixins, c.mixins), EncodeAll(EnumRecord(7, f.syntax)),
      EncodeAll(m.unknown));
  }
}
