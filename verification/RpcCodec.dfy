/** The length-prefixed RPC frames, the server's read/dispatch/reply loop and the client's
    side of one call. */
module RpcCodec {
  import opened Common

  const MAX_INT32: int := 0x7fff_ffff

  /** binary.Write(BigEndian, int32). */
  function Big(v: int): (b: bytes)
    requires -0x8000_0000 <= v <= MAX_INT32
    ensures |b| == 4
  {
    var u := if v < 0 then v + U32 else v;
    [u / 0x100_0000, u / 0x1_0000 % 256, u / 256 % 256, u % 256]
  }

  /** binary.Read(BigEndian, int32). */
  function ReadBig(b: bytes): (v: int)
    requires |b| >= 4
    ensures -0x8000_0000 <= v <= MAX_INT32
  {
    ToInt32((b[0] as int) * 0x100_0000 + (b[1] as int) * 0x1_0000 + (b[2] as int) * 256 + b[3] as int)
  }

  lemma Digits(u: int)
    ensures u / 0x100_0000 * 0x100_0000 + u / 0x1_0000 % 256 * 0x1_0000 + u / 256 % 256 * 256 + u % 256 == u
  {
    assert u / 256 / 256 == u / 0x1_0000;
    assert u / 0x1_0000 / 256 == u / 0x100_0000;
  }

  lemma ReadBigOfBig(v: int, rest: bytes)
    requires -0x8000_0000 <= v <= MAX_INT32
    ensures ReadBig(Big(v) + rest) == v
  {
    var b := Big(v) + rest;
    var u := if v < 0 then v + U32 else v;
    assert b[0] == u / 0x100_0000 && b[1] == u / 0x1_0000 % 256 && b[2] == u / 256 % 256 && b[3] == u % 256;
    Digits(u);
  }

  /** A request is (method name, payload), a response is (error text, payload); both are
      framed the same way. */
  datatype Pair = Pair(first: bytes, second: bytes)

  function Body(p: Pair): bytes {
    Big(ToInt32(|p.first|)) + p.first + Big(ToInt32(|p.second|)) + p.second
  }

  function Frame(p: Pair): bytes {
    Big(ToInt32(|Body(p)|)) + Body(p)
  }

  /** The frame's total length is representable as an int32. */
  predicate Fits(p: Pair) {
    8 + |p.first| + |p.second| <= MAX_INT32
  }

  /** What can become of reading one length-prefixed field of a buffer: `make` panics on a
      negative length, io.ReadFull fails on a short buffer. */
  datatype Field = Field(value: bytes, rest: bytes) | Short | Panics

  function ReadField(b: bytes): Field {
    if |b| < 4 then Short
    else
      var n := ReadBig(b);
      if n < 0 then Panics
      else if |b| - 4 < n then Short
      else Field(b[4..4 + n], b[4 + n..])
  }

  datatype Parse = Parsed(pair: Pair) | Malformed | ParsePanics

  /** Both fields of a frame; whatever follows the second one is ignored. */
  function ParseBody(b: bytes): Parse {
    match ReadField(b)
    case Short => Malformed
    case Panics => ParsePanics
    case Field(x, rest) =>
      match ReadField(rest)
      case Short => Malformed
      case Panics => ParsePanics
      case Field(y, _) => Parsed(Pair(x, y))
  }

  datatype Framed = Framed(body: bytes, rest: bytes) | Closed

  /** The total length and that many bytes, or the end of the connection. */
  function ReadFrame(b: bytes): (f: Framed)
    ensures f.Framed? ==> |f.rest| < |b|
  {
    if |b| < 4 then Closed
    else
      var n := ReadBig(b);
      if n <= 0 || |b| - 4 < n then Closed else Framed(b[4..4 + n], b[4 + n..])
  }

  // ----- round trips -----

  lemma ReadFieldOfField(x: bytes, rest: bytes)
    requires |x| <= MAX_INT32
    ensures ReadField(Big(ToInt32(|x|)) + x + rest) == Field(x, rest)
  {
    var b := Big(ToInt32(|x|)) + x + rest;
    assert b == Big(|x|) + (x + rest);
    ReadBigOfBig(|x|, x + rest);
    assert b[4..4 + |x|] == x;
    assert b[4 + |x|..] == rest;
  }

  /** A frame that fits is read back, and the stream is left at the next frame. */
  lemma ReadFrameOfFrame(p: Pair, rest: bytes)
    requires Fits(p)
    ensures ReadFrame(Frame(p) + rest) == Framed(Body(p), rest)
    ensures ParseBody(Body(p)) == Parsed(p)
  {
    var n := |Body(p)|;
    assert n == 8 + |p.first| + |p.second|;
    var b := Frame(p) + rest;
    assert b == Big(n) + (Body(p) + rest);
    ReadBigOfBig(n, Body(p) + rest);
    assert b[4..4 + n] == Body(p);
    assert b[4 + n..] == rest;
    var tail := Big(ToInt32(|p.second|)) + p.second;
    assert Body(p) == Big(ToInt32(|p.first|)) + p.first + tail;
    ReadFieldOfField(p.first, tail);
    assert tail == Big(ToInt32(|p.second|)) + p.second + [];
    ReadFieldOfField(p.second, []);
  }

  // ----- the server -----

  /** What a handler returns: a payload, and possibly an error with its text. */
  datatype Reply = Reply(payload: bytes, err: Option<bytes>)

  type Handlers<!H> = map<bytes, (H, bytes) -> (H, Reply)>

  function Ascii(s: string): bytes {
    seq(|s|, i requires 0 <= i < |s| => (s[i] as int) % 128)
  }

  /** Calling the registered handler directly, with no wire in between. `H` is whatever
      state the handlers share. */
  function Direct<H>(hs: Handlers<H>, h: H, req: Pair): (H, Reply) {
    if req.first in hs then hs[req.first](h, req.second)
    else (h, Reply([], Some(Ascii("no coordinator found for method: ") + req.first)))
  }

  /** The response frame: an absent error is sent as the empty text. */
  function Response(r: Reply): Pair {
    Pair(if r.err.Some? then r.err.value else [], r.payload)
  }

  datatype End = ConnectionClosed | ServerPanics

  datatype Served<H> = Served(h: H, output: bytes, end: End)

  datatype Incoming = Request(req: Pair, rest: bytes) | Stop(end: End)

  /** Reading one request off the connection. */
  function NextRequest(conn: bytes): (r: Incoming)
    ensures r.Request? ==> |r.rest| < |conn|
  {
    match ReadFrame(conn)
    case Closed => Stop(ConnectionClosed)
    case Framed(body, rest) =>
      match ParseBody(body)
      case Malformed => Stop(ConnectionClosed)
      case ParsePanics => Stop(ServerPanics)
      case Parsed(req) => Request(req, rest)
  }

  /** What the connection loop does with everything the client ever sends. */
  function Serve<H>(hs: Handlers<H>, h: H, input: bytes): Served<H>
    decreases |input|
  {
    match NextRequest(input)
    case Stop(end) => Served(h, [], end)
    case Request(req, rest) =>
      var called := Direct(hs, h, req);
      var more := Serve(hs, called.0, rest);
      Served(more.h, Frame(Response(called.1)) + more.output, more.end)
  }

  /** handleConnection. */
  method HandleConnection<H>(hs: Handlers<H>, start: H, input: bytes) returns (h: H, output: bytes, end: End)
    ensures Served(h, output, end) == Serve(hs, start, input)
  {
    h, output := start, [];
    var conn := input;
    var incoming := NextRequest(conn);
    ghost var spec := Serve(hs, start, input);
    while incoming.Request?
      invariant incoming == NextRequest(conn)
      invariant spec.h == Serve(hs, h, conn).h && spec.end == Serve(hs, h, conn).end
      invariant spec.output == output + Serve(hs, h, conn).output
      decreases |conn|
    {
      var called := Direct(hs, h, incoming.req);
      var response := Frame(Response(called.1));
      SeqAssoc(output, response, Serve(hs, called.0, incoming.rest).output);
      h, conn, output := called.0, incoming.rest, output + response;
      incoming := NextRequest(conn);
    }
    end := incoming.end;
  }

  function Frames(ps: seq<Pair>): bytes {
    if ps == [] then [] else Frame(ps[0]) + Frames(ps[1..])
  }

  /** The requests served one after the other by direct calls. */
  function DirectAll<H>(hs: Handlers<H>, h: H, reqs: seq<Pair>): (H, seq<Reply>) {
    if reqs == [] then (h, [])
    else
      var (h1, r) := Direct(hs, h, reqs[0]);
      var (h2, rs) := DirectAll(hs, h1, reqs[1..]);
      (h2, [r] + rs)
  }

  function Responses(rs: seq<Reply>): (ps: seq<Pair>)
    ensures |ps| == |rs|
  {
    seq(|rs|, i requires 0 <= i < |rs| => Response(rs[i]))
  }

  lemma NextOfFrame(p: Pair, rest: bytes)
    requires Fits(p)
    ensures NextRequest(Frame(p) + rest) == Request(p, rest)
  {
    ReadFrameOfFrame(p, rest);
  }

  lemma ResponsesCons(r: Reply, rs: seq<Reply>)
    ensures Frames(Responses([r] + rs)) == Frame(Response(r)) + Frames(Responses(rs))
  {
    var all := Responses([r] + rs);
    assert all[0] == Response(r);
    assert all[1..] == Responses(rs);
  }

  /** The loop over the concatenated frames of any list of requests makes exactly the
      handler calls of that list, in order, and writes one response frame for each. */
  lemma {:induction false} ServerRecoversRequests<H>(hs: Handlers<H>, h: H, reqs: seq<Pair>)
    requires forall r <- reqs :: Fits(r)
    ensures var (h', replies) := DirectAll(hs, h, reqs);
            |replies| == |reqs|
            && Serve(hs, h, Frames(reqs)) == Served(h', Frames(Responses(replies)), ConnectionClosed)
  {
    if reqs != [] {
      NextOfFrame(reqs[0], Frames(reqs[1..]));
      var (h1, r) := Direct(hs, h, reqs[0]);
      ServerRecoversRequests(hs, h1, reqs[1..]);
      ResponsesCons(r, DirectAll(hs, h1, reqs[1..]).1);
    }
  }

  // ----- the client -----

  /** What Call makes of a response: the payload handed to Unmarshal, the server's error
      text, or a connection that is given up. */
  datatype Result = Payload(payload: bytes) | AppError(text: bytes) | Broken | CallPanics

  function Decode(body: bytes): Result {
    match ParseBody(body)
    case Malformed => Broken
    case ParsePanics => CallPanics
    case Parsed(p) => if p.first != [] then AppError(p.first) else Payload(p.second)
  }

  /** What the caller of a direct handler call would see. */
  function Outcome(r: Reply): Result {
    if r.err.Some? then AppError(r.err.value) else Payload(r.payload)
  }

  /** Reading `n` responses off the connection, one per call. */
  function ReadReplies(n: nat, stream: bytes): (seq<Result>, bytes) {
    if n == 0 then ([], stream)
    else
      match ReadFrame(stream)
      case Closed => ([], stream)
      case Framed(body, rest) =>
        var (more, end) := ReadReplies(n - 1, rest);
        ([Decode(body)] + more, end)
  }

  /** The wire shows the caller of request `i` what a direct call of its handler would
      have returned, exactly when that handler did not fail with an empty text; a failure
      with an empty text arrives as a success. */
  lemma {:induction false} WireRefinesDirectCalls(replies: seq<Reply>)
    requires forall r <- replies :: Fits(Response(r))
    ensures var (results, end) := ReadReplies(|replies|, Frames(Responses(replies)));
            && end == [] && |results| == |replies|
            && (forall i | 0 <= i < |replies| ::
                  results[i] == Outcome(replies[i]) <==> replies[i].err != Some([]))
            && (forall i | 0 <= i < |replies| && replies[i].err == Some([]) ::
                  results[i] == Payload(replies[i].payload))
  {
    hide Frame, Body, ReadFrame, ParseBody, Responses;
    if replies != [] {
      var r, rest := Response(replies[0]), replies[1..];
      assert replies == [replies[0]] + rest;
      ResponsesCons(replies[0], rest);
      ReadFrameOfFrame(r, Frames(Responses(rest)));
      WireRefinesDirectCalls(rest);
    }
  }

  /** End to end: requests written to the connection, served by the loop and their
      responses read back give each caller what calling its handler directly would, but
      for an error with an empty text. */
  lemma CallsThroughTheWire<H>(hs: Handlers<H>, h: H, reqs: seq<Pair>)
    requires forall r <- reqs :: Fits(r)
    requires forall r <- DirectAll(hs, h, reqs).1 :: Fits(Response(r))
    ensures var direct := DirectAll(hs, h, reqs);
            var served := Serve(hs, h, Frames(reqs));
            var (results, end) := ReadReplies(|reqs|, served.output);
            && served.h == direct.0 && end == []
            && |results| == |reqs| == |direct.1|
            && (forall i | 0 <= i < |reqs| :: results[i] == Outcome(direct.1[i]) <==> direct.1[i].err != Some([]))
            && (forall i | 0 <= i < |reqs| && direct.1[i].err == Some([]) :: results[i] == Payload(direct.1[i].payload))
  {
    ServerRecoversRequests(hs, h, reqs);
    WireRefinesDirectCalls(DirectAll(hs, h, reqs).1);
  }

  // ----- the same without the server's own terms -----

  /** The handlers' state before request `i`, when `f` says what each method does. */
  function StateAt<H>(f: (H, bytes, bytes) -> (H, Reply), h: H, reqs: seq<Pair>, i: nat): H
    requires i <= |reqs|
  {
    if i == 0 then h
    else f(StateAt(f, h, reqs, i - 1), reqs[i - 1].first, reqs[i - 1].second).0
  }

  function ReplyAt<H>(f: (H, bytes, bytes) -> (H, Reply), h: H, reqs: seq<Pair>, i: nat): Reply
    requires i < |reqs|
  {
    f(StateAt(f, h, reqs, i), reqs[i].first, reqs[i].second).1
  }

  /** The registered handlers do what `f` says. */
  ghost predicate Computes<H(!new)>(hs: Handlers<H>, f: (H, bytes, bytes) -> (H, Reply), reqs: seq<Pair>) {
    forall i | 0 <= i < |reqs| ::
      reqs[i].first in hs && forall x, p :: hs[reqs[i].first](x, p) == f(x, reqs[i].first, p)
  }

  lemma {:induction false} StateAtShift<H>(f: (H, bytes, bytes) -> (H, Reply), h: H, reqs: seq<Pair>, i: nat)
    requires 0 < i <= |reqs|
    ensures StateAt(f, h, reqs, i) == StateAt(f, f(h, reqs[0].first, reqs[0].second).0, reqs[1..], i - 1)
  {
    if i > 1 {
      StateAtShift(f, h, reqs, i - 1);
    }
  }

  lemma {:induction false} DirectIsReplyAt<H(!new)>(
      hs: Handlers<H>, h: H, reqs: seq<Pair>, f: (H, bytes, bytes) -> (H, Reply))
    requires Computes(hs, f, reqs)
    ensures var (h', replies) := DirectAll(hs, h, reqs);
            && h' == StateAt(f, h, reqs, |reqs|) && |replies| == |reqs|
            && forall i | 0 <= i < |reqs| :: replies[i] == ReplyAt(f, h, reqs, i)
    decreases |reqs|
  {
    if reqs != [] {
      var h1 := f(h, reqs[0].first, reqs[0].second).0;
      assert reqs[0].first in hs && hs[reqs[0].first](h, reqs[0].second) == f(h, reqs[0].first, reqs[0].second);
      assert Direct(hs, h, reqs[0]) == f(h, reqs[0].first, reqs[0].second);
      assert Computes(hs, f, reqs[1..]);
      DirectIsReplyAt(hs, h1, reqs[1..], f);
      StateAtShift(f, h, reqs, |reqs|);
      forall i | 0 < i < |reqs| ensures ReplyAt(f, h, reqs, i) == ReplyAt(f, h1, reqs[1..], i - 1) {
        StateAtShift(f, h, reqs, i);
      }
    }
  }

  /** Every request reaches the handler registered for its method with its own payload and
      the state left by the requests before it, and every caller gets what that handler
      returned: its error text when it failed with one, and otherwise its payload. */
  lemma EveryRequestIsAnswered<H(!new)>(hs: Handlers<H>, h: H, reqs: seq<Pair>, f: (H, bytes, bytes) -> (H, Reply))
    requires (forall r <- reqs :: Fits(r)) && Computes(hs, f, reqs)
    requires forall i | 0 <= i < |reqs| :: Fits(Response(ReplyAt(f, h, reqs, i)))
    ensures var served := Serve(hs, h, Frames(reqs));
            var (results, end) := ReadReplies(|reqs|, served.output);
            && served.h == StateAt(f, h, reqs, |reqs|) && served.end == ConnectionClosed
            && end == [] && |results| == |reqs|
            && forall i | 0 <= i < |reqs| ::
                 var r := ReplyAt(f, h, reqs, i);
                 results[i] == if r.err.Some? && r.err.value != [] then AppError(r.err.value) else Payload(r.payload)
  {
    DirectIsReplyAt(hs, h, reqs, f);
    ServerRecoversRequests(hs, h, reqs);
    hide Serve, DirectAll, ReplyAt, StateAt, Fits, Response, Frames, Responses;
    CallsThroughTheWire(hs, h, reqs);
  }

  /** A method nobody registered: the caller gets an error that names it, and no handler's
      state changes. */
  lemma UnknownMethodIsRefused<H>(hs: Handlers<H>, h: H, req: Pair)
    requires Fits(req) && req.first !in hs && |req.first| + 41 <= MAX_INT32
    ensures var served := Serve(hs, h, Frames([req]));
            var (results, end) := ReadReplies(1, served.output);
            && served.h == h && end == [] && |results| == 1 && results[0] == AppError(Ascii("no coordinator found for method: ") + req.first)
  {
    var text := Ascii("no coordinator found for method: ") + req.first;
    assert [req][1..] == [] && DirectAll(hs, h, []) == (h, []);
    assert Direct(hs, h, req) == (h, Reply([], Some(text)));
    assert DirectAll(hs, h, [req]).0 == h && DirectAll(hs, h, [req]).1 == [Reply([], Some(text))] + [];
    CallsThroughTheWire(hs, h, [req]);
  }

  /** A frame cut short by the end of the connection has no effect: whatever was complete
      before it is served, and the connection is closed. */
  lemma {:induction false} CutFrameIsIgnored<H>(hs: Handlers<H>, h: H, reqs: seq<Pair>, p: Pair, n: nat)
    requires (forall r <- reqs :: Fits(r)) && Fits(p) && n < |Frame(p)|
    ensures Serve(hs, h, Frames(reqs) + Frame(p)[..n]) == Serve(hs, h, Frames(reqs))
    decreases |reqs|
  {
    hide Frame, NextRequest;
    var cut := Frame(p)[..n];
    if reqs == [] {
      assert Frames(reqs) + cut == cut;
      CutStops(p, n);
      NothingStops();
    } else {
      SeqAssoc(Frame(reqs[0]), Frames(reqs[1..]), cut);
      NextOfFrame(reqs[0], Frames(reqs[1..]) + cut);
      NextOfFrame(reqs[0], Frames(reqs[1..]));
      CutFrameIsIgnored(hs, Direct(hs, h, reqs[0]).0, reqs[1..], p, n);
    }
  }

  lemma CutStops(p: Pair, n: nat)
    requires Fits(p) && n < |Frame(p)|
    ensures NextRequest(Frame(p)[..n]) == Stop(ConnectionClosed)
  {
    hide Big;
    var cut := Frame(p)[..n];
    BodyLength(p);
    if n >= 4 {
      assert cut == Big(|Body(p)|) + Body(p)[..n - 4];
      ReadBigOfBig(|Body(p)|, Body(p)[..n - 4]);
    }
  }

  lemma NothingStops()
    ensures NextRequest([]) == Stop(ConnectionClosed)
  {
  }

  /** The bytes of a frame: lengths are four bytes, the most significant first. */
  lemma FrameBytes()
    ensures Frame(Pair([0x45], [1, 2])) == [0, 0, 0, 11, 0, 0, 0, 1, 0x45, 0, 0, 0, 2, 1, 2]
    ensures Big(0x0102_0304) == [1, 2, 3, 4] && Big(-2) == [255, 255, 255, 254]
  {
    assert Big(11) == [0, 0, 0, 11] && Big(1) == [0, 0, 0, 1] && Big(2) == [0, 0, 0, 2];
    assert Body(Pair([0x45], [1, 2])) == [0, 0, 0, 1, 0x45, 0, 0, 0, 2, 1, 2];
  }

  /** A frame is read back whole, with the stream left behind it, if and only if its length
      fits an int32. Beyond that the length wraps: to a negative number or zero and the
      frame is refused, or to a small positive one and the rest of the body is taken for
      further frames. */
  lemma FrameReadsBackIff(p: Pair, rest: bytes)
    ensures ReadFrame(Frame(p) + rest) == Framed(Body(p), rest) <==> Fits(p)
    ensures ReadFrame(Frame(p) + rest) == Closed <==> ToInt32(|Body(p)|) <= 0
    ensures ReadFrame(Frame(p) + rest).Framed? ==> |ReadFrame(Frame(p) + rest).body| == ToInt32(|Body(p)|)
  {
    var n := |Body(p)|;
    BodyLength(p);
    SeqAssoc(Big(ToInt32(n)), Body(p), rest);
    ReadBigOfBig(ToInt32(n), Body(p) + rest);
    if Fits(p) {
      ReadFrameOfFrame(p, rest);
    }
    WrapShortens(n);
  }

  lemma BodyLength(p: Pair)
    ensures |Body(p)| == 8 + |p.first| + |p.second|
  {
  }

  lemma WrapShortens(n: nat)
    ensures ToInt32(n) <= n && (ToInt32(n) == n <==> n <= MAX_INT32)
  {
  }
}
