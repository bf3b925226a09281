/** The RPC client's connection pools under any interleaving of calls. A step is one
    access to shared state: taking the mutex to look up a pool, one select on a pool
    channel, one read or write on a connection, or the whole of CloseAllConnections,
    which holds the mutex throughout. */
module RpcPool {
  import opened Common

  type Endpoint = string
  type Conn = nat
  type Call = nat

  /** Who answers for a connection; a history variable. */
  datatype Place = Pooled | Held(call: Call) | Shut

  /** A dialed connection: `sent` are the calls whose request frame has been written whole,
      `read` counts the response frames consumed whole, `partial` tells that some frame has
      been written or read in part. The server answers requests in order, one response
      frame for each, so response number `k` answers `sent[k]`. */
  datatype Link = Link(endpoint: Endpoint, closed: bool, sent: seq<Call>, read: nat, partial: bool, place: Place)

  /** Where a call stands; `got` is the request answered by the response it has read. */
  datatype Pc =
    | Start
    | GetLock(ep: Endpoint)
    | GetSelect(ep: Endpoint)
    | Marshal(ep: Endpoint, conn: Conn)
    | WriteLength(ep: Endpoint, conn: Conn)
    | WriteFrame(ep: Endpoint, conn: Conn)
    | ReadLength(ep: Endpoint, conn: Conn)
    | ReadBody(ep: Endpoint, conn: Conn)
    | GiveLock(ep: Endpoint, conn: Conn, got: Option<Call>)
    | GiveSelect(ep: Endpoint, conn: Conn, got: Option<Call>)
    | Drop(ep: Endpoint, conn: Conn, got: Option<Call>)
    | Done(got: Option<Call>)

  /** `pools[ep]` is the content of the buffered channel for endpoint `ep`, oldest first. */
  datatype State = State(pools: map<Endpoint, seq<Conn>>, links: seq<Link>, calls: map<Call, Pc>, max: nat)

  predicate Init(s: State) {
    s.pools == map[] && s.links == [] && (forall k <- s.calls :: s.calls[k] == Start) && s.max >= 1
  }

  /** How the environment answers a step: the endpoint picked for a call, success, an error,
      or a response frame that was read whole but does not decode. */
  datatype Choice = Pick(ep: Endpoint) | Ok | Fail | Garbled

  predicate HasConn(p: Pc) {
    p.Marshal? || p.WriteLength? || p.WriteFrame? || p.ReadLength? || p.ReadBody?
    || p.GiveLock? || p.GiveSelect? || p.Drop?
  }

  /** The step can be taken. A response can only be read once one is due; a pool channel
      read under the mutex is used before CloseAllConnections deletes it. */
  predicate Enabled(s: State, k: Call, ch: Choice) {
    && k in s.calls
    && var p := s.calls[k];
       && !p.Done?
       && (p.Start? ==> ch.Pick? || ch.Fail?)
       && (p.GetSelect? || p.GiveSelect? ==> p.ep in s.pools)
       && (HasConn(p) ==> p.conn < |s.links|)
       && (p.ReadLength? || p.ReadBody? ==> ch.Fail? || s.links[p.conn].read < |s.links[p.conn].sent|)
  }

  function Goto(s: State, k: Call, p: Pc): State {
    s.(calls := s.calls[k := p])
  }

  function Put(s: State, k: Call, c: Conn, l: Link, p: Pc): State
    requires c < |s.links|
  {
    s.(links := s.links[c := l], calls := s.calls[k := p])
  }

  function Close(s: State, k: Call, c: Conn, got: Option<Call>): State
    requires c < |s.links|
  {
    Put(s, k, c, s.links[c].(closed := true, place := Shut), Done(got))
  }

  /** One step of call `k`. */
  function Step(s: State, k: Call, ch: Choice): State
    requires Enabled(s, k, ch)
  {
    match s.calls[k]
    case Start => if ch.Pick? then Goto(s, k, GetLock(ch.ep)) else Goto(s, k, Done(None))
    case GetLock(ep) =>
      Goto(if ep in s.pools then s else s.(pools := s.pools[ep := []]), k, GetSelect(ep))
    case GetSelect(ep) => Obtain(s, k, ep, ch)
    case Marshal(ep, c) =>
      if ch.Ok? then Goto(s, k, WriteLength(ep, c)) else Goto(s, k, GiveLock(ep, c, None))
    case WriteLength(ep, c) =>
      Put(s, k, c, s.links[c].(partial := true), if ch.Ok? then WriteFrame(ep, c) else Drop(ep, c, None))
    case WriteFrame(ep, c) =>
      if ch.Ok? then
        Put(s, k, c, s.links[c].(partial := false, sent := s.links[c].sent + [k]), ReadLength(ep, c))
      else
        Goto(s, k, Drop(ep, c, None))
    case ReadLength(ep, c) =>
      Put(s, k, c, s.links[c].(partial := true), if ch.Ok? then ReadBody(ep, c) else Drop(ep, c, None))
    case ReadBody(ep, c) =>
      if ch.Fail? then Goto(s, k, Drop(ep, c, None))
      else
        var l := s.links[c];
        var got := Some(l.sent[l.read]);
        Put(s, k, c, l.(partial := false, read := l.read + 1),
            if ch.Garbled? then Drop(ep, c, got) else GiveLock(ep, c, got))
    case GiveLock(ep, c, got) =>
      if ep in s.pools then Goto(s, k, GiveSelect(ep, c, got)) else Close(s, k, c, got)
    case GiveSelect(ep, c, got) =>
      if |s.pools[ep]| < s.max then
        Put(s, k, c, s.links[c].(place := Pooled), Done(got)).(pools := s.pools[ep := s.pools[ep] + [c]])
      else
        Close(s, k, c, got)
    case Drop(ep, c, got) => Close(s, k, c, got)
  }

  /** The select of getConnection: an idle connection if there is one, else dial. */
  function Obtain(s: State, k: Call, ep: Endpoint, ch: Choice): State
    requires ep in s.pools
  {
    if s.pools[ep] != [] && s.pools[ep][0] < |s.links| then
      var c := s.pools[ep][0];
      Put(s, k, c, s.links[c].(place := Held(k)), Marshal(ep, c)).(pools := s.pools[ep := s.pools[ep][1..]])
    else if ch.Ok? then
      Goto(s, k, Marshal(ep, |s.links|)).(links := s.links + [Link(ep, false, [], 0, false, Held(k))])
    else
      Goto(s, k, Done(None))
  }

  /** CloseAllConnections: no call is between reading a pool and using its channel. */
  predicate MayCloseAll(s: State) {
    forall k <- s.calls :: !s.calls[k].GetSelect? && !s.calls[k].GiveSelect?
  }

  function CloseAll(s: State): State {
    s.(pools := map[],
       links := seq(|s.links|, c requires 0 <= c < |s.links| =>
                  var l := s.links[c];
                  if exists ep <- s.pools :: c in s.pools[ep] then l.(closed := true, place := Shut) else l))
  }

  datatype Action = DoStep(k: Call, ch: Choice) | DoCloseAll

  predicate Next(s: State, act: Action, s': State) {
    match act
    case DoStep(k, ch) => Enabled(s, k, ch) && s' == Step(s, k, ch)
    case DoCloseAll => MayCloseAll(s) && s' == CloseAll(s)
  }

  // ----- invariant -----

  /** At a frame boundary, with every response consumed. */
  predicate Clean(l: Link) {
    !l.partial && l.read == |l.sent|
  }

  predicate Distinct<T(==)>(q: seq<T>) {
    forall i, j | 0 <= i < j < |q| :: q[i] != q[j]
  }

  predicate PoolOk(s: State, ep: Endpoint)
    requires ep in s.pools
  {
    && |s.pools[ep]| <= s.max && Distinct(s.pools[ep])
    && (forall c <- s.pools[ep] :: IdleOk(s, ep, c))
  }

  predicate IdleOk(s: State, ep: Endpoint, c: Conn) {
    c < |s.links| && s.links[c].endpoint == ep && s.links[c].place == Pooled && Clean(s.links[c])
  }

  predicate LinkOk(s: State, c: Conn)
    requires c < |s.links|
  {
    var l := s.links[c];
    && (l.closed <==> l.place == Shut)
    && (l.place == Pooled ==> l.endpoint in s.pools && c in s.pools[l.endpoint])
    && (l.place.Held? ==> l.place.call in s.calls && HasConn(s.calls[l.place.call]) && s.calls[l.place.call].conn == c)
  }

  predicate PcOk(s: State, k: Call)
    requires k in s.calls
  {
    var p := s.calls[k];
    && (p.GetSelect? || p.GiveSelect? ==> p.ep in s.pools)
    && (HasConn(p) ==>
          && p.conn < |s.links|
          && var l := s.links[p.conn];
             && l.endpoint == p.ep && l.place == Held(k)
             && (p.Marshal? || p.WriteLength? || p.GiveLock? || p.GiveSelect? ==> Clean(l))
             && (p.WriteFrame? ==> l.read == |l.sent|)
             && (p.ReadLength? ==> !l.partial)
             && (p.ReadLength? || p.ReadBody? ==> l.read + 1 == |l.sent| && l.sent[l.read] == k))
    && ((p.GiveLock? || p.GiveSelect? || p.Drop? || p.Done?) && p.got.Some? ==> p.got.value == k)
  }

  predicate Inv(s: State) {
    && (forall ep <- s.pools :: PoolOk(s, ep))
    && (forall c | 0 <= c < |s.links| :: LinkOk(s, c))
    && (forall k <- s.calls :: PcOk(s, k))
  }

  // ----- every step keeps the invariant -----

  /** A step of call `k` that touches at most connection `c`, which is `k`'s before or
      after the step, and not a pool that another call is about to use. */
  predicate Touches(s: State, s': State, k: Call, c: Conn) {
    && k in s.calls && k in s'.calls && s'.calls == s.calls[k := s'.calls[k]] && s'.max == s.max
    && |s.links| <= |s'.links|
    && (forall d | 0 <= d < |s.links| && d != c :: s'.links[d] == s.links[d])
    && (forall ep <- s.pools :: ep in s'.pools)
  }

  lemma OtherCallsOk(s: State, s': State, k: Call, c: Conn)
    requires Touches(s, s', k, c) && (forall j <- s.calls :: PcOk(s, j))
    requires c < |s.links| ==> s.links[c].place == Held(k) || s.links[c].place == Pooled
    ensures forall j | j in s'.calls && j != k :: PcOk(s', j)
  {
    forall j | j in s'.calls && j != k ensures PcOk(s', j) { assert PcOk(s, j); }
  }

  lemma PoolsUntouched(s: State, s': State, k: Call, c: Conn)
    requires Touches(s, s', k, c) && (forall ep <- s.pools :: PoolOk(s, ep))
    requires c < |s.links| ==> s.links[c].place != Pooled
    requires forall ep <- s'.pools :: if ep in s.pools then s'.pools[ep] == s.pools[ep] else s'.pools[ep] == []
    ensures forall ep <- s'.pools :: PoolOk(s', ep)
  {
    forall ep <- s'.pools ensures PoolOk(s', ep) {
      if ep in s.pools {
        assert PoolOk(s, ep);
        forall d <- s'.pools[ep] ensures IdleOk(s', ep, d) { assert IdleOk(s, ep, d); }
      }
    }
  }

  /** Places other than `c`'s are still right. */
  lemma OtherLinksOk(s: State, s': State, k: Call, c: Conn)
    requires Touches(s, s', k, c) && (forall d | 0 <= d < |s.links| :: LinkOk(s, d))
    requires HasConn(s.calls[k]) ==> s.calls[k].conn == c
    requires forall ep, d | ep in s.pools && d in s.pools[ep] && d != c :: ep in s'.pools && d in s'.pools[ep]
    ensures forall d | 0 <= d < |s.links| && d != c :: LinkOk(s', d)
  {
    forall d | 0 <= d < |s.links| && d != c ensures LinkOk(s', d) { assert LinkOk(s, d); }
  }

  /** A step that changes the link a call holds, and goes on holding it. */
  lemma HoldStep(s: State, s': State, k: Call)
    requires Inv(s) && k in s.calls && HasConn(s.calls[k])
    requires Touches(s, s', k, s.calls[k].conn) && |s'.links| == |s.links| && s'.pools == s.pools
    requires HasConn(s'.calls[k]) && s'.calls[k].conn == s.calls[k].conn && PcOk(s', k)
    requires var c := s.calls[k].conn; c < |s.links| && s'.links[c].closed == s.links[c].closed
    ensures Inv(s')
  {
    var c := s.calls[k].conn;
    assert PcOk(s, k);
    assert LinkOk(s, c);
    OtherCallsOk(s, s', k, c);
    PoolsUntouched(s, s', k, c);
    OtherLinksOk(s, s', k, c);
    assert LinkOk(s', c);
  }

  lemma UseStep(s: State, k: Call, ch: Choice)
    requires Inv(s) && Enabled(s, k, ch)
    requires var p := s.calls[k];
             p.Marshal? || p.WriteLength? || p.WriteFrame? || p.ReadLength? || p.ReadBody?
    ensures Inv(Step(s, k, ch))
  {
    var s' := Step(s, k, ch);
    assert PcOk(s, k);
    assert PcOk(s', k);
    HoldStep(s, s', k);
  }

  lemma CloseStep(s: State, k: Call, got: Option<Call>)
    requires Inv(s) && k in s.calls && HasConn(s.calls[k]) && s.calls[k].conn < |s.links|
    requires got.Some? ==> got.value == k
    ensures Inv(Close(s, k, s.calls[k].conn, got))
  {
    var c := s.calls[k].conn;
    var s' := Close(s, k, c, got);
    assert PcOk(s, k);
    assert LinkOk(s, c);
    OtherCallsOk(s, s', k, c);
    PoolsUntouched(s, s', k, c);
    OtherLinksOk(s, s', k, c);
    assert LinkOk(s', c);
    assert PcOk(s', k);
  }

  lemma GiveBackStep(s: State, k: Call, ch: Choice)
    requires Inv(s) && Enabled(s, k, ch) && s.calls[k].GiveSelect? && |s.pools[s.calls[k].ep]| < s.max
    ensures Inv(Step(s, k, ch))
  {
    var s' := Step(s, k, ch);
    var ep, c := s.calls[k].ep, s.calls[k].conn;
    assert PcOk(s, k);
    assert LinkOk(s, c);
    OtherCallsOk(s, s', k, c);
    assert PoolOk(s, ep);
    assert c in s.pools[ep] ==> IdleOk(s, ep, c);
    forall e <- s'.pools ensures PoolOk(s', e) {
      assert PoolOk(s, e);
      forall d <- s'.pools[e] ensures IdleOk(s', e, d) {
        assert d in s.pools[e] ==> IdleOk(s, e, d);
      }
    }
    OtherLinksOk(s, s', k, c);
    assert LinkOk(s', c);
    assert PcOk(s', k);
  }

  lemma TakeStep(s: State, k: Call, ch: Choice)
    requires Inv(s) && Enabled(s, k, ch) && s.calls[k].GetSelect? && s.pools[s.calls[k].ep] != []
    ensures Inv(Step(s, k, ch))
  {
    var s' := Step(s, k, ch);
    var ep := s.calls[k].ep;
    var c := s.pools[ep][0];
    assert PoolOk(s, ep) && IdleOk(s, ep, c);
    assert LinkOk(s, c);
    OtherCallsOk(s, s', k, c);
    forall e <- s'.pools ensures PoolOk(s', e) {
      assert PoolOk(s, e);
      forall d <- s'.pools[e] ensures IdleOk(s', e, d) {
        assert d in s.pools[e];
        assert IdleOk(s, e, d);
        assert d != c;
      }
    }
    OtherLinksOk(s, s', k, c);
    assert LinkOk(s', c);
    assert PcOk(s', k);
  }

  lemma DialStep(s: State, k: Call, ch: Choice)
    requires Inv(s) && Enabled(s, k, ch) && s.calls[k].GetSelect? && s.pools[s.calls[k].ep] == []
    ensures Inv(Step(s, k, ch))
  {
    var s' := Step(s, k, ch);
    var c := |s.links|;
    OtherCallsOk(s, s', k, c);
    PoolsUntouched(s, s', k, c);
    OtherLinksOk(s, s', k, c);
    assert c < |s'.links| ==> LinkOk(s', c);
    assert PcOk(s', k);
  }

  /** Picking an endpoint, and the two accesses under the mutex. */
  lemma LockStep(s: State, k: Call, ch: Choice)
    requires Inv(s) && Enabled(s, k, ch)
    requires s.calls[k].Start? || s.calls[k].GetLock?
             || (s.calls[k].GiveLock? && s.calls[k].ep in s.pools)
    ensures Inv(Step(s, k, ch))
  {
    var s' := Step(s, k, ch);
    assert PcOk(s, k);
    if s.calls[k].GiveLock? {
      assert PcOk(s', k);
      HoldStep(s, s', k);
    } else {
      var c := |s.links|;
      OtherCallsOk(s, s', k, c);
      PoolsUntouched(s, s', k, c);
      OtherLinksOk(s, s', k, c);
      assert PcOk(s', k);
    }
  }

  lemma StepInv(s: State, k: Call, ch: Choice)
    requires Inv(s) && Enabled(s, k, ch)
    ensures Inv(Step(s, k, ch))
  {
    var p := s.calls[k];
    assert PcOk(s, k);
    if p.Start? || p.GetLock? || (p.GiveLock? && p.ep in s.pools) {
      LockStep(s, k, ch);
    } else if p.GetSelect? {
      if s.pools[p.ep] == [] { DialStep(s, k, ch); } else { TakeStep(s, k, ch); }
    } else if p.GiveSelect? && |s.pools[p.ep]| < s.max {
      GiveBackStep(s, k, ch);
    } else if p.GiveLock? || p.GiveSelect? || p.Drop? {
      CloseStep(s, k, p.got);
    } else {
      UseStep(s, k, ch);
    }
  }

  lemma CloseAllInv(s: State)
    requires Inv(s) && MayCloseAll(s)
    ensures Inv(CloseAll(s))
  {
    var s' := CloseAll(s);
    forall c | 0 <= c < |s'.links| ensures LinkOk(s', c) {
      assert LinkOk(s, c);
      if exists ep <- s.pools :: c in s.pools[ep] {
        var ep :| ep in s.pools && c in s.pools[ep];
        assert PoolOk(s, ep) && IdleOk(s, ep, c);
      }
    }
    forall k <- s'.calls ensures PcOk(s', k) {
      assert PcOk(s, k);
      if HasConn(s.calls[k]) {
        var c := s.calls[k].conn;
        forall ep | ep in s.pools ensures c !in s.pools[ep] {
          assert PoolOk(s, ep);
          assert c in s.pools[ep] ==> IdleOk(s, ep, c);
        }
      }
    }
  }

  // ----- runs -----

  ghost predicate IsRun(run: seq<State>, acts: seq<Action>) {
    && |run| == |acts| + 1 && Init(run[0])
    && (forall i | 0 <= i < |acts| :: Next(run[i], acts[i], run[i + 1]))
  }

  lemma {:induction false} RunInv(run: seq<State>, acts: seq<Action>, i: nat)
    requires IsRun(run, acts) && i < |run|
    ensures Inv(run[i])
  {
    if i > 0 {
      RunInv(run, acts, i - 1);
      assert Next(run[i - 1], acts[i - 1], run[i - 1 + 1]);
      match acts[i - 1]
      case DoStep(k, ch) => StepInv(run[i - 1], k, ch);
      case DoCloseAll => CloseAllInv(run[i - 1]);
    }
  }

  /** The connection lies idle at position `i` of the pool of its own endpoint, and at no
      other position of any pool. */
  predicate IdleAt(s: State, c: Conn, i: nat)
    requires c < |s.links|
  {
    var ep := s.links[c].endpoint;
    && ep in s.pools && i < |s.pools[ep]| && s.pools[ep][i] == c
    && (forall e, j | e in s.pools && 0 <= j < |s.pools[e]| && s.pools[e][j] == c :: e == ep && j == i)
  }

  predicate InNoPool(s: State, c: Conn) {
    forall e <- s.pools :: c !in s.pools[e]
  }

  predicate HeldBy(s: State, c: Conn, k: Call) {
    k in s.calls && HasConn(s.calls[k]) && s.calls[k].conn == c
  }

  /** In every state every dialed connection is in exactly one place: idle once in its own
      endpoint's pool, held by exactly one call, or closed. */
  lemma ExactlyOnePlace(run: seq<State>, acts: seq<Action>, n: nat, c: Conn)
    requires IsRun(run, acts) && n < |run| && c < |run[n].links|
    ensures var s := run[n];
            var nobody := forall k <- s.calls :: !HeldBy(s, c, k);
            || ((exists i: nat :: IdleAt(s, c, i)) && nobody && !s.links[c].closed)
            || (InNoPool(s, c) && !s.links[c].closed
                && exists k :: HeldBy(s, c, k) && forall j <- s.calls :: HeldBy(s, c, j) ==> j == k)
            || (InNoPool(s, c) && nobody && s.links[c].closed)
  {
    var s := run[n];
    RunInv(run, acts, n);
    assert LinkOk(s, c);
    forall j | j in s.calls && HeldBy(s, c, j) ensures s.links[c].place == Held(j) { assert PcOk(s, j); }
    forall e | e in s.pools && c in s.pools[e] ensures s.links[c].place == Pooled && e == s.links[c].endpoint {
      assert PoolOk(s, e) && IdleOk(s, e, c);
    }
    if s.links[c].place == Pooled {
      var ep := s.links[c].endpoint;
      assert PoolOk(s, ep);
      var i: nat :| i < |s.pools[ep]| && s.pools[ep][i] == c;
      assert IdleAt(s, c, i);
    } else if s.links[c].place.Held? {
      assert HeldBy(s, c, s.links[c].place.call);
    }
  }

  /** Pools never outgrow their capacity, and what is idle is at a frame boundary with as
      many responses consumed as requests sent. */
  lemma IdleConnectionsAreClean(run: seq<State>, acts: seq<Action>, n: nat, ep: Endpoint)
    requires IsRun(run, acts) && n < |run| && ep in run[n].pools
    ensures var s := run[n];
            && |s.pools[ep]| <= s.max
            && (forall c <- s.pools[ep] :: c < |s.links| && !s.links[c].closed
                                           && !s.links[c].partial && s.links[c].read == |s.links[c].sent|)
  {
    var s := run[n];
    RunInv(run, acts, n);
    assert PoolOk(s, ep);
    forall c <- s.pools[ep]
      ensures c < |s.links| && !s.links[c].closed && !s.links[c].partial && s.links[c].read == |s.links[c].sent|
    {
      assert IdleOk(s, ep, c);
      assert LinkOk(s, c);
    }
  }

  /** No call ever reads the response to another call's request. */
  lemma ResponsesReachTheirCallers(run: seq<State>, acts: seq<Action>, n: nat, k: Call)
    requires IsRun(run, acts) && n < |run| && k in run[n].calls
    requires var p := run[n].calls[k];
             (p.GiveLock? || p.GiveSelect? || p.Drop? || p.Done?) && p.got.Some?
    ensures run[n].calls[k].got == Some(k)
  {
    RunInv(run, acts, n);
    assert PcOk(run[n], k);
  }

  /** A connection is read, written, returned or closed only while it is open: no use after
      close and no second close. */
  lemma NoUseAfterClose(run: seq<State>, acts: seq<Action>, n: nat, k: Call)
    requires IsRun(run, acts) && n < |run| && k in run[n].calls && HasConn(run[n].calls[k])
    ensures run[n].calls[k].conn < |run[n].links| && !run[n].links[run[n].calls[k].conn].closed
  {
    RunInv(run, acts, n);
    assert PcOk(run[n], k);
    assert LinkOk(run[n], run[n].calls[k].conn);
  }

  // ----- what a call comes back with -----

  /** The call has its response, and keeps it. */
  predicate Responded(s: State, k: Call) {
    k in s.calls
    && var p := s.calls[k]; (p.GiveLock? || p.GiveSelect? || p.Drop? || p.Done?) && p.got == Some(k)
  }

  /** The response to `k` has been read whole from connection `c`, as number `i`. */
  predicate ConsumedAt(s: State, k: Call, c: Conn, i: nat) {
    c < |s.links| && i < s.links[c].read && i < |s.links[c].sent| && s.links[c].sent[i] == k
  }

  ghost predicate Consumed(s: State, k: Call) {
    exists c: nat, i: nat :: ConsumedAt(s, k, c, i)
  }

  /** Call `k` reads the body of its response, whether or not it then decodes. */
  predicate ReadsBody(s: State, k: Call, ch: Choice) {
    k in s.calls && s.calls[k].ReadBody? && !ch.Fail?
  }

  lemma RespondedStep(s: State, k: Call, ch: Choice, j: Call)
    requires Inv(s) && Enabled(s, k, ch)
    ensures Responded(Step(s, k, ch), j) <==> Responded(s, j) || (j == k && ReadsBody(s, k, ch))
  {
    assert PcOk(s, k);
  }

  /** No more responses are read than requests were sent. */
  predicate ReadWithinSent(s: State, c: Conn)
    requires c < |s.links|
  {
    s.links[c].read <= |s.links[c].sent|
  }

  predicate Bounded(s: State) {
    forall c | 0 <= c < |s.links| :: ReadWithinSent(s, c)
  }

  /** A step changes nothing about what was consumed but for the body it reads. */
  lemma LinksStep(s: State, k: Call, ch: Choice, c: Conn)
    requires Inv(s) && Bounded(s) && Enabled(s, k, ch)
    ensures |s.links| <= |Step(s, k, ch).links|
    ensures c < |Step(s, k, ch).links| ==>
            var l := Step(s, k, ch).links[c];
            if c >= |s.links| then l.read == 0
            else if ReadsBody(s, k, ch) && s.calls[k].conn == c then
              && l.sent == s.links[c].sent && l.read == s.links[c].read + 1
              && s.links[c].read < |l.sent| && l.sent[s.links[c].read] == k
            else l.read == s.links[c].read && s.links[c].sent <= l.sent
  {
    assert PcOk(s, k);
  }

  lemma BoundedStep(s: State, k: Call, ch: Choice)
    requires Inv(s) && Bounded(s) && Enabled(s, k, ch)
    ensures Bounded(Step(s, k, ch))
  {
    hide Inv, Enabled, Step;
    var s' := Step(s, k, ch);
    forall c | 0 <= c < |s'.links| ensures ReadWithinSent(s', c) {
      LinksStep(s, k, ch, c);
      assert c < |s.links| ==> ReadWithinSent(s, c);
    }
  }

  lemma ConsumedBefore(s: State, k: Call, ch: Choice, j: Call, c: Conn, i: nat)
    requires Inv(s) && Bounded(s) && Enabled(s, k, ch) && ConsumedAt(Step(s, k, ch), j, c, i)
    ensures ConsumedAt(s, j, c, i) || (j == k && ReadsBody(s, k, ch))
  {
    hide Inv, Enabled, Step;
    LinksStep(s, k, ch, c);
    assert c < |s.links| ==> ReadWithinSent(s, c);
  }

  lemma ConsumedStep(s: State, k: Call, ch: Choice, j: Call)
    requires Inv(s) && Bounded(s) && Enabled(s, k, ch)
    ensures Consumed(Step(s, k, ch), j) <==> Consumed(s, j) || (j == k && ReadsBody(s, k, ch))
  {
    var s' := Step(s, k, ch);
    assert PcOk(s, k);
    hide Inv, Enabled, Step, Bounded;
    if Consumed(s, j) {
      var c: nat, i: nat :| ConsumedAt(s, j, c, i);
      LinksStep(s, k, ch, c);
      assert ConsumedAt(s', j, c, i);
    }
    if j == k && ReadsBody(s, k, ch) {
      var c := s.calls[k].conn;
      LinksStep(s, k, ch, c);
      assert ConsumedAt(s', k, c, s.links[c].read);
    }
    if Consumed(s', j) {
      var c: nat, i: nat :| ConsumedAt(s', j, c, i);
      ConsumedBefore(s, k, ch, j, c, i);
    }
  }

  lemma CloseAllConsumes(s: State, j: Call)
    requires Bounded(s)
    ensures Bounded(CloseAll(s)) && (Consumed(CloseAll(s), j) <==> Consumed(s, j))
    ensures Responded(CloseAll(s), j) <==> Responded(s, j)
  {
    var s' := CloseAll(s);
    forall c | 0 <= c < |s'.links| ensures ReadWithinSent(s', c) { assert ReadWithinSent(s, c); }
    if Consumed(s, j) {
      var c: nat, i: nat :| ConsumedAt(s, j, c, i);
      assert ConsumedAt(s', j, c, i);
    }
    if Consumed(s', j) {
      var c: nat, i: nat :| ConsumedAt(s', j, c, i);
      assert ConsumedAt(s, j, c, i);
    }
  }

  /** In every state of every run a call has its response exactly when its response has been
      read whole from some connection: none is lost on the way to the caller, and a call
      that ends without one has consumed none. */
  lemma {:induction false} ResponseExactlyWhenRead(run: seq<State>, acts: seq<Action>, n: nat, k: Call)
    requires IsRun(run, acts) && n < |run|
    ensures Bounded(run[n]) && (Responded(run[n], k) <==> Consumed(run[n], k))
  {
    if n > 0 {
      var s := run[n - 1];
      ResponseExactlyWhenRead(run, acts, n - 1, k);
      RunInv(run, acts, n - 1);
      assert Next(s, acts[n - 1], run[n - 1 + 1]);
      hide Inv, Step, Enabled, Responded, Consumed, CloseAll, MayCloseAll, Bounded, ReadsBody;
      match acts[n - 1]
      case DoStep(c, ch) =>
        BoundedStep(s, c, ch);
        RespondedStep(s, c, ch, k);
        ConsumedStep(s, c, ch, k);
      case DoCloseAll => CloseAllConsumes(s, k);
    }
  }

  lemma RespondedNext(s: State, act: Action, s': State, k: Call)
    requires Inv(s) && Next(s, act, s')
    requires Responded(s, k) || (act.DoStep? && act.k == k && ReadsBody(s, k, act.ch))
    ensures Responded(s', k)
  {
    hide Inv, Step, Enabled;
    match act
    case DoStep(j, c) => RespondedStep(s, j, c, k);
    case DoCloseAll =>
  }

  lemma RunNext(run: seq<State>, acts: seq<Action>, i: nat)
    requires IsRun(run, acts) && i < |acts|
    ensures |run| == |acts| + 1 && Inv(run[i]) && Next(run[i], acts[i], run[i + 1])
  {
    hide Next, Inv, Init;
    RunInv(run, acts, i);
  }

  /** Once a call has read the body of its response it has that response in every later
      state. */
  lemma {:induction false} ResponseIsKept(run: seq<State>, acts: seq<Action>, i: nat, n: nat, k: Call, ch: Choice)
    requires IsRun(run, acts) && i < |acts| && i < n < |run|
    requires acts[i] == DoStep(k, ch) && ReadsBody(run[i], k, ch)
    ensures Responded(run[n], k)
  {
    hide Inv, Next, Init, Responded, ReadsBody;
    RunNext(run, acts, n - 1);
    if n - 1 > i {
      ResponseIsKept(run, acts, i, n - 1, k, ch);
    }
    RespondedNext(run[n - 1], acts[n - 1], run[n], k);
  }

  // ----- where connections come from and go -----

  /** A connection is dialed exactly when the pool of the endpoint has none idle, and
      otherwise the one idle longest is taken. */
  lemma DialsOnlyWithoutIdle(s: State, k: Call, ch: Choice)
    requires Inv(s) && Enabled(s, k, ch)
    ensures var s' := Step(s, k, ch);
            && (|s'.links| > |s.links| <==> s.calls[k].GetSelect? && s.pools[s.calls[k].ep] == [] && ch.Ok?)
            && (s.calls[k].GetSelect? && s.pools[s.calls[k].ep] != [] ==>
                  && HeldBy(s', s.pools[s.calls[k].ep][0], k)
                  && s'.pools[s.calls[k].ep] == s.pools[s.calls[k].ep][1..])
            && (s.calls[k].GetSelect? && s.pools[s.calls[k].ep] == [] && ch.Ok? ==>
                  HeldBy(s', |s.links|, k) && s'.links[|s.links|].endpoint == s.calls[k].ep)
  {
    assert PcOk(s, k);
    if s.calls[k].GetSelect? && s.pools[s.calls[k].ep] != [] {
      var ep := s.calls[k].ep;
      assert PoolOk(s, ep) && IdleOk(s, ep, s.pools[ep][0]);
    }
  }

  /** Something went wrong on the connection: an error reading or writing, or a response that
      does not decode. */
  predicate Breaks(p: Pc, ch: Choice) {
    || ((p.WriteLength? || p.WriteFrame? || p.ReadLength?) && !ch.Ok?)
    || (p.ReadBody? && (ch.Fail? || ch.Garbled?))
  }

  /** A call gives its connection up as broken exactly in the step in which something goes
      wrong on it. */
  lemma DropsOnlyBroken(s: State, k: Call, ch: Choice)
    requires Enabled(s, k, ch)
    ensures Step(s, k, ch).calls[k].Drop? <==> Breaks(s.calls[k], ch)
  {
  }

  /** When a call lets go of its connection, it goes to the back of its endpoint's pool
      exactly when it is not broken, the pool still exists and has room; otherwise it is
      closed. */
  lemma WhereConnectionsGo(s: State, k: Call, ch: Choice)
    requires Inv(s) && Enabled(s, k, ch) && HasConn(s.calls[k]) && !HasConn(Step(s, k, ch).calls[k])
    ensures var s', p := Step(s, k, ch), s.calls[k];
            if !p.Drop? && p.ep in s.pools && |s.pools[p.ep]| < s.max then
              && p.GiveSelect? && s'.pools[p.ep] == s.pools[p.ep] + [p.conn]
              && s'.links[p.conn].place == Pooled && !s'.links[p.conn].closed
            else
              s'.links[p.conn].closed && s'.pools == s.pools
  {
    assert PcOk(s, k);
    assert LinkOk(s, s.calls[k].conn);
  }
}
