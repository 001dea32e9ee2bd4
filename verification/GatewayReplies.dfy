/** Client requests (`crates/nexum-network/src/gateway.rs`): what each does and
    says. */
module GatewayReplies {
  import opened Values
  import opened GatewayLog
  import opened GatewayState
  import opened GatewaySends

  /** Client messages, with the fields the gateway looks at. */
  datatype Request =
    | Handshake(supported: bool)
    | Authenticate
    | AttachWorld(world: World)
    | InputFrame
    | Subscribe(request: ClientId)
    | Unsubscribe(sub: Sub)
    | Resync(sub: Sub)
    | DetachWorld
    | CallReducer(client: ClientId)
    | Ping(nonce: nat)

  /** One frame of an inbound pass; `None` did not decode. */
  datatype Inbound = Inbound(conn: Conn, request: Option<Request>)

  /** Ids from here on are reserved for calls of the server itself. */
  const SERVER_REQUESTS: nat := 0x8000_0000_0000_0000

  /** What requests and broadcasts are held against. */
  datatype Limits = Limits(subscriptions: nat, calls: nat, skipEmpty: bool, maxPayload: nat)

  // ----------------------------------------------------------------- updates

  predicate IsRow(u: Update) { u.RowInserted? || u.RowUpdated? || u.RowDeleted? }

  /** One update as its own message. */
  function Serialize(s: Sub, request: ClientId, u: Update): Message
  {
    match u
    case Initial => Snapshot(request, s)
    case Resynced => Snapshot(0, s)
    case FellBehind => StaleNotice(s)
    case _ => RowDelta(s, u)
  }

  function RowsOf(updates: seq<Update>): seq<Update>
  {
    if updates == [] then []
    else RowsOf(updates[..|updates| - 1]) + if IsRow(updates[|updates| - 1]) then [updates[|updates| - 1]] else []
  }

  /** Updates that are not rows, each as its own message. */
  function Singles(s: Sub, request: ClientId, updates: seq<Update>): seq<Message>
  {
    if updates == [] then []
    else
      Singles(s, request, updates[..|updates| - 1])
      + if IsRow(updates[|updates| - 1]) then [] else [Serialize(s, request, updates[|updates| - 1])]
  }

  /** The messages for drained updates: a single one by itself, several rows as
      one batch behind everything else. */
  function UpdateMessages(s: Sub, request: ClientId, updates: seq<Update>): seq<Message>
  {
    if |updates| == 1 then [Serialize(s, request, updates[0])]
    else Singles(s, request, updates) + if RowsOf(updates) == [] then [] else [DeltaBatch(s, request, RowsOf(updates))]
  }

  /** The rows a client learns from `ms`. */
  function RowsIn(ms: seq<Message>): seq<Update>
  {
    if ms == [] then []
    else
      RowsIn(ms[..|ms| - 1])
      + match ms[|ms| - 1] case RowDelta(_, u) => [u] case DeltaBatch(_, _, us) => us case _ => []
  }

  lemma RowsGrow(ms: seq<Message>, m: Message)
    ensures RowsIn(ms + [m]) == RowsIn(ms) + match m case RowDelta(_, u) => [u] case DeltaBatch(_, _, us) => us case _ => []
  {
    assert (ms + [m])[..|ms + [m]| - 1] == ms;
  }

  lemma {:induction false} SinglesCarryNone(s: Sub, request: ClientId, updates: seq<Update>)
    ensures RowsIn(Singles(s, request, updates)) == []
  {
    if updates != [] {
      hide RowsIn;
      var front, u := updates[..|updates| - 1], updates[|updates| - 1];
      SinglesCarryNone(s, request, front);
      if IsRow(u) {
        assert Singles(s, request, updates) == Singles(s, request, front);
      } else {
        RowsGrow(Singles(s, request, front), Serialize(s, request, u));
      }
    }
  }

  /** Batching loses no row, repeats none, and keeps their order. */
  lemma RowsCarried(s: Sub, request: ClientId, updates: seq<Update>)
    ensures RowsIn(UpdateMessages(s, request, updates)) == RowsOf(updates)
  {
    hide Singles;
    if |updates| == 1 {
      var u := updates[0];
      assert updates[..0] == [] && UpdateMessages(s, request, updates) == [] + [Serialize(s, request, u)];
      RowsGrow([], Serialize(s, request, u));
    } else {
      SinglesCarryNone(s, request, updates);
      RowsGrow(Singles(s, request, updates), DeltaBatch(s, request, RowsOf(updates)));
      assert Singles(s, request, updates) + [] == Singles(s, request, updates);
    }
  }

  /** The request ids snapshots go out under. */
  function RequestsIn(ms: seq<Message>): seq<ClientId>
  {
    if ms == [] then []
    else RequestsIn(ms[..|ms| - 1]) + if ms[|ms| - 1].Snapshot? then [ms[|ms| - 1].request] else []
  }

  /** The request's own for an initial state, none for a resync. */
  function Echoes(request: ClientId, updates: seq<Update>): seq<ClientId>
  {
    if updates == [] then []
    else
      Echoes(request, updates[..|updates| - 1])
      + match updates[|updates| - 1] case Initial => [request] case Resynced => [0] case _ => []
  }

  lemma RequestsGrow(ms: seq<Message>, m: Message)
    ensures RequestsIn(ms + [m]) == RequestsIn(ms) + if m.Snapshot? then [m.request] else []
  {
    assert (ms + [m])[..|ms + [m]| - 1] == ms;
  }

  lemma {:induction false} SinglesEcho(s: Sub, request: ClientId, updates: seq<Update>)
    ensures RequestsIn(Singles(s, request, updates)) == Echoes(request, updates)
  {
    if updates != [] {
      hide RequestsIn;
      var front, u := updates[..|updates| - 1], updates[|updates| - 1];
      SinglesEcho(s, request, front);
      if IsRow(u) {
        assert Singles(s, request, updates) == Singles(s, request, front);
      } else {
        RequestsGrow(Singles(s, request, front), Serialize(s, request, u));
      }
    }
  }

  /** Each state goes out under the request id it is owed. */
  lemma SnapshotsEcho(s: Sub, request: ClientId, updates: seq<Update>)
    ensures RequestsIn(UpdateMessages(s, request, updates)) == Echoes(request, updates)
  {
    hide Singles;
    if |updates| == 1 {
      var u := updates[0];
      assert updates[..0] == [] && UpdateMessages(s, request, updates) == [] + [Serialize(s, request, u)];
      RequestsGrow([], Serialize(s, request, u));
    } else {
      SinglesEcho(s, request, updates);
      RequestsGrow(Singles(s, request, updates), DeltaBatch(s, request, RowsOf(updates)));
      assert Singles(s, request, updates) + [] == Singles(s, request, updates);
    }
  }

  /** Rows cost one message at most, and every message is about the
      subscription. */
  lemma UpdatesConcern(s: Sub, request: ClientId, updates: seq<Update>)
    ensures |updates| != 1 ==> |UpdateMessages(s, request, updates)| <= |updates| - |RowsOf(updates)| + 1
    ensures forall m :: m in UpdateMessages(s, request, updates) ==> Concerns(m, s)
  {
    hide Singles, RowsOf;
    SinglesConcern(s, request, updates);
  }

  /** A message about subscription `s`. */
  predicate Concerns(m: Message, s: Sub)
  {
    match m
    case Snapshot(_, sub) => sub == s
    case RowDelta(sub, _) => sub == s
    case DeltaBatch(sub, _, _) => sub == s
    case StaleNotice(sub) => sub == s
    case _ => false
  }

  lemma {:induction false} SinglesConcern(s: Sub, request: ClientId, updates: seq<Update>)
    ensures forall m :: m in Singles(s, request, updates) ==> Concerns(m, s)
    ensures |Singles(s, request, updates)| == |updates| - |RowsOf(updates)|
  {
    if updates != [] {
      SinglesConcern(s, request, updates[..|updates| - 1]);
    }
  }

  /** The last update, on its own or as one more row. */
  lemma OneMore(s: Sub, request: ClientId, updates: seq<Update>, i: nat)
    requires i < |updates|
    ensures Singles(s, request, updates[..i + 1]) ==
      Singles(s, request, updates[..i]) + if IsRow(updates[i]) then [] else [Serialize(s, request, updates[i])]
    ensures RowsOf(updates[..i + 1]) == RowsOf(updates[..i]) + if IsRow(updates[i]) then [updates[i]] else []
  {
    assert updates[..i + 1][..i] == updates[..i];
  }

  // ---------------------------------------------------------------- requests

  /** No session was started or changed. */
  ghost predicate SameSession(g: Gate, g': Gate, c: Conn)
  {
    && g'.nextSession == g.nextSession
    && (Live(g'.connections, c) ==> Live(g.connections, c) && g'.connections[c].value.session == g.connections[c].value.session)
  }

  function SessionOf(g: Gate, c: Conn): Option<Session>
  {
    if Live(g.connections, c) then g.connections[c].value.session else None
  }

  /** An unsupported version is told so, twice if its transport holds, and
      dropped. */
  ghost predicate HandshakeReplied(g: Gate, h: History, g': Gate, h': History, c: Conn, supported: bool, maxPayload: nat)
  {
    && Offered(h, h', c) == Meant(g, c, if supported then HandshakeResponse else ErrorNotice(2, 0))
    && (!supported ==> !Live(g'.connections, c))
    && (!supported && Live(g.connections, c) && TEXT_HEADER + SLOW_REASON <= maxPayload ==>
          Asked(Since(h, h'), c, Disconnect) || Broke(Since(h, h'), c, ErrorNotice(2, 0)))
  }

  /** A new, detached session under the next id. */
  ghost predicate SessionStarted(g: Gate, g': Gate, c: Conn)
  {
    && g'.nextSession == g.nextSession + 1
    && (Live(g'.connections, c) ==>
          SessionOf(g', c).Some? && SessionOf(g', c).value.id == g.nextSession && SessionOf(g', c).value.attached == None)
  }

  ghost predicate AuthReplied(g: Gate, h: History, g': Gate, h': History, c: Conn)
  {
    var o := Offered(h, h', c);
    || (o == Meant(g, c, ErrorNotice(19, 0)) && SameSession(g, g', c))
    || (o == [ErrorNotice(20, 0)] && SessionOf(g, c).Some? && SameSession(g, g', c))
    || (o == [AuthResult(false)] && SessionOf(g, c) == None && SameSession(g, g', c))
    || (o == [AuthResult(true)] && SessionOf(g, c) == None && SessionStarted(g, g', c))
  }

  ghost predicate AttachReplied(g: Gate, h: History, g': Gate, h': History, c: Conn, w: World)
  {
    var o := Offered(h, h', c);
    if SessionOf(g, c) == None then o == Meant(g, c, ErrorNotice(20, 0)) && SameStanding(g, g', c)
    else if AttachedTo(g.connections, c) == Some(w) then o == [AttachResult(Some(w))] && SameStanding(g, g', c)
    else if AttachedTo(g.connections, c).Some? then o == [ErrorNotice(21, 0)] && SameStanding(g, g', c)
    else
      || (o == [AttachResult(None)] && SameStanding(g, g', c))
      || (o == [AttachResult(Some(w))] && BecameAttached(g, g', c, w))
  }

  ghost predicate DetachReplied(g: Gate, h: History, g': Gate, h': History, c: Conn)
  {
    && NothingLeft(g', h', c)
    && Offered(h, h', c) == Meant(g, c,
         if SessionOf(g, c) == None then ErrorNotice(20, 0)
         else if AttachedTo(g.connections, c) == None then ErrorNotice(21, 0)
         else DetachResult)
  }

  ghost predicate Refuses(o: seq<Message>, request: ClientId)
  {
    |o| == 1 && o[0].ErrorNotice? && o[0].request == request
  }

  ghost predicate InputReplied(g: Gate, h: History, h': History, c: Conn)
  {
    var o := Offered(h, h', c);
    || o == Meant(g, c, ErrorNotice(19, 0))
    || (if SessionOf(g, c) == None then o == [ErrorNotice(20, 0)]
        else if AttachedTo(g.connections, c) == None then o == [ErrorNotice(21, 0)]
        else o == [] || Refuses(o, 0))
  }

  /** What the runtime had for subscription `s` went out. */
  ghost predicate Pumped(o: seq<Message>, s: Sub, request: ClientId)
  {
    exists updates :: o == UpdateMessages(s, request, updates)
  }

  ghost predicate Began(g: Gate, g': Gate, c: Conn, o: seq<Message>, request: ClientId)
  {
    exists s :: BecameSubscribed(g, g', c, s) && Pumped(o, s, request)
  }

  ghost predicate SubscribeReplied(g: Gate, h: History, g': Gate, h': History, c: Conn, request: ClientId, most: nat)
  {
    var o := Offered(h, h', c);
    || (o == Meant(g, c, ErrorNotice(19, request)) && SameStanding(g, g', c))
    || (if SessionOf(g, c) == None then o == [ErrorNotice(20, request)] && SameStanding(g, g', c)
        else if AttachedTo(g.connections, c) == None then o == [ErrorNotice(21, request)] && SameStanding(g, g', c)
        else if |SubsOf(g.connections, c)| >= most then o == [ErrorNotice(17, request)] && SameStanding(g, g', c)
        else (Refuses(o, request) && SameStanding(g, g', c)) || Began(g, g', c, o, request))
  }

  ghost predicate UnsubscribeReplied(g: Gate, h: History, g': Gate, h': History, c: Conn, s: Sub)
  {
    && LostSubscription(g, g', c, s)
    && Offered(h, h', c) == if s in SubsOf(g.connections, c) then [] else Meant(g, c, ErrorNotice(22, 0))
  }

  /** A resync of a known subscription ends the stale episode and is counted;
      the session is stale afterwards only if its transport was full again. */
  ghost predicate ResyncReplied(g: Gate, h: History, g': Gate, h': History, c: Conn, s: Sub)
  {
    var o := Offered(h, h', c);
    || (o == Meant(g, c, ErrorNotice(19, 0)) && h'.resyncs == h.resyncs)
    || (if s !in SubsOf(g.connections, c) then o == [ErrorNotice(22, 0)] && h'.resyncs == h.resyncs
        else
          && (Refuses(o, 0) || Pumped(o, s, 0))
          && ResyncsOf(h', c) == ResyncsOf(h, c) + 1 && (IsStale(g', c) ==> AskedFull(Since(h, h'), c)))
  }

  /** A call is refused, with a correlated failure unless the rate window
      refused it, or taken without a reply; ids of the server, ids that wait
      already and calls beyond the limit are not taken. */
  ghost predicate CallReplied(g: Gate, h: History, g': Gate, h': History, c: Conn, client: ClientId, most: nat)
  {
    var o := Offered(h, h', c);
    || (o == Meant(g, c, ErrorNotice(19, 0)) && CallsSame(h, g', h', c))
    || (o == [ReducerResult(client, false)] && CallsSame(h, g', h', c))
    || (&& o == [] && CallTaken(g, h, h', c, client)
        && client < SERVER_REQUESTS && client !in ClientsOf(g.pendingByConnection, c)
        && (c in g.pendingByConnection ==> |g.pendingByConnection[c]| < most))
  }

  /** What a request does and says. */
  ghost predicate Replied(g: Gate, h: History, g': Gate, h': History, c: Conn, request: Request, limits: Limits)
  {
    match request
    case Handshake(supported) => HandshakeReplied(g, h, g', h', c, supported, limits.maxPayload)
    case Authenticate => AuthReplied(g, h, g', h', c)
    case AttachWorld(w) => AttachReplied(g, h, g', h', c, w)
    case InputFrame => InputReplied(g, h, h', c)
    case Subscribe(id) => SubscribeReplied(g, h, g', h', c, id, limits.subscriptions)
    case Unsubscribe(s) => UnsubscribeReplied(g, h, g', h', c, s)
    case Resync(s) => ResyncReplied(g, h, g', h', c, s)
    case DetachWorld => DetachReplied(g, h, g', h', c)
    case CallReducer(client) => CallReplied(g, h, g', h', c, client, limits.calls)
    case Ping(nonce) => Offered(h, h', c) == Meant(g, c, Pong(nonce))
  }

  lemma SessionKept(g: Gate, h: History, g': Gate, h': History, c: Conn)
    requires Touched(g, h, g', h', c)
    ensures SameSession(g, g', c)
  {
    hide StaleLasts, Evolved, OwnCalls;
  }

  lemma SessionBegins(g: Gate, g': Gate, c: Conn)
    requires Live(g'.connections, c) && g'.nextSession == g.nextSession + 1
    requires SessionOf(g', c).Some? && SessionOf(g', c).value.id == g.nextSession && SessionOf(g', c).value.attached == None
    ensures SessionStarted(g, g', c)
  {
  }

  lemma SessionGoesOn(g: Gate, g1: Gate, h1: History, g2: Gate, h2: History, c: Conn)
    requires SessionStarted(g, g1, c) && Touched(g1, h1, g2, h2, c)
    ensures SessionStarted(g, g2, c)
  {
    hide StaleLasts, Evolved, OwnCalls;
  }

  lemma SinglesFirst(s: Sub, request: ClientId, updates: seq<Update>)
    requires |updates| != 1
    ensures Singles(s, request, updates) <= UpdateMessages(s, request, updates)
  {
  }

  /** What has turned stale since the session was fresh. */
  lemma FreshOnly(h: History, g1: Gate, h1: History, g': Gate, h': History, c: Conn)
    requires h1.log == h.log && !IsStale(g1, c) && About(g1, h1, g', h', c)
    ensures IsStale(g', c) ==> AskedFull(Since(h, h'), c)
  {
    hide Evolved, OwnCalls, OutGrows;
  }

  lemma PumpedBy(s: Sub, request: ClientId, updates: seq<Update>)
    ensures Pumped(UpdateMessages(s, request, updates), s, request)
  {
  }
}
