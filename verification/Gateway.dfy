/** The realtime gateway (`crates/nexum-network/src/gateway.rs`). Transports,
    the runtime, authentication, policy and rate limits answer arbitrarily. */
module Gateway {
  import opened Values
  import opened GatewayLog
  import opened GatewayState
  import opened GatewaySends
  import opened GatewayReplies
  import opened GatewayCalls
  import opened GatewayRuns

  method AnyReply() returns (r: Reply)
  {
    r := *;
  }

  /** All subscriptions of a connection leave both subscription indexes. */
  method UnlinkAll(ws: WorldSubs, rev: Reverse, ghost links: set<Link>, c: Conn, subs: map<Sub, NetSub>)
    returns (ws': WorldSubs, rev': Reverse)
    requires LinkedSubscribers(ws, links) && LinkedReverse(rev, links)
    requires forall s, w :: Link(c, s, w) in links ==> s in subs && subs[s] == NetSub(w, s)
    ensures LinkedSubscribers(ws', LinksWithout(links, c)) && LinkedReverse(rev', LinksWithout(links, c))
  {
    hide LinkedSubscribers, LinkedReverse, UnlinkedSubscribers, UnlinkedReverse;
    ws', rev' := ws, rev;
    ghost var left := links;
    var rest := subs.Keys;
    while rest != {}
      invariant rest <= subs.Keys
      invariant LinkedSubscribers(ws', left) && LinkedReverse(rev', left)
      invariant forall l :: l in left <==> l in links && (l.conn != c || l.sub in rest)
      decreases |rest|
    {
      var s :| s in rest;
      var l := Link(c, s, subs[s].world);
      UnlinkSubscribers(ws', left, l);
      UnlinkReverse(rev', left, l);
      ws', rev' := UnlinkedSubscribers(ws', l), UnlinkedReverse(rev', l);
      left := left - {l};
      rest := rest - {s};
    }
    assert left == LinksWithout(links, c);
  }

  /** Queued stale notifications go out while the transport takes them. */
  method FlushPending(c: Conn, e: Entry, ghost h: History, ghost out: seq<Message>, ghost ep: Episode)
    returns (e': Entry, ghost out': seq<Message>, ghost notes: seq<Note>)
    requires StaleKept(e, out, ep) && Accounted(h, c, out, [])
    ensures StaleKept(e', out', ep) && Lasts(e, out, ep, e', out', ep)
    ensures Accounted(h, c, out', notes) && Quiet(notes, c) && Plain(out') == Plain(out)
    ensures e' == e.(pendingStale := e'.pendingStale, hasPendingStale := e'.hasPendingStale)
    ensures var k := |e.pendingStale| - |e'.pendingStale|;
      0 <= k && e'.pendingStale == e.pendingStale[k..] && out' == out + e.pendingStale[..k]
    ensures e'.pendingStale != [] ==>
      exists reply: Reply :: !reply.Taken? && Ask(c, e'.pendingStale[0], reply) in notes
  {
    hide StaleKept, Accounted, Plain, Quiet;
    e', out', notes := e, out, [];
    StaleFlag(e, out, ep);
    NothingAsked(c);
    assert e.pendingStale[0..] == e.pendingStale && out + e.pendingStale[..0] == out;
    if e.hasPendingStale {
      var queue := e.pendingStale;
      ghost var k := 0;
      while queue != []
        invariant 0 <= k <= |e.pendingStale| && queue == e.pendingStale[k..] && out' == out + e.pendingStale[..k]
        invariant Accounted(h, c, out', notes) && Quiet(notes, c) && Plain(out') == Plain(out)
        invariant StaleKept(e.(pendingStale := queue, hasPendingStale := queue != []), out', ep)
        decreases |queue|
      {
        var reply := AnyReply();
        NoticeTaken(e.(pendingStale := queue, hasPendingStale := true), out', ep);
        NoticeAsked(h, c, out', notes, queue[0], reply);
        notes := notes + [Ask(c, queue[0], reply)];
        if !reply.Taken? {
          break;
        }
        assert out' + [queue[0]] == out + e.pendingStale[..k + 1];
        out' := out' + [queue[0]];
        queue, k := queue[1..], k + 1;
      }
      e' := e.(pendingStale := queue, hasPendingStale := queue != []);
    }
  }

  /** The keys of the subscription map, each once. */
  method KeysOf(subs: map<Sub, NetSub>) returns (ks: seq<Sub>)
    ensures NoDup(ks) && forall s :: s in ks <==> s in subs
  {
    ks := [];
    var rest := subs.Keys;
    while rest != {}
      invariant rest <= subs.Keys && NoDup(ks) && forall s :: s in ks <==> s in subs && s !in rest
      decreases |rest|
    {
      var s :| s in rest;
      ks := ks + [s];
      rest := rest - {s};
    }
  }

  /** An overflowing session turns stale, and one notification per
      subscription is queued, if notifications fit a frame at all. */
  method TurnStale(e: Entry, ghost out: seq<Message>, ghost ep: Episode, noticesFit: bool)
    returns (e': Entry, ghost ep': Episode)
    requires StaleKept(e, out, ep) && !e.stale
    ensures StaleKept(e', out, ep') && e'.stale && ep'.start == |out|
    ensures e'.session == e.session && e'.subs == e.subs
    ensures forall s :: s in ep'.created <==> noticesFit && s in e.subs
    ensures e'.pendingStale == Notices(ep'.created)
  {
    var subs := KeysOf(e.subs);
    var queue := e.pendingStale;
    var i := 0;
    while i < |subs|
      invariant 0 <= i <= |subs|
      invariant queue == if noticesFit then Notices(subs[..i]) else []
    {
      if noticesFit {
        queue := queue + [StaleNotice(subs[i])];
        assert queue == Notices(subs[..i + 1]);
      }
      i := i + 1;
    }
    assert subs[..|subs|] == subs;
    ep' := Episode(|out|, if noticesFit then subs else []);
    e' := e.(stale := true, pendingStale := queue, hasPendingStale := queue != []);
    assert Notices(ep'.created)[0..] == Notices(ep'.created);
  }

  class NetworkGateway {
    const maxConnections: nat
    const maxPayload: nat
    const disconnectSlow: bool
    const maxSubscriptions: nat
    const maxPendingCalls: nat
    const skipEmpty: bool

    var g: Gate
    ghost var h: History

    ghost predicate Valid()
      reads this
    {
      Agrees(g, h)
    }

    function Overflow(): Policy
    {
      Policy(maxPayload >= NOTICE_SIZE, disconnectSlow, maxPayload >= TEXT_HEADER + SLOW_REASON)
    }

    constructor (maxConnections: nat, maxPayload: nat, disconnectSlow: bool, maxSubscriptions: nat,
                 maxPendingCalls: nat, skipEmpty: bool)
      ensures Valid() && g.connections == [] && h.calls == map[] && h.answers == []
    {
      this.maxConnections, this.maxPayload, this.disconnectSlow := maxConnections, maxPayload, disconnectSlow;
      this.maxSubscriptions, this.maxPendingCalls, this.skipEmpty := maxSubscriptions, maxPendingCalls, skipEmpty;
      g := Gate([], 0, 0, 0, map[], map[], 1, map[], map[], map[]);
      h := History({}, {}, map[], [], map[], map[], map[], []);
    }

    // -------------------------------------------------------- connections

    /** A new connection takes the next id; `None` is the connection limit. */
    method RegisterConnection() returns (id: Option<Conn>)
      requires Valid()
      modifies this
      ensures Valid() && h == if id.Some? then AddedHistory(old(g), old(h)) else old(h)
      ensures id == if old(g).activeConnections >= maxConnections then None else Some(|old(g).connections|)
      ensures g == if id.Some? then Added(old(g)) else old(g)
    {
      hide IndexesAgree, CallsAgree, AllStaleKept, LiveCount;
      if g.activeConnections >= maxConnections {
        return None;
      }
      AddAgrees(g, h);
      id := Some(g.nextConnection);
      h := AddedHistory(g, h);
      g := Added(g);
    }

    /** `drop_connection`: the slot is freed and every index forgets it. */
    method DropConnection(c: Conn)
      requires Valid()
      modifies this
      ensures Valid() && Touched(old(g), old(h), g, h, c) && !Live(g.connections, c)
      ensures h.outbox == old(h).outbox && h.log == old(h).log
    {
      hide IndexesAgree, CallsAgree, AllStaleKept, LiveCount, AllFaithful, LinkedSubscribers, LinkedReverse, LinksWithout, Touched;
      if !Live(g.connections, c) {
        DeadTouched(g, h, c);
        return;
      }
      OwnLinks(g, h, c);
      var ws, rev := UnlinkAll(g.worldSubscribers, g.subToConns, h.links, c, g.connections[c].value.subs);
      FreeAgrees(g, h, c, ws, rev);
      FreeTouched(g, h, c, ws, rev);
      g := Freed(g, c, ws, rev);
      h := Forgotten(h, c);
    }

    // ------------------------------------------------------------ outbound

    /** Writes one slot back, with what its transport was asked and has taken
        by now. */
    method SetEntry(c: Conn, e: Entry, ghost out: seq<Message>, ghost ep: Episode, ghost notes: seq<Note>)
      requires Valid() && Live(g.connections, c) && StaleKept(e, out, ep) && Accounted(h, c, out, notes)
      requires e.session == g.connections[c].value.session && e.subs == g.connections[c].value.subs
      requires c in h.outbox && c in h.episodes && Lasts(g.connections[c].value, h.outbox[c], h.episodes[c], e, out, ep)
      requires e.stale && !g.connections[c].value.stale ==> AskedFull(notes, c)
      modifies this
      ensures Valid() && Touched(old(g), old(h), g, h, c)
      ensures g == WithEntry(old(g), c, e) && h == WithOut(old(h), c, out, ep, notes)
      ensures Live(g.connections, c) && IsStale(g, c) == e.stale
      ensures old(h).log <= h.log && Since(old(h), h) == notes && Offered(old(h), h, c) == []
    {
      hide Agrees, StaleKept, Touched, About, Accounted, Offered, AskedFull;
      EntryAgrees(g, h, c, e, out, ep, notes);
      EntryTouched(g, h, c, e, out, ep, notes);
      h := WithOut(h, c, out, ep, notes);
      g := WithEntry(g, c, e);
    }

    /** Best effort: a `Disconnect` goes out if it fits a frame and the transport
        takes it, and the connection is dropped. */
    method DisconnectConnection(c: Conn, reason: nat)
      requires Valid()
      modifies this
      ensures Valid() && Touched(old(g), old(h), g, h, c) && !Live(g.connections, c)
      ensures Offered(old(h), h, c) == [] && old(h).log <= h.log && Quiet(Since(old(h), h), c)
      ensures Asked(Since(old(h), h), c, Disconnect) <==> Live(old(g).connections, c) && TEXT_HEADER + reason <= maxPayload
    {
      hide Agrees, StaleKept, Touched, Accounted, Conveys, Quiet, OutOf, Since, Offered, TakenBy, OffersTo, Plain, Within, Asked;
      NothingAsked(c);
      if Live(g.connections, c) && TEXT_HEADER + reason <= maxPayload {
        var reply := AnyReply();
        LiveStale(g, h, c);
        TakenKeeps(g.connections[c].value, h.outbox[c], h.episodes[c], Disconnect);
        AccountedAsk(h, c, h.outbox[c], [], Disconnect, reply);
        AskConveys([], c, Disconnect, reply);
        QuietIs([] + [Ask(c, Disconnect, reply)], c, Disconnect, reply.Taken?);
        ghost var out := if reply.Taken? then h.outbox[c] + [Disconnect] else h.outbox[c];
        SetEntry(c, g.connections[c].value, out, h.episodes[c], AskedNow([], c, Disconnect, reply));
        ghost var g1, h1 := g, h;
        DropConnection(c);
        TouchedChains(old(g), old(h), g1, h1, g, h, c);
        NothingSaid(h1, h, c);
        SinceSame(old(h), h1, h);
      } else {
        DropConnection(c);
        NothingSaid(old(h), h, c);
      }
    }

    /** The transport has refused `m`: a full one leaves the session stale, or
        costs it its connection like any other failure. */
    method Refused(c: Conn, m: Message, full: bool, e: Entry, ghost out: seq<Message>, ghost notes: seq<Note>)
      requires Valid() && Refusal(g, h, c, m, full, e, out, notes)
      modifies this
      ensures Valid() && Touched(old(g), old(h), g, h, c) && Offered(old(h), h, c) == []
      ensures Attempted(old(g), old(h), g, h, c, m, Some(false), Overflow())
    {
      hide Agrees, StaleKept, Touched, Accounted, IsSignal, Notices, NoDup, Attempted, Conveys, Quiet, Asked, Broke,
           Offered, AskedFull, Since, TakenBy, OffersTo, Plain, Within, WithOut;
      ghost var ep := h.episodes[c];
      if full && !disconnectSlow {
        if e.stale {
          EntryAttempted(g, h, c, m, Some(false), Overflow(), e, out, ep, notes);
          SetEntry(c, e, out, ep, notes);
        } else {
          ghost var ep';
          var e';
          e', ep' := TurnStale(e, out, ep, Overflow().fits);
          EntryAttempted(g, h, c, m, Some(false), Overflow(), e', out, ep', notes);
          SetEntry(c, e', out, ep', notes);
        }
        return;
      }
      SetEntry(c, e, out, ep, notes);
      ghost var g1, h1 := g, h;
      if full {
        DisconnectConnection(c, SLOW_REASON);
      } else {
        DropConnection(c);
        NothingSaid(h1, h, c);
        NothingAsked(c);
      }
      TouchedChains(old(g), old(h), g1, h1, g, h, c);
      DroppedAttempted(old(g), old(h), h1, g, h, c, m, Overflow());
    }

    /** Queued notifications first; then the transport is asked to take `m`,
        unless the session is stale. `None` is a refusal, with the slot as it is
        to be written back. */
    method AskOnce(c: Conn, m: Message)
      returns (r: Option<bool>, full: bool, e: Entry, ghost out: seq<Message>, ghost notes: seq<Note>)
      requires Valid() && Due(h, c, m) && Live(g.connections, c)
      modifies this
      ensures Valid() && Touched(old(g), old(h), g, h, c) && Offered(old(h), h, c) == []
      ensures Live(g.connections, c) && IsStale(g, c) == IsStale(old(g), c)
      ensures r.Some? ==> Attempted(old(g), old(h), g, h, c, m, r, Overflow())
      ensures r == None ==> g == old(g) && h == old(h) && Refusal(g, h, c, m, full, e, out, notes)
    {
      hide Agrees, StaleKept, Touched, Accounted, IsSignal, Notices, NoDup, Due, Attempted, Conveys, Quiet, Asked, Broke,
           Offered, AskedFull, Since, TakenBy, OffersTo, Plain, Within, AskedNow, WithOut, WithEntry;
      LiveStale(g, h, c);
      full := false;
      ghost var ep := h.episodes[c];
      e, out, notes := FlushPending(c, g.connections[c].value, h, h.outbox[c], ep);
      if e.stale && !IsSignal(m) {
        QuietConveys(notes, c, m);
        EntryAttempted(g, h, c, m, Some(false), Overflow(), e, out, ep, notes);
        SetEntry(c, e, out, ep, notes);
        r := Some(false);
        return;
      }
      var reply := AnyReply();
      DueConveyed(h, c, out, notes, m, reply);
      notes := AskedNow(notes, c, m, reply);
      if reply.Taken? {
        TakenKeeps(e, out, ep, m);
        EntryAttempted(g, h, c, m, Some(true), Overflow(), e, out + [m], ep, notes);
        SetEntry(c, e, out + [m], ep, notes);
        r := Some(true);
        return;
      }
      SelfTouched(g, h, c);
      NothingSaid(h, h, c);
      r, full := None, reply.Full?;
    }

    /** A frame for `c`: `None` for an unknown connection, otherwise whether it
        was enqueued. A session that overflows turns stale or is dropped, and
        while it is stale only signals pass. */
    method SendEncoded(c: Conn, m: Message) returns (r: Option<bool>)
      requires Valid() && Due(h, c, m)
      modifies this
      ensures Valid() && Touched(old(g), old(h), g, h, c) && Offered(old(h), h, c) == []
      ensures r == None <==> !Live(old(g).connections, c)
      ensures Attempted(old(g), old(h), g, h, c, m, r, Overflow())
    {
      hide Agrees, Touched, Due, Attempted, Offered, Refusal;
      if !Live(g.connections, c) {
        DeadTouched(g, h, c);
        DeadAttempted(g, h, c, m, Overflow());
        return None;
      }
      var full, e;
      ghost var out, notes;
      r, full, e, out, notes := AskOnce(c, m);
      if r == None {
        Refused(c, m, full, e, out, notes);
        r := Some(false);
      }
    }

    /** The direct path of `send`: `None` if the transport did not take `m` that
        way. */
    method TryDirect(c: Conn, m: Message) returns (r: Option<bool>)
      requires Valid() && Due(h, c, m) && Live(g.connections, c)
      modifies this
      ensures Valid() && Touched(old(g), old(h), g, h, c) && Offered(old(h), h, c) == []
      ensures Live(g.connections, c) && IsStale(g, c) == IsStale(old(g), c)
      ensures Attempted(old(g), old(h), g, h, c, m, r, Overflow())
      ensures r == None ==> Due(h, c, m) && Quiet(Since(old(h), h), c) && Asked(Since(old(h), h), c, m)
    {
      hide Agrees, StaleKept, Touched, Accounted, IsSignal, Notices, NoDup, Due, Attempted, Conveys, Quiet, Asked, Broke,
           Offered, AskedFull, Since, TakenBy, OffersTo, Plain, Within, AsksOnly;
      var full, e;
      ghost var out, notes;
      r, full, e, out, notes := AskOnce(c, m);
      if r == None {
        EntryAttempted(g, h, c, m, None, Overflow(), e, out, h.episodes[c], notes);
        AsksAccounted(h, c, out, notes);
        StillDue(h, c, out, h.episodes[c], notes, m);
        ConveysNothing(notes, c, m);
        SetEntry(c, e, out, h.episodes[c], notes);
      }
    }

    /** What is due to `c`, directly if the transport can take it so, otherwise
        as a frame, if it fits one. */
    method Transmit(c: Conn, m: Message, fits: bool) returns (r: Option<bool>)
      requires Valid() && Due(h, c, m)
      modifies this
      ensures Valid() && Touched(old(g), old(h), g, h, c) && Offered(old(h), h, c) == []
      ensures r == None ==> !Live(old(g).connections, c) || !fits
      ensures Attempted(old(g), old(h), g, h, c, m, r, Overflow())
    {
      hide Agrees, Touched, Due, Attempted, Quiet, Asked, Offered, Since;
      if !Live(g.connections, c) {
        DeadTouched(g, h, c);
        DeadAttempted(g, h, c, m, Overflow());
        return None;
      }
      r := TryDirect(c, m);
      if r.Some? || !fits {
        return;
      }
      TouchedLog(old(g), old(h), g, h, c);
      ghost var g1, h1 := g, h;
      r := SendEncoded(c, m);
      TouchedLog(g1, h1, g, h, c);
      TouchedChains(old(g), old(h), g1, h1, g, h, c);
      AgainAttempted(old(g), old(h), g1, h1, g, h, c, m, r, Overflow());
    }

    /** The gateway decides to send `m` to `c`. */
    ghost method Announce(c: Conn, m: Message)
      requires Valid() && Live(g.connections, c) && !IsSuccess(m)
      modifies this`h
      ensures Valid() && h == Offering(old(h), c, m) && Due(h, c, m)
      ensures Touched(g, old(h), g, h, c) && Offered(old(h), h, c) == [m]
    {
      hide Agrees, Touched, Due, Offered;
      OfferAgrees(g, h, c, m);
      h := Offering(h, c, m);
    }

    /** A message for `c`; successes of calls go through `AnswerCall`. */
    method Send(c: Conn, m: Message) returns (r: Option<bool>)
      requires Valid() && !IsSuccess(m)
      modifies this
      ensures Valid() && Touched(old(g), old(h), g, h, c) && Offered(old(h), h, c) == Meant(old(g), c, m)
      ensures !Live(old(g).connections, c) ==> g == old(g) && h == old(h)
      ensures Attempted(old(g), old(h), g, h, c, m, r, Overflow()) && Says(old(h), h, c)
    {
      hide Agrees, Touched, Due, Attempted, Offered, Since, Says, Conveys;
      if !Live(g.connections, c) {
        DeadTouched(g, h, c);
        DeadAttempted(g, h, c, m, Overflow());
        NothingSaid(h, h, c);
        return None;
      }
      Announce(c, m);
      ghost var h1 := h;
      var fits: bool := *;
      r := Transmit(c, m, fits);
      TouchedLog(old(g), h1, g, h, c);
      TouchedChains(old(g), old(h), old(g), h1, g, h, c);
      OfferAttempted(old(g), old(h), g, h, c, m, r, Overflow());
      AttemptedConveys(old(g), old(h), g, h, c, m, r, Overflow());
      TouchedLog(old(g), old(h), g, h, c);
      SaysMeant(old(g), old(h), h, c, m, r == Some(true));
    }

    /** Into the transport's queue, unless the session is stale. */
    method PushDirect(c: Conn, m: Message) returns (r: Option<bool>)
      requires Valid() && Due(h, c, m) && Live(g.connections, c)
      modifies this
      ensures Valid() && Touched(old(g), old(h), g, h, c) && Offered(old(h), h, c) == []
      ensures AttemptedDirect(old(g), old(h), g, h, c, m, r, Overflow())
    {
      hide Agrees, Touched, Due, AttemptedDirect, Offered, Since, StaleKept, Accounted, Asked, AskedNow, AskedFull,
           TakenBy, OffersTo, Plain, Within, Notices, NoDup;
      LiveStale(g, h, c);
      var e := g.connections[c].value;
      if e.stale {
        HeldDirect(g, h, c, m, Overflow());
        SelfTouched(g, h, c);
        return Some(false);
      }
      var reply := AnyReply();
      ghost var out, ep := h.outbox[c], h.episodes[c];
      DirectAsked(h, c, out, m, reply);
      if reply.Taken? {
        TakenKeeps(e, out, ep, m);
        out := out + [m];
      } else if reply.Full? {
        e, ep := TurnStale(e, out, ep, Overflow().fits);
      }
      EntryDirect(g, h, c, m, reply, Overflow(), e, out, ep);
      SetEntry(c, e, out, ep, AskedNow([], c, m, reply));
      r := Some(reply.Taken?);
    }

    /** A message straight into the transport's queue; nothing passes while
        the session is stale. */
    method SendDirect(c: Conn, m: Message) returns (r: Option<bool>)
      requires Valid() && !IsSuccess(m)
      modifies this
      ensures Valid() && Touched(old(g), old(h), g, h, c) && Offered(old(h), h, c) == Meant(old(g), c, m)
      ensures AttemptedDirect(old(g), old(h), g, h, c, m, r, Overflow()) && Says(old(h), h, c)
      ensures Live(g.connections, c) == Live(old(g).connections, c)
    {
      hide Agrees, Touched, Due, AttemptedDirect, Offered, Since, Says, Conveys;
      if !Live(g.connections, c) {
        DeadTouched(g, h, c);
        DeadDirect(g, h, c, m, Overflow());
        NothingSaid(h, h, c);
        return None;
      }
      Announce(c, m);
      ghost var h1 := h;
      r := PushDirect(c, m);
      TouchedLog(old(g), h1, g, h, c);
      TouchedChains(old(g), old(h), old(g), h1, g, h, c);
      OfferAttemptedDirect(old(g), old(h), g, h, c, m, r, Overflow());
      AttemptedConveys(old(g), old(h), g, h, c, m, r, Overflow());
      TouchedLog(old(g), old(h), g, h, c);
      SaysMeant(old(g), old(h), h, c, m, r == Some(true));
      DirectKeeps(old(g), old(h), g, h, c, m, r, Overflow());
    }

    method SendError(c: Conn, code: nat, request: ClientId)
      requires Valid()
      modifies this
      ensures Valid() && Touched(old(g), old(h), g, h, c)
      ensures Offered(old(h), h, c) == Meant(old(g), c, ErrorNotice(code, request)) && Says(old(h), h, c)
      ensures Live(old(g).connections, c) ==> Asked(Since(old(h), h), c, ErrorNotice(code, request))
      ensures Parted(old(g), old(h), g, h, c, ErrorNotice(code, request), Overflow())
    {
      hide Agrees, Touched, Offered, Since, Says, Asked, Broke, Conveys, Flushed, Alerted;
      var _ := Send(c, ErrorNotice(code, request));
    }

    /** The rate window may refuse; a refusal is answered with an error. */
    method CheckRate(c: Conn, request: ClientId) returns (allowed: bool)
      requires Valid()
      modifies this
      ensures Valid() && Touched(old(g), old(h), g, h, c)
      ensures allowed ==> g == old(g) && h == old(h) && Live(g.connections, c)
      ensures Offered(old(h), h, c) == if allowed then [] else Meant(old(g), c, ErrorNotice(19, request))
      ensures Says(old(h), h, c)
    {
      hide Agrees, Touched, Offered, Says;
      allowed := *;
      allowed := allowed && Live(g.connections, c);
      if allowed {
        SelfTouched(g, h, c);
        NothingSaid(h, h, c);
      } else {
        SendError(c, 19, request);
      }
    }

    /** A reply after `c`'s message has been served so far. */
    method Respond(c: Conn, m: Message, ghost g0: Gate, ghost h0: History)
      requires Valid() && Served(g0, h0, g, h, c) && !IsSuccess(m) && Offered(h0, h, c) == [] && Says(h0, h, c)
      modifies this
      ensures Valid() && Served(g0, h0, g, h, c) && Touched(old(g), old(h), g, h, c)
      ensures Offered(h0, h, c) == Meant(old(g), c, m) && Says(h0, h, c)
    {
      hide Agrees, Touched, Served, Offered, Says;
      ghost var g1, h1 := g, h;
      var _ := Send(c, m);
      SaysChains(h0, h1, h, c);
      TouchedServed(g1, h1, g, h, c);
      ServedChains(g0, h0, g1, h1, g, h, c);
    }

    // ------------------------------------------------------------- sessions

    method HandleHandshake(c: Conn, supported: bool)
      requires Valid()
      modifies this
      ensures Valid() && Touched(old(g), old(h), g, h, c)
      ensures HandshakeReplied(old(g), old(h), g, h, c, supported, maxPayload) && Says(old(h), h, c)
    {
      hide Agrees, Touched, Offered, Says, Since, Asked, Broke, Parted, Quiet;
      if supported {
        var _ := Send(c, HandshakeResponse);
      } else {
        SendError(c, 2, 0);
        ghost var g1, h1 := g, h;
        DisconnectConnection(c, VERSION_REASON);
        TouchedLog(old(g), old(h), g1, h1, c);
        if Live(old(g).connections, c) && Overflow().farewell {
          PartedMeans(old(g), old(h), g1, h1, c, ErrorNotice(2, 0), Overflow());
          ToldTwice(old(g), old(h), g1, h1, h, c, ErrorNotice(2, 0));
        }
        TouchedChains(old(g), old(h), g1, h1, g, h, c);
        SaysQuiet(h1, h, c);
        SaysChains(old(h), h1, h, c);
      }
    }

    /** A second authentication is refused; a first one starts detached. */
    method HandleAuthenticate(c: Conn)
      requires Valid()
      modifies this
      ensures Valid() && Served(old(g), old(h), g, h, c)
      ensures SameStanding(old(g), g, c) && AuthReplied(old(g), old(h), g, h, c) && Says(old(h), h, c)
    {
      hide Agrees, Touched, Served, StaleKept, SameStanding, Offered, SameSession, SessionStarted, Accounted, AskedFull, Says;
      var allowed := CheckRate(c, 0);
      if !allowed {
        TouchedServed(old(g), old(h), g, h, c);
        SessionKept(old(g), old(h), g, h, c);
        return;
      }
      var e := g.connections[c].value;
      if e.session.Some? {
        SendError(c, 20, 0);
        TouchedServed(old(g), old(h), g, h, c);
        SessionKept(old(g), old(h), g, h, c);
        return;
      }
      var known: bool, principal: nat := *, *;
      if !known {
        var _ := Send(c, AuthResult(false));
        TouchedServed(old(g), old(h), g, h, c);
        SessionKept(old(g), old(h), g, h, c);
        return;
      }
      LiveStale(g, h, c);
      var e' := e.(session := Some(Session(g.nextSession, principal, None)));
      SameStale(e, e', h.outbox[c], h.episodes[c]);
      EntryAgrees(g, h, c, e', h.outbox[c], h.episodes[c], []);
      SessionServed(g, h, c, e');
      ghost var h' := WithOut(h, c, h.outbox[c], h.episodes[c], []);
      SessionCounted(WithEntry(g, c, e'), h');
      g := WithEntry(g, c, e').(nextSession := g.nextSession + 1);
      h := h';
      StandingSame(old(g), g, c);
      ghost var g1, h1 := g, h;
      SessionBegins(old(g), g1, c);
      NothingSaid(old(h), h, c);
      Respond(c, AuthResult(true), old(g), old(h));
      StandingAfter(old(g), g1, h1, g, h, c);
      SessionGoesOn(old(g), g1, h1, g, h, c);
    }

    /** Attaching is idempotent on the same world and refused on another. */
    method HandleAttach(c: Conn, world: World)
      requires Valid()
      modifies this
      ensures Valid() && Served(old(g), old(h), g, h, c)
      ensures AttachReplied(old(g), old(h), g, h, c, world) && Says(old(h), h, c)
    {
      hide Agrees, Touched, Served, Attached, SameStanding, BecameAttached, Offered, Says;
      if !Live(g.connections, c) || g.connections[c].value.session.None? {
        SendError(c, 20, 0);
        TouchedServed(old(g), old(h), g, h, c);
        return;
      }
      var attached := g.connections[c].value.session.value.attached;
      if attached.Some? {
        if attached == Some(world) {
          var _ := Send(c, AttachResult(Some(world)));
        } else {
          SendError(c, 21, 0);
        }
        TouchedServed(old(g), old(h), g, h, c);
        return;
      }
      var worldExists, authorized: bool := *, *;
      if !worldExists || !authorized {
        var _ := Send(c, AttachResult(None));
        TouchedServed(old(g), old(h), g, h, c);
        return;
      }
      AttachAgrees(g, h, c, world);
      AttachedStanding(g, c, world);
      g, h := Attached(g, c, world), Seated(h, c, world);
      NothingSaid(old(h), h, c);
      ghost var g1, h1 := g, h;
      Respond(c, AttachResult(Some(world)), old(g), old(h));
      AttachedAfter(old(g), g1, h1, g, h, c, world);
    }

    /** Subscriptions and waiting calls end with the attachment. */
    method HandleDetach(c: Conn)
      requires Valid()
      modifies this
      ensures Valid() && Served(old(g), old(h), g, h, c)
      ensures DetachReplied(old(g), old(h), g, h, c) && Says(old(h), h, c)
    {
      hide Agrees, Touched, Served, LinkedSubscribers, LinkedReverse, LinksWithout, Detached, Forgotten, NothingLeft, Offered, Says;
      if !Live(g.connections, c) || g.connections[c].value.session.None? {
        NothingThere(g, h, c);
        SendError(c, 20, 0);
        TouchedServed(old(g), old(h), g, h, c);
        NothingAfter(old(g), old(h), g, h, c);
        return;
      }
      if g.connections[c].value.session.value.attached.None? {
        NothingThere(g, h, c);
        SendError(c, 21, 0);
        TouchedServed(old(g), old(h), g, h, c);
        NothingAfter(old(g), old(h), g, h, c);
        return;
      }
      AgreedLinks(g, h, c);
      var ws, rev := UnlinkAll(g.worldSubscribers, g.subToConns, h.links, c, g.connections[c].value.subs);
      DetachAgrees(g, h, c, ws, rev);
      g, h := Detached(g, c, ws, rev), Forgotten(h, c);
      DetachedStanding(old(g), old(h), c, ws, rev);
      NothingSaid(old(h), h, c);
      ghost var g1, h1 := g, h;
      Respond(c, DetachResult, old(g), old(h));
      NothingAfter(g1, h1, g, h, c);
    }

    /** Input needs a session and an attachment; the rest is up to limits,
        policy and the runtime. */
    method HandleInput(c: Conn)
      requires Valid()
      modifies this
      ensures Valid() && Touched(old(g), old(h), g, h, c) && InputReplied(old(g), old(h), h, c) && Says(old(h), h, c)
    {
      hide Agrees, Touched, Offered, Says;
      var allowed := CheckRate(c, 0);
      if !allowed {
        return;
      }
      var session := g.connections[c].value.session;
      if session.None? {
        SendError(c, 20, 0);
      } else if session.value.attached.None? {
        SendError(c, 21, 0);
      } else {
        var refused: bool, code: nat := *, *;
        if refused {
          SendError(c, code, 0);
        }
      }
    }

    // -------------------------------------------------------- subscriptions

    /** Drained updates go out: a single one by itself, several rows as one
        batch behind everything else. Nothing more is meant for a connection
        that is dropped on the way. */
    method SendUpdates(c: Conn, s: Sub, request: ClientId, updates: seq<Update>, direct: bool)
      requires Valid()
      modifies this
      ensures Valid() && Touched(old(g), old(h), g, h, c)
      ensures Offered(old(h), h, c) <= UpdateMessages(s, request, updates)
      ensures Live(g.connections, c) ==> Offered(old(h), h, c) == UpdateMessages(s, request, updates)
      ensures Says(old(h), h, c) && (direct ==> Live(g.connections, c) == Live(old(g).connections, c))
      ensures !Live(old(g).connections, c) ==> Offered(old(h), h, c) == []
    {
      hide Agrees, Touched, Offered, Since, Attempted, AttemptedDirect, Says;
      SelfTouched(g, h, c);
      NothingSaid(h, h, c);
      if |updates| == 1 {
        var _ := SendDirect(c, Serialize(s, request, updates[0]));
        return;
      }
      var rows: seq<Update> := [];
      for i := 0 to |updates|
        invariant Valid() && Touched(old(g), old(h), g, h, c) && rows == RowsOf(updates[..i])
        invariant Offered(old(h), h, c) <= Singles(s, request, updates[..i])
        invariant Live(g.connections, c) ==> Offered(old(h), h, c) == Singles(s, request, updates[..i])
        invariant Says(old(h), h, c) && (direct ==> Live(g.connections, c) == Live(old(g).connections, c))
        invariant !Live(old(g).connections, c) ==> Offered(old(h), h, c) == [] && !Live(g.connections, c)
      {
        OneMore(s, request, updates, i);
        ghost var g1, h1 := g, h;
        if IsRow(updates[i]) {
          rows := rows + [updates[i]];
        } else {
          if direct {
            var _ := SendDirect(c, Serialize(s, request, updates[i]));
          } else {
            var _ := Send(c, Serialize(s, request, updates[i]));
          }
          TouchedChains(old(g), old(h), g1, h1, g, h, c);
          TouchedGone(g1, h1, g, h, c);
          SaysChains(old(h), h1, h, c);
        }
      }
      assert updates[..|updates|] == updates;
      SinglesFirst(s, request, updates);
      if rows != [] {
        ghost var g1, h1 := g, h;
        var _ := SendDirect(c, DeltaBatch(s, request, rows));
        TouchedChains(old(g), old(h), g1, h1, g, h, c);
        TouchedGone(g1, h1, g, h, c);
        SaysChains(old(h), h1, h, c);
      }
    }

    /** Whatever the runtime has for one subscription. */
    method Pump(c: Conn, s: Sub, request: ClientId)
      requires Valid()
      modifies this
      ensures Valid() && Touched(old(g), old(h), g, h, c) && Live(g.connections, c) == Live(old(g).connections, c)
      ensures Live(g.connections, c) ==> Pumped(Offered(old(h), h, c), s, request)
      ensures Says(old(h), h, c)
    {
      hide Agrees, Touched, Offered, Singles, RowsOf, Says;
      var updates: seq<Update> := *;
      SendUpdates(c, s, request, updates, true);
      PumpedBy(s, request, updates);
    }

    /** The runtime hands out subscription ids that are not in use on the
        world. */
    method AnySub(w: World) returns (s: Sub)
      ensures w in g.subToConns ==> s !in g.subToConns[w]
    {
      var used: set<nat> := if w in g.subToConns then g.subToConns[w].Keys else {};
      Unused(used);
      s :| s !in used;
    }

    /** A new subscription is on the world the session is attached to. */
    method HandleSubscribe(c: Conn, request: ClientId)
      requires Valid()
      modifies this
      ensures Valid() && Served(old(g), old(h), g, h, c)
      ensures SubscribeReplied(old(g), old(h), g, h, c, request, maxSubscriptions) && Says(old(h), h, c)
    {
      hide Agrees, Touched, Served, Subscribed, SameStanding, BecameSubscribed, Offered, Pumped, Says;
      var allowed := CheckRate(c, request);
      if !allowed {
        TouchedServed(old(g), old(h), g, h, c);
        return;
      }
      var e := g.connections[c].value;
      var refused: bool, code: nat := *, *;
      if e.session.None? || e.session.value.attached.None? || |e.subs| >= maxSubscriptions || refused {
        SendError(c, if e.session.None? then 20
                     else if e.session.value.attached.None? then 21
                     else if |e.subs| >= maxSubscriptions then 17
                     else code, request);
        TouchedServed(old(g), old(h), g, h, c);
        return;
      }
      var w := e.session.value.attached.value;
      var s := AnySub(w);
      FreshSub(g, h, c, w, s);
      SubscribeAgrees(g, h, c, s, w);
      SubscribedStanding(g, c, s, w);
      g, h := Subscribed(g, c, s, w), Linked(h, Link(c, s, w));
      NothingSaid(old(h), h, c);
      ghost var g1, h1 := g, h;
      Pump(c, s, request);
      TouchedServed(g1, h1, g, h, c);
      SubscribedAfter(old(g), g1, h1, g, h, c, s);
      ServedChains(old(g), old(h), g1, h1, g, h, c);
      SaysChains(old(h), h1, h, c);
      assert [] + Offered(h1, h, c) == Offered(h1, h, c);
    }

    method HandleUnsubscribe(c: Conn, s: Sub)
      requires Valid()
      modifies this
      ensures Valid() && Served(old(g), old(h), g, h, c)
      ensures UnsubscribeReplied(old(g), old(h), g, h, c, s) && Says(old(h), h, c)
    {
      hide Agrees, Touched, Served, LostSubscription, Unsubscribed, Offered, Says;
      if Live(g.connections, c) && s in g.connections[c].value.subs {
        UnsubscribeAgrees(g, h, c, s);
        UnsubscribedStanding(g, c, s);
        ghost var l := Link(c, s, g.connections[c].value.subs[s].world);
        g, h := Unsubscribed(g, c, s), Unlinked(h, l);
        NothingSaid(old(h), h, c);
      } else {
        SendError(c, 22, 0);
        TouchedServed(old(g), old(h), g, h, c);
        NotSubscribed(old(g), old(h), g, h, c, s);
      }
    }

    /** A resync of a known subscription ends the stale episode and is counted;
        no other message does either. */
    method HandleResync(c: Conn, s: Sub)
      requires Valid()
      modifies this
      ensures Valid() && About(old(g), old(h), g, h, c) && SameStanding(old(g), g, c)
      ensures EpisodeLasts(old(g), old(h), g, h, c)
      ensures ResyncReplied(old(g), old(h), g, h, c, s) && Says(old(h), h, c)
    {
      hide Agrees, Touched, About, StaleLasts, StaleKept, SameStanding, Offered, Pumped, Since, Accounted, AskedFull, Says;
      var allowed := CheckRate(c, 0);
      if !allowed {
        TouchedServed(old(g), old(h), g, h, c);
        return;
      }
      var e := g.connections[c].value;
      if s !in e.subs {
        SendError(c, 22, 0);
        TouchedServed(old(g), old(h), g, h, c);
        return;
      }
      var e' := e.(stale := false, pendingStale := [], hasPendingStale := false);
      FreshEpisode(e');
      LiveStale(g, h, c);
      ghost var h' := WithOut(h, c, h.outbox[c], Episode(0, []), []);
      EntryAgrees(g, h, c, e', h.outbox[c], Episode(0, []), []);
      StandingSame(g, WithEntry(g, c, e'), c);
      ResyncCounted(g, h, WithEntry(g, c, e'), h', c);
      g, h := WithEntry(g, c, e'), CountedResync(h', c);
      NothingSaid(old(h), h, c);
      ghost var g1, h1 := g, h;
      var refused: bool, code: nat := *, *;
      if refused {
        SendError(c, code, 0);
      } else {
        Pump(c, s, 0);
      }
      TouchedServed(g1, h1, g, h, c);
      AboutChains(old(g), old(h), g1, h1, g, h, c);
      StandingAfter(old(g), g1, h1, g, h, c);
      SaysChains(old(h), h1, h, c);
      assert [] + Offered(h1, h, c) == Offered(h1, h, c);
      FreshOnly(old(h), g1, h1, g, h, c);
    }

    // ---------------------------------------------------------------- calls

    /** A reducer call: refused, with a correlated failure unless the rate
        window refused it, or accepted under a fresh gateway id for the world
        the session is attached to. */
    method HandleCall(c: Conn, client: ClientId)
      requires Valid()
      modifies this
      ensures Valid() && Served(old(g), old(h), g, h, c) && SameStanding(old(g), g, c)
      ensures CallReplied(old(g), old(h), g, h, c, client, maxPendingCalls) && Says(old(h), h, c)
    {
      hide Agrees, Touched, Served, SameStanding, CallsSame, CallTaken, Accepted, Recorded, Offered, Says;
      var allowed := CheckRate(c, 0);
      if !allowed {
        TouchedServed(old(g), old(h), g, h, c);
        return;
      }
      var e := g.connections[c].value;
      var ids := ClientsOf(g.pendingByConnection, c);
      var fits, authorized: bool := *, *;
      if || client >= SERVER_REQUESTS
         || e.session.None? || e.session.value.attached.None?
         || !fits
         || (c in g.pendingByConnection && |ids| >= maxPendingCalls)
         || client in ids
         || !authorized
      {
        var _ := Send(c, ReducerResult(client, false));
        TouchedServed(old(g), old(h), g, h, c);
        return;
      }
      var w := e.session.value.attached.value;
      var submitted: bool := *;
      if submitted {
        AcceptAgrees(g, h, c, client, w);
        AcceptedStanding(g, h, c, client, w);
        h := Recorded(g, h, c, client, w);
        g := Accepted(g, c, client, w);
        NothingSaid(old(h), h, c);
      } else {
        IdSkipped(g, h, c);
        g := g.(nextRequest := g.nextRequest + 1);
        StandingSame(old(g), g, c);
        NothingSaid(old(h), h, c);
        ghost var g1, h1 := g, h;
        Respond(c, ReducerResult(client, false), old(g), old(h));
        TouchedServed(g1, h1, g, h, c);
        StandingAfter(old(g), g1, h1, g, h, c);
      }
    }

    /** The result of call `k` goes to the connection and under the id that
        made it. */
    method AnswerCall(w: World, k: nat, done: bool)
      requires Valid() && (w, k) in g.pendingCalls
      modifies this
      ensures Valid() && Kept(old(g), old(h), g, h) && h.resyncs == old(h).resyncs
      ensures k in h.calls && h.calls[k].fate == Routed(|old(h).answers|)
      ensures h.answers == old(h).answers + [AnswerTo(old(g), (w, k), done)]
      ensures Settles(old(g), old(h), g, h, map[(w, k) := done])
      ensures forall c: Conn :: Heard(old(h), h, c)
    {
      hide Agrees, Touched, Kept, About, StaleLasts, Settles, Attempted, Offered, Since, Due, Heard;
      var pending := g.pendingCalls[(w, k)];
      RouteAgrees(g, h, w, k, done);
      PendingLive(g, h, (w, k));
      ghost var g1, h1 := Answered(g, w, k), Routing(g, h, w, k, done);
      g, h := Answered(g, w, k), Routing(g, h, w, k, done);
      var fits: bool := *;
      var r := Transmit(pending.conn, ReducerResult(pending.client, done), fits);
      TouchedKept(g1, h1, g, h, pending.conn);
      KeptChains(old(g), old(h), g1, h1, g, h);
      RouteStands(g1, h1, g, h, pending.conn, k);
      AnswerHeard(old(g), old(h), g1, h1, g, h, w, k, done, r, Overflow());
      AnswerSettles(old(g), old(h), g, h, w, k, done, r, Overflow());
    }

    /** Results of committed calls, in call order. The runtime may echo any
        id; unknown ones are ignored. */
    method RouteResults(w: World, results: seq<(nat, bool)>)
      requires Valid()
      modifies this
      ensures Valid() && Kept(old(g), old(h), g, h) && h.resyncs == old(h).resyncs
      ensures Settles(old(g), old(h), g, h, Firsts(w, results))
      ensures forall c: Conn :: Heard(old(h), h, c)
      ensures Within(Outcomes(News(old(h), h)), results)
      ensures forall i :: 0 <= i < |results| ==> (w, results[i].0) !in g.pendingCalls
    {
      hide Agrees, Kept, Settles, Heard, News, Outcomes, Within, AnswerTo;
      KeptSelf(g, h);
      SettlesNothing(g, h, map[]);
      NothingHeard(h);
      NoNews(h, results);
      for i := 0 to |results|
        invariant Valid() && Kept(old(g), old(h), g, h) && h.resyncs == old(h).resyncs
        invariant Settles(old(g), old(h), g, h, Firsts(w, results[..i]))
        invariant forall c: Conn :: Heard(old(h), h, c)
        invariant Within(Outcomes(News(old(h), h)), results[..i])
      {
        ghost var g1, h1 := g, h;
        ghost var v := map[(w, results[i].0) := results[i].1];
        if (w, results[i].0) in g.pendingCalls {
          AnswerCall(w, results[i].0, results[i].1);
          OutcomeRouted(old(h), g1, h1, h, w, results, i);
        } else {
          KeptSelf(g, h);
          SettlesNothing(g, h, v);
          NothingHeard(h);
          OutcomeSkipped(old(h), h, results, i);
        }
        SettlesChains(old(g), old(h), g1, h1, g, h, Firsts(w, results[..i]), v);
        FirstsGrow(w, results, i);
        HeardChains(old(h), h1, h);
        KeptChains(old(g), old(h), g1, h1, g, h);
      }
      assert results[..|results|] == results;
      NoneLeft(old(g), old(h), g, h, w, results);
    }

    /** Calls of worlds that no longer run are answered with a failure. */
    method SweepCalls(dead: set<World>)
      requires Valid()
      modifies this
      ensures Valid() && Kept(old(g), old(h), g, h) && h.resyncs == old(h).resyncs
      ensures Settles(old(g), old(h), g, h, Swept(old(g).pendingCalls, dead))
      ensures forall c: Conn :: Heard(old(h), h, c)
      ensures forall key :: key in g.pendingCalls ==> key.0 !in dead
    {
      hide Agrees, Kept, Settles, Heard, Failing, Swept;
      KeptSelf(g, h);
      NothingHeard(h);
      var unresolved := map key | key in g.pendingCalls && key.0 in dead :: g.pendingCalls[key];
      var rest := unresolved.Keys;
      SweepBegins(g, h, unresolved.Keys, rest);
      while rest != {}
        invariant Valid() && Kept(old(g), old(h), g, h) && h.resyncs == old(h).resyncs
        invariant rest <= unresolved.Keys && Settles(old(g), old(h), g, h, Failing(unresolved.Keys - rest))
        invariant forall c: Conn :: Heard(old(h), h, c)
        decreases |rest|
      {
        var key :| key in rest;
        ghost var g1, h1 := g, h;
        if key in g.pendingCalls {
          AnswerCall(key.0, key.1, false);
        } else {
          CallerGone(old(g), old(h), g, h, unresolved.Keys - rest, key);
          var _ := Send(unresolved[key].conn, ReducerResult(unresolved[key].client, false));
          KeptSelf(g, h);
          SettlesNothing(g, h, map[key := false]);
          NothingHeard(h);
        }
        SettlesChains(old(g), old(h), g1, h1, g, h, Failing(unresolved.Keys - rest), map[key := false]);
        FailingGrows(unresolved.Keys, rest, key);
        HeardChains(old(h), h1, h);
        KeptChains(old(g), old(h), g1, h1, g, h);
        rest := rest - {key};
      }
      FailingAll(old(g).pendingCalls, dead, unresolved.Keys, rest);
      SweptAway(old(g), old(h), g, h, dead);
    }

    // -------------------------------------------------------------- fan-out

    /** A message whose frame is encoded already. */
    method SendShared(c: Conn, m: Message)
      requires Valid() && !IsSuccess(m)
      modifies this
      ensures Valid() && Touched(old(g), old(h), g, h, c) && Offered(old(h), h, c) == Meant(old(g), c, m)
      ensures Says(old(h), h, c)
    {
      hide Agrees, Touched, Due, Attempted, Offered, Since, Says, Conveys;
      if !Live(g.connections, c) {
        DeadTouched(g, h, c);
        NothingSaid(h, h, c);
        return;
      }
      Announce(c, m);
      ghost var h1 := h;
      var r := SendEncoded(c, m);
      TouchedLog(old(g), h1, g, h, c);
      TouchedChains(old(g), old(h), old(g), h1, g, h, c);
      OfferAttempted(old(g), old(h), g, h, c, m, r, Overflow());
      AttemptedConveys(old(g), old(h), g, h, c, m, r, Overflow());
      TouchedLog(old(g), old(h), g, h, c);
      SaysMeant(old(g), old(h), h, c, m, r == Some(true));
    }

    /** One tick update, encoded once, to everybody attached to the world. */
    method Broadcast(o: Outcome)
      requires Valid()
      modifies this
      ensures Valid() && Kept(old(g), old(h), g, h) && h.resyncs == old(h).resyncs
      ensures Settles(old(g), old(h), g, h, map[])
      ensures Broadcasted(Snap(old(g), old(h)), Snap(g, h), o, skipEmpty)
    {
      hide Agrees, Touched, Kept, Settles, ToldSome, Says, Offered, ResultsIn;
      KeptSelf(g, h);
      SettlesNothing(g, h, map[]);
      ToldNobody(h, TickUpdate(o.world));
      var all := if o.world in g.attachedByWorld then g.attachedByWorld[o.world] else {};
      WhoIsAttached(g, h, o.world);
      var rest := if (o.content || !skipEmpty) && o.fits then all else {};
      ghost var due := rest;
      while rest != {}
        invariant Valid() && Kept(old(g), old(h), g, h) && h.resyncs == old(h).resyncs
        invariant Settles(old(g), old(h), g, h, map[]) && rest <= due
        invariant ToldSome(old(h), h, due - rest, TickUpdate(o.world))
        invariant forall c :: c in rest ==> Live(g.connections, c)
        decreases |rest|
      {
        var c :| c in rest;
        ghost var g1, h1 := g, h;
        SendShared(c, TickUpdate(o.world));
        NoResults([TickUpdate(o.world)]);
        QuietStep(old(g), old(h), g1, h1, g, h, c);
        ToldNext(old(h), g1, h1, g, h, c, due, rest, TickUpdate(o.world));
        rest := rest - {c};
      }
      assert due - {} == due;
      ToldThose(old(h), h, due, TickUpdate(o.world));
    }

    /** Drained updates to the subscribers of the world, each subscription's
        to the first subscriber listed. */
    method Deliver(o: Outcome)
      requires Valid()
      modifies this
      ensures Valid() && Kept(old(g), old(h), g, h) && h.resyncs == old(h).resyncs
      ensures Settles(old(g), old(h), g, h, map[])
      ensures Delivered(Snap(old(g), old(h)), Snap(g, h), o)
    {
      hide Agrees, Touched, Kept, Settles, Says, Offered, ResultsIn, DeliveredSoFar, SubsIn, Deliveries, UpdateMessages;
      KeptSelf(g, h);
      SettlesNothing(g, h, map[]);
      var subscribers := if o.changed then Subscribers(g, o.world) else [];
      var left := o.drained;
      NoneDelivered(g, h, subscribers, o.drained);
      for i := 0 to |subscribers|
        invariant Valid() && Kept(old(g), old(h), g, h) && h.resyncs == old(h).resyncs
        invariant Settles(old(g), old(h), g, h, map[]) && left == o.drained - SubsIn(subscribers[..i])
        invariant DeliveredSoFar(old(h), g, h, subscribers[..i], o.drained)
      {
        var (c, s) := subscribers[i];
        ghost var g1, h1 := g, h;
        if s in left {
          SendUpdates(c, s, 0, left[s], false);
          NoResultsThere(s, 0, left[s], Offered(h1, h, c));
          QuietStep(old(g), old(h), g1, h1, g, h, c);
          TouchedServed(g1, h1, g, h, c);
          DeliverNext(old(h), g1, h1, g, h, subscribers, o.drained, i);
          left := left - {s};
        } else {
          DeliverSkip(old(h), g, h, subscribers, o.drained, i);
        }
        DeliveriesGrow(subscribers, o.drained, 0, i);
      }
      assert subscribers[..|subscribers|] == subscribers;
      AllDelivered(old(g), old(h), g, h, subscribers, o);
    }

    /** One world's tick: the broadcast, then updates, then results. */
    method FanWorld(o: Outcome)
      requires Valid()
      modifies this
      ensures Valid() && Kept(old(g), old(h), g, h) && h.resyncs == old(h).resyncs
      ensures Settles(old(g), old(h), g, h, Firsts(o.world, o.results))
      ensures WorldServed(Snap(old(g), old(h)), Snap(g, h), o, skipEmpty)
    {
      hide Agrees, Kept, Settles, Broadcasted, Delivered, Heard, Firsts, Within, Outcomes;
      Broadcast(o);
      ghost var s := Snap(g, h);
      Deliver(o);
      ghost var t := Snap(g, h);
      KeptChains(old(g), old(h), s.g, s.h, t.g, t.h);
      SettlesChains(old(g), old(h), s.g, s.h, t.g, t.h, map[], map[]);
      RouteResults(o.world, o.results);
      KeptChains(old(g), old(h), t.g, t.h, g, h);
      SettlesChains(old(g), old(h), t.g, t.h, g, h, map[] + map[], Firsts(o.world, o.results));
      assert Firsts(o.world, o.results) + (map[] + map[]) == Firsts(o.world, o.results);
      assert Broadcasted(Snap(old(g), old(h)), s, o, skipEmpty) && Delivered(s, t, o) && Routes(t, Snap(g, h), o);
    }

    /** The results of one step of all worlds. */
    method FanOut(outcomes: seq<Outcome>, dead: set<World>) returns (ghost trace: seq<Snap>)
      requires Valid()
      modifies this
      ensures Valid() && Kept(old(g), old(h), g, h) && h.resyncs == old(h).resyncs
      ensures Settles(old(g), old(h), g, h, Verdicts(old(g).pendingCalls, outcomes, dead))
      ensures FansOut(trace, outcomes, skipEmpty) && trace[0] == Snap(old(g), old(h))
      ensures Sweeps(trace[|outcomes|], Snap(g, h), dead)
    {
      hide Agrees, Kept, Settles, WorldServed, Heard, Firsts, Reported, Swept;
      KeptSelf(g, h);
      SettlesNothing(g, h, map[]);
      ReportedNone(outcomes);
      trace := [Snap(g, h)];
      for i := 0 to |outcomes|
        invariant Valid() && Kept(old(g), old(h), g, h) && h.resyncs == old(h).resyncs
        invariant Settles(old(g), old(h), g, h, Reported(outcomes[..i]))
        invariant FansOut(trace, outcomes[..i], skipEmpty) && trace[0] == Snap(old(g), old(h)) && trace[i] == Snap(g, h)
      {
        ghost var g1, h1 := g, h;
        FanWorld(outcomes[i]);
        FanFurther(trace, outcomes, i, Snap(g, h), skipEmpty);
        trace := trace + [Snap(g, h)];
        SettlesChains(old(g), old(h), g1, h1, g, h, Reported(outcomes[..i]), Firsts(outcomes[i].world, outcomes[i].results));
        KeptChains(old(g), old(h), g1, h1, g, h);
      }
      assert outcomes[..|outcomes|] == outcomes;
      ghost var g1, h1 := g, h;
      SweepCalls(dead);
      SweepVerdicts(old(g), old(h), g1, h1, g, h, outcomes, dead);
      KeptChains(old(g), old(h), g1, h1, g, h);
    }

    /** Transports that fail lose their connection. */
    method DropAll(lost: seq<Conn>)
      requires Valid()
      modifies this
      ensures Valid() && Kept(old(g), old(h), g, h) && h.resyncs == old(h).resyncs
      ensures OnlyLoses(Snap(old(g), old(h)), Snap(g, h), lost)
    {
      hide Agrees, Touched, Kept, OnlyLoses;
      KeptSelf(g, h);
      LosesNothing(g, h, lost[..0]);
      for i := 0 to |lost|
        invariant Valid() && Kept(old(g), old(h), g, h) && h.resyncs == old(h).resyncs
        invariant OnlyLoses(Snap(old(g), old(h)), Snap(g, h), lost[..i])
      {
        ghost var g1, h1 := g, h;
        DropConnection(lost[i]);
        LosesOne(old(g), old(h), g1, h1, g, h, lost, i);
      }
      assert lost[..|lost|] == lost;
    }

    /** Every subscription of every connection is pumped. */
    method PumpEverything(broken: seq<Conn>) returns (ghost s: Snap)
      requires Valid()
      modifies this
      ensures Valid() && Kept(old(g), old(h), g, h) && h.resyncs == old(h).resyncs
      ensures PumpedAll(Snap(old(g), old(h)), s) && OnlyLoses(s, Snap(g, h), broken)
    {
      hide Agrees, Kept, PumpedUpTo, OnlyLoses, PumpedAll;
      KeptSelf(g, h);
      PumpedNone(g, h);
      var n := |g.connections|;
      for c := 0 to n
        invariant Valid() && Kept(old(g), old(h), g, h) && h.resyncs == old(h).resyncs
        invariant PumpedUpTo(old(g), old(h), g, h, c)
      {
        ghost var g1, h1 := g, h;
        PumpConnection(c);
        PumpedNext(old(g), old(h), g1, h1, g, h, c);
        KeptChains(old(g), old(h), g1, h1, g, h);
      }
      PumpedThrough(old(g), old(h), g, h, n);
      s := Snap(g, h);
      DropAll(broken);
      KeptChains(old(g), old(h), s.g, s.h, g, h);
    }

    /** Every subscription of one connection. */
    method PumpConnection(c: Conn)
      requires Valid()
      modifies this
      ensures Valid() && Kept(old(g), old(h), g, h) && h.resyncs == old(h).resyncs && Touched(old(g), old(h), g, h, c)
      ensures Says(old(h), h, c) && PumpedSubs(Offered(old(h), h, c), SubsOf(old(g).connections, c))
      ensures Live(g.connections, c) == Live(old(g).connections, c)
    {
      hide Agrees, Kept, Touched, Says, Offered, UpdateMessages, NoDup;
      KeptSelf(g, h);
      SelfTouched(g, h, c);
      NothingSaid(h, h, c);
      var subs: seq<Sub> := [];
      if Live(g.connections, c) {
        subs := KeysOf(g.connections[c].value.subs);
      }
      ghost var us: seq<seq<Update>> := [];
      for i := 0 to |subs|
        invariant Valid() && Kept(old(g), old(h), g, h) && h.resyncs == old(h).resyncs && Touched(old(g), old(h), g, h, c)
        invariant Live(g.connections, c) == Live(old(g).connections, c) && |us| == i
        invariant Says(old(h), h, c) && Offered(old(h), h, c) == AllUpdates(subs[..i], us)
      {
        ghost var g1, h1 := g, h;
        var updates: seq<Update> := *;
        SendUpdates(c, subs[i], 0, updates, true);
        TouchedKept(g1, h1, g, h, c);
        KeptChains(old(g), old(h), g1, h1, g, h);
        TouchedChains(old(g), old(h), g1, h1, g, h, c);
        SaysChains(old(h), h1, h, c);
        AllUpdatesGrow(subs, us, i, updates);
        us := us + [updates];
      }
      assert subs[..|subs|] == subs;
      PumpedThem(subs, us, SubsOf(old(g).connections, c));
    }

    // -------------------------------------------------------------- inbound

    function Config(): Limits { Limits(maxSubscriptions, maxPendingCalls, skipEmpty, maxPayload) }

    method Dispatch(c: Conn, request: Request)
      requires Valid()
      modifies this
      ensures Valid() && About(old(g), old(h), g, h, c) && EpisodeLasts(old(g), old(h), g, h, c)
      ensures !request.Resync? ==> h.resyncs == old(h).resyncs
      ensures Replied(old(g), old(h), g, h, c, request, Config()) && Says(old(h), h, c)
    {
      hide Agrees, About, StaleLasts, SameStanding, Says, Offered, Attempted, HandshakeReplied, AuthReplied, AttachReplied,
           InputReplied, SubscribeReplied, UnsubscribeReplied, ResyncReplied, DetachReplied, CallReplied;
      match request {
        case Handshake(supported) => HandleHandshake(c, supported);
        case Authenticate => HandleAuthenticate(c);
        case AttachWorld(world) => HandleAttach(c, world);
        case InputFrame => HandleInput(c);
        case Subscribe(id) => HandleSubscribe(c, id);
        case Unsubscribe(sub) => HandleUnsubscribe(c, sub);
        case Resync(sub) => HandleResync(c, sub);
        case DetachWorld => HandleDetach(c);
        case CallReducer(client) => HandleCall(c, client);
        case Ping(nonce) => var _ := Send(c, Pong(nonce));
      }
    }

    /** A frame that does not decode costs the connection. */
    method Reject(c: Conn, code: nat)
      requires Valid()
      modifies this
      ensures Valid() && Touched(old(g), old(h), g, h, c) && !Live(g.connections, c)
      ensures Offered(old(h), h, c) == Meant(old(g), c, ErrorNotice(code, 0)) && Says(old(h), h, c)
    {
      hide Agrees, Touched, Offered, Says;
      SendError(c, code, 0);
      ghost var g1, h1 := g, h;
      DropConnection(c);
      TouchedChains(old(g), old(h), g1, h1, g, h, c);
      NothingSaid(h1, h, c);
      SaysChains(old(h), h1, h, c);
    }

    /** One inbound pass: failed transports are dropped first, then the
        collected frames are dispatched in order, and what is queued is flushed. */
    method ProcessInbound(failed: seq<Conn>, frames: seq<Inbound>, broken: seq<Conn>)
      requires Valid()
      modifies this
      ensures Valid() && Kept(old(g), old(h), g, h)
      ensures forall c: Conn :: NoResync(frames, c) ==> ResyncsOf(h, c) == ResyncsOf(old(h), c)
      ensures Processed(Snap(old(g), old(h)), Snap(g, h), failed, frames, broken, Config())
    {
      hide Agrees, Kept, ResyncsOf, NoResync, OnlyLoses, FrameServed, Serves, Processed;
      DropAll(failed);
      SameResyncs(old(h), h);
      ghost var trace := [Snap(g, h)];
      ServesNone(trace, frames, Config());
      for i := 0 to |frames|
        invariant Valid() && Kept(old(g), old(h), g, h)
        invariant forall c: Conn :: NoResync(frames[..i], c) ==> ResyncsOf(h, c) == ResyncsOf(old(h), c)
        invariant |trace| == i + 1 && trace[i] == Snap(g, h) && Serves(trace, frames[..i], Config())
        invariant OnlyLoses(Snap(old(g), old(h)), trace[0], failed)
      {
        ghost var g1, h1 := g, h;
        Receive(frames[i]);
        KeptChains(old(g), old(h), g1, h1, g, h);
        forall c: Conn | NoResync(frames[..i + 1], c)
          ensures ResyncsOf(h, c) == ResyncsOf(old(h), c)
        {
          NoResyncSoFar(frames, i, c);
        }
        ServesFurther(trace, frames, i, Snap(g, h), Config());
        trace := trace + [Snap(g, h)];
      }
      assert frames[..|frames|] == frames;
      ghost var g1, h1 := g, h;
      DropAll(broken);
      SameResyncs(h1, h);
      KeptChains(old(g), old(h), g1, h1, g, h);
      ProcessedBy(Snap(old(g), old(h)), Snap(g, h), trace, failed, frames, broken, Config());
    }

    /** One frame. */
    method Receive(f: Inbound)
      requires Valid()
      modifies this
      ensures Valid() && Kept(old(g), old(h), g, h)
      ensures forall c: Conn :: !Asks(f, c) ==> ResyncsOf(h, c) == ResyncsOf(old(h), c)
      ensures FrameServed(Snap(old(g), old(h)), Snap(g, h), f, Config())
    {
      hide Agrees, Touched, Kept, About, StaleLasts, EpisodeLasts, ResyncsOf, Says, Offered, Replied;
      match f.request {
        case Some(request) =>
          Dispatch(f.conn, request);
          AboutKept(old(g), old(h), g, h, f.conn);
          if !request.Resync? { SameResyncs(old(h), h); }
          forall c: Conn | c != f.conn
            ensures ResyncsOf(h, c) == ResyncsOf(old(h), c)
          {
            OthersNotResynced(old(g), old(h), g, h, f.conn, c);
          }
        case None =>
          var code: nat := *;
          Reject(f.conn, code);
          TouchedKept(old(g), old(h), g, h, f.conn);
          TouchedServed(old(g), old(h), g, h, f.conn);
          SameResyncs(old(h), h);
      }
    }

    method Handle(event: Event)
      requires Valid()
      modifies this
      ensures Valid() && Kept(old(g), old(h), g, h)
      ensures forall c: Conn :: (event.Process? ==> NoResync(event.frames, c)) ==> ResyncsOf(h, c) == ResyncsOf(old(h), c)
      ensures Handled(Snap(old(g), old(h)), Snap(g, h), event, Config(), maxConnections)
    {
      hide Agrees, Touched, Kept, ResyncsOf, NoResync, Settles, FansOut, Sweeps, OnlyLoses, Processed, PumpedAll, Says,
           About, Offered, Quiet, Since;
      match event {
        case Connect =>
          KeptSelf(g, h);
          AddedKept(g, h);
          var _ := RegisterConnection();
          SameResyncs(old(h), h);
        case Process(failed, frames, broken) => ProcessInbound(failed, frames, broken);
        case Step(outcomes, dead, broken) =>
          ghost var trace := FanOut(outcomes, dead);
          ghost var s := Snap(g, h);
          DropAll(broken);
          KeptChains(old(g), old(h), s.g, s.h, g, h);
          SameResyncs(old(h), h);
          SteppedBy(Snap(old(g), old(h)), s, Snap(g, h), trace, outcomes, dead, broken, skipEmpty);
        case PumpAll(broken) =>
          ghost var s := PumpEverything(broken);
          SameResyncs(old(h), h);
        case Close(c, reason) =>
          DisconnectConnection(c, reason);
          SaysQuiet(old(h), h, c);
          TouchedKept(old(g), old(h), g, h, c);
          TouchedServed(old(g), old(h), g, h, c);
          SameResyncs(old(h), h);
      }
    }

    /** Any run goes event by event; it keeps the invariants, what was said and
        the fate of calls; and the stale episode of a session that does not ask
        for a resync lasts as long as its connection. */
    method Run(events: seq<Event>) returns (ghost trace: seq<Snap>)
      requires Valid()
      modifies this
      ensures Valid() && Kept(old(g), old(h), g, h)
      ensures forall c: Conn :: c < |old(g).connections| && NeverResyncs(events, c) ==> StaleLasts(old(g), old(h), g, h, c)
      ensures Runs(trace, events, Config(), maxConnections)
      ensures trace[0] == Snap(old(g), old(h)) && trace[|events|] == Snap(g, h)
    {
      hide Agrees, Kept, ResyncsOf, NoResync, NeverResyncs, StaleLasts, Handled;
      KeptSelf(g, h);
      trace := [Snap(g, h)];
      for i := 0 to |events|
        invariant Valid() && Kept(old(g), old(h), g, h)
        invariant forall c: Conn :: NeverResyncs(events[..i], c) ==> ResyncsOf(h, c) == ResyncsOf(old(h), c)
        invariant |trace| == i + 1 && trace[0] == Snap(old(g), old(h)) && trace[i] == Snap(g, h)
        invariant Runs(trace, events[..i], Config(), maxConnections)
      {
        ghost var g1, h1 := g, h;
        Handle(events[i]);
        KeptChains(old(g), old(h), g1, h1, g, h);
        forall c: Conn | NeverResyncs(events[..i + 1], c)
          ensures ResyncsOf(h, c) == ResyncsOf(old(h), c)
        {
          NeverSoFar(events, i, c);
        }
        trace := trace + [Snap(g, h)];
      }
      assert events[..|events|] == events;
      forall c: Conn | c < |old(g).connections| && NeverResyncs(events, c)
        ensures StaleLasts(old(g), old(h), g, h, c)
      {
        EpisodeKept(old(g), old(h), g, h, c);
      }
    }
  }
}
