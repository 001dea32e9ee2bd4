/** The gateway's bookkeeping as values (`crates/nexum-network/src/gateway.rs`):
    what its redundant indexes have to say about one another. */
module GatewayState {
  import opened Values
  import opened GatewayLog

  datatype Session = Session(id: nat, principal: nat, attached: Option<World>)
  datatype NetSub = NetSub(world: World, server: Sub)
  datatype Entry = Entry(
    session: Option<Session>, subs: map<Sub, NetSub>,
    stale: bool, pendingStale: seq<Message>, hasPendingStale: bool)

  /** The connection slab. */
  type Slots = seq<Option<Entry>>

  function NewEntry(): Entry { Entry(None, map[], false, [], false) }

  predicate Live(conns: Slots, c: Conn) { 0 <= c < |conns| && conns[c].Some? }

  function AttachedTo(conns: Slots, c: Conn): Option<World>
  {
    if Live(conns, c) && conns[c].value.session.Some? then conns[c].value.session.value.attached else None
  }

  function SubsOf(conns: Slots, c: Conn): map<Sub, NetSub>
  {
    if Live(conns, c) then conns[c].value.subs else map[]
  }

  function LiveCount(conns: Slots): nat
  {
    if conns == [] then 0 else LiveCount(conns[..|conns| - 1]) + if conns[|conns| - 1].Some? then 1 else 0
  }

  lemma {:induction false} DropCounts(conns: Slots, c: Conn)
    requires Live(conns, c)
    ensures LiveCount(conns) == LiveCount(conns[c := None]) + 1
  {
    var last := |conns| - 1;
    if c < last {
      DropCounts(conns[..last], c);
      assert conns[c := None][..last] == conns[..last][c := None];
    } else {
      assert conns[c := None][..last] == conns[..last];
    }
  }

  lemma {:induction false} ChangeCounts(conns: Slots, c: Conn, e: Entry)
    requires Live(conns, c)
    ensures LiveCount(conns) == LiveCount(conns[c := Some(e)])
  {
    var last := |conns| - 1;
    if c < last {
      ChangeCounts(conns[..last], c, e);
      assert conns[c := Some(e)][..last] == conns[..last][c := Some(e)];
    } else {
      assert conns[c := Some(e)][..last] == conns[..last];
    }
  }

  // ---------------------------------------------------------- attachments

  /** A connection attached to a world. */
  datatype Seat = Seat(conn: Conn, world: World)

  ghost predicate SeatedSessions(conns: Slots, seats: set<Seat>)
  {
    forall c: Conn, w: World :: Seat(c, w) in seats <==> AttachedTo(conns, c) == Some(w)
  }

  ghost predicate SeatedIndex(attached: map<World, set<Conn>>, seats: set<Seat>)
  {
    && (forall c: Conn, w: World :: Seat(c, w) in seats <==> w in attached && c in attached[w])
    && (forall w :: w in attached ==> attached[w] != {})
  }

  /** The index after `c` leaves `w`; an emptied set goes away. */
  function Left(attached: map<World, set<Conn>>, c: Conn, w: World): map<World, set<Conn>>
  {
    if w !in attached then attached
    else if attached[w] - {c} == {} then attached - {w}
    else attached[w := attached[w] - {c}]
  }

  function Joined(attached: map<World, set<Conn>>, c: Conn, w: World): map<World, set<Conn>>
  {
    attached[w := (if w in attached then attached[w] else {}) + {c}]
  }

  lemma LeftSeats(attached: map<World, set<Conn>>, seats: set<Seat>, c: Conn, w: World)
    requires SeatedIndex(attached, seats)
    ensures SeatedIndex(Left(attached, c, w), seats - {Seat(c, w)})
  {
    if w in attached && attached[w] - {c} == {} {
      assert forall d :: d in attached[w] ==> d == c || d in attached[w] - {c};
    }
  }

  lemma JoinedSeats(attached: map<World, set<Conn>>, seats: set<Seat>, c: Conn, w: World)
    requires SeatedIndex(attached, seats)
    ensures SeatedIndex(Joined(attached, c, w), seats + {Seat(c, w)})
  {
    assert c in Joined(attached, c, w)[w];
  }

  // --------------------------------------------------------- subscriptions

  /** A subscription of a connection on a world. */
  datatype Link = Link(conn: Conn, sub: Sub, world: World)

  ghost predicate NoDup<T(!new)>(s: seq<T>)
  {
    forall i, j :: 0 <= i < j < |s| ==> s[i] != s[j]
  }

  /** `retain(|x| x != y)`. */
  function Without<T(==)>(s: seq<T>, y: T): seq<T>
  {
    if s == [] then [] else (if s[0] == y then [] else [s[0]]) + Without(s[1..], y)
  }

  lemma {:induction false} WithoutExact<T(!new)>(s: seq<T>, y: T)
    ensures forall x :: x in Without(s, y) <==> x in s && x != y
    ensures NoDup(s) ==> NoDup(Without(s, y))
  {
    if s != [] {
      WithoutExact(s[1..], y);
      assert s == [s[0]] + s[1..];
      if NoDup(s) {
        assert NoDup(s[1..]);
        assert s[0] !in s[1..];
      }
    }
  }

  ghost predicate LinkedSessions(conns: Slots, links: set<Link>)
  {
    forall c: Conn, s: Sub, w: World :: Link(c, s, w) in links <==> s in SubsOf(conns, c) && SubsOf(conns, c)[s].world == w
  }

  /** Subscriptions are keyed by their runtime id. */
  ghost predicate KeyedByServer(conns: Slots)
  {
    forall c: Conn, s: Sub :: s in SubsOf(conns, c) ==> SubsOf(conns, c)[s].server == s
  }

  type WorldSubs = map<World, seq<(Conn, Sub)>>
  type Reverse = map<World, map<Sub, seq<Conn>>>

  ghost predicate LinkedSubscribers(ws: WorldSubs, links: set<Link>)
  {
    && (forall c: Conn, s: Sub, w: World :: Link(c, s, w) in links <==> w in ws && (c, s) in ws[w])
    && (forall w :: w in ws ==> NoDup(ws[w]))
  }

  ghost predicate LinkedReverse(rev: Reverse, links: set<Link>)
  {
    && (forall c: Conn, s: Sub, w: World :: Link(c, s, w) in links <==> w in rev && s in rev[w] && c in rev[w][s])
    && (forall w: World, s: Sub :: w in rev && s in rev[w] ==> rev[w][s] != [] && NoDup(rev[w][s]))
  }

  function UnlinkedSubscribers(ws: WorldSubs, l: Link): WorldSubs
  {
    if l.world in ws then ws[l.world := Without(ws[l.world], (l.conn, l.sub))] else ws
  }

  function UnlinkedReverse(rev: Reverse, l: Link): Reverse
  {
    if l.world !in rev || l.sub !in rev[l.world] then rev
    else
      var list := Without(rev[l.world][l.sub], l.conn);
      var inner: map<Sub, seq<Conn>> :=
        if list == [] then rev[l.world] - {l.sub} else rev[l.world][l.sub := list];
      rev[l.world := inner]
  }

  lemma UnlinkSubscribers(ws: WorldSubs, links: set<Link>, l: Link)
    requires LinkedSubscribers(ws, links)
    ensures LinkedSubscribers(UnlinkedSubscribers(ws, l), links - {l})
  {
    if l.world in ws { WithoutExact(ws[l.world], (l.conn, l.sub)); }
  }

  lemma UnlinkReverse(rev: Reverse, links: set<Link>, l: Link)
    requires LinkedReverse(rev, links)
    ensures LinkedReverse(UnlinkedReverse(rev, l), links - {l})
  {
    if l.world in rev && l.sub in rev[l.world] {
      WithoutExact(rev[l.world][l.sub], l.conn);
      var list := Without(rev[l.world][l.sub], l.conn);
      assert list == [] ==> forall c :: c in rev[l.world][l.sub] ==> c == l.conn;
    }
  }

  function LinkedInSubscribers(ws: WorldSubs, l: Link): WorldSubs
  {
    ws[l.world := (if l.world in ws then ws[l.world] else []) + [(l.conn, l.sub)]]
  }

  function LinkedInReverse(rev: Reverse, l: Link): Reverse
  {
    var inner: map<Sub, seq<Conn>> := if l.world in rev then rev[l.world] else map[];
    var more: map<Sub, seq<Conn>> := inner[l.sub := (if l.sub in inner then inner[l.sub] else []) + [l.conn]];
    rev[l.world := more]
  }

  lemma LinkSubscribers(ws: WorldSubs, links: set<Link>, l: Link)
    requires LinkedSubscribers(ws, links) && l !in links
    ensures LinkedSubscribers(LinkedInSubscribers(ws, l), links + {l})
  {
  }

  lemma LinkReverse(rev: Reverse, links: set<Link>, l: Link)
    requires LinkedReverse(rev, links) && l !in links
    ensures LinkedReverse(LinkedInReverse(rev, l), links + {l})
  {
  }

  // ------------------------------------------------------------ the calls

  /** What became of an accepted reducer call: still waiting, answered (the
      n-th answer), or dropped with its caller's attachment. */
  datatype Fate = Waiting | Routed(n: nat) | Discarded

  datatype Record = Record(world: World, conn: Conn, client: ClientId, fate: Fate)
  datatype PendingCall = PendingCall(conn: Conn, client: ClientId)

  type Calls = map<nat, Record>
  type PendingCalls = map<(World, nat), PendingCall>

  /** The pending map holds exactly the waiting calls. */
  ghost predicate PendingAgrees(pending: PendingCalls, calls: Calls)
  {
    && (forall w: World, g: nat :: (w, g) in pending ==>
          g in calls && calls[g] == Record(w, pending[(w, g)].conn, pending[(w, g)].client, Waiting))
    && (forall g :: Waits(calls, g) ==> (calls[g].world, g) in pending)
  }

  /** The per-connection index holds exactly the client ids of the waiting
      calls, no two of which share one. */
  ghost predicate ByConnAgrees(byConn: map<Conn, set<ClientId>>, calls: Calls)
  {
    && (forall g :: Waits(calls, g) ==> calls[g].conn in byConn && calls[g].client in byConn[calls[g].conn])
    && (forall c: Conn, id: ClientId :: c in byConn && id in byConn[c] ==> ClientWaits(calls, c, id))
    && (forall g, h :: Waits(calls, g) && Waits(calls, h) && SameCaller(calls[g], calls[h]) ==> g == h)
  }

  predicate Waits(calls: Calls, g: nat) { g in calls && calls[g].fate.Waiting? }

  predicate SameCaller(a: Record, b: Record) { a.conn == b.conn && a.client == b.client }

  ghost predicate ClientWaits(calls: Calls, c: Conn, id: ClientId)
  {
    exists g :: Waits(calls, g) && calls[g].conn == c && calls[g].client == id
  }

  /** Whoever waits is still attached to the world of the call. */
  ghost predicate CallersSeated(calls: Calls, seats: set<Seat>)
  {
    forall g :: Waits(calls, g) ==> Seat(calls[g].conn, calls[g].world) in seats
  }

  /** Every answer went to the connection and client id of its call, once. */
  ghost predicate AnswersAgree(answers: seq<Answer>, calls: Calls)
  {
    && (forall n :: 0 <= n < |answers| ==>
          && answers[n].call in calls
          && calls[answers[n].call].fate == Routed(n)
          && answers[n].conn == calls[answers[n].call].conn
          && answers[n].client == calls[answers[n].call].client)
    && (forall g :: g in calls && calls[g].fate.Routed? ==>
          calls[g].fate.n < |answers| && answers[calls[g].fate.n].call == g)
  }

  ghost predicate IdsBelow(calls: Calls, next: nat)
  {
    forall g :: g in calls ==> g < next
  }

  /** Calls once accepted keep their caller, and their fate once it is sealed. */
  ghost predicate Evolved(a: Calls, b: Calls)
  {
    forall g :: g in a ==>
      && g in b && b[g].world == a[g].world && b[g].conn == a[g].conn && b[g].client == a[g].client
      && (!a[g].fate.Waiting? ==> b[g] == a[g])
  }

  /** The waiting calls of `c` are dropped. */
  ghost function DiscardedFor(calls: Calls, c: Conn): Calls
  {
    map g | g in calls :: if calls[g].conn == c && calls[g].fate.Waiting? then calls[g].(fate := Discarded) else calls[g]
  }

  function PendingWithout(pending: PendingCalls, c: Conn): PendingCalls
  {
    map k | k in pending && pending[k].conn != c :: pending[k]
  }

  lemma DiscardAgrees(pending: PendingCalls, byConn: map<Conn, set<ClientId>>, calls: Calls, c: Conn)
    requires PendingAgrees(pending, calls) && ByConnAgrees(byConn, calls)
    ensures PendingAgrees(PendingWithout(pending, c), DiscardedFor(calls, c))
    ensures ByConnAgrees(byConn - {c}, DiscardedFor(calls, c))
  {
    DiscardPending(pending, calls, c);
    DiscardByConn(byConn, calls, c);
  }

  lemma DiscardPending(pending: PendingCalls, calls: Calls, c: Conn)
    requires PendingAgrees(pending, calls)
    ensures PendingAgrees(PendingWithout(pending, c), DiscardedFor(calls, c))
  {
  }

  lemma DiscardByConn(byConn: map<Conn, set<ClientId>>, calls: Calls, c: Conn)
    requires ByConnAgrees(byConn, calls)
    ensures ByConnAgrees(byConn - {c}, DiscardedFor(calls, c))
  {
    var after := DiscardedFor(calls, c);
    forall d, id | d in byConn - {c} && id in (byConn - {c})[d]
      ensures ClientWaits(after, d, id)
    {
      assert ClientWaits(calls, d, id);
      var g :| Waits(calls, g) && calls[g].conn == d && calls[g].client == id;
      assert after[g] == calls[g];
    }
  }

  // ---------------------------------------------------------------- stale

  /** One stale episode: how much had been enqueued when it began, and the
      subscriptions a notification was queued for. */
  datatype Episode = Episode(start: nat, created: seq<Sub>)

  function Notices(subs: seq<Sub>): (ms: seq<Message>)
    ensures |ms| == |subs| && forall i :: 0 <= i < |subs| ==> ms[i] == StaleNotice(subs[i])
  {
    seq(|subs|, i requires 0 <= i < |subs| => StaleNotice(subs[i]))
  }

  /** While stale, only signals have been enqueued; what is still queued is
      what is left of one notification per subscription. */
  ghost predicate StaleKept(e: Entry, out: seq<Message>, ep: Episode)
  {
    && (e.hasPendingStale <==> e.pendingStale != [])
    && (!e.stale ==> e.pendingStale == [])
    && (e.stale ==>
          && ep.start <= |out|
          && (forall i :: ep.start <= i < |out| ==> IsSignal(out[i]))
          && NoDup(ep.created)
          && |e.pendingStale| <= |ep.created|
          && e.pendingStale == Notices(ep.created)[|ep.created| - |e.pendingStale|..])
  }

  ghost predicate AllStaleKept(conns: Slots, outbox: map<Conn, seq<Message>>, episodes: map<Conn, Episode>)
  {
    forall c: Conn :: Live(conns, c) ==> c in outbox && c in episodes && StaleKept(conns[c].value, outbox[c], episodes[c])
  }

  // ------------------------------------------------------------------ log

  /** What `c`'s transport has taken in all. */
  ghost function OutOf(outbox: map<Conn, seq<Message>>, c: Conn): seq<Message>
  {
    if c in outbox then outbox[c] else []
  }

  /** The log accounts for everything `c`'s transport has taken; besides stale
      notifications and disconnects those are messages that were meant for it,
      in order; and the successes meant for it are its successful answers. */
  ghost predicate Faithful(outbox: map<Conn, seq<Message>>, log: seq<Note>, answers: seq<Answer>, c: Conn)
  {
    && OutOf(outbox, c) == TakenBy(log, c)
    && Within(Plain(OutOf(outbox, c)), OffersTo(log, c))
    && Successes(OffersTo(log, c)) == DoneTo(answers, c)
  }

  ghost predicate AllFaithful(outbox: map<Conn, seq<Message>>, log: seq<Note>, answers: seq<Answer>)
  {
    forall c: Conn :: Faithful(outbox, log, answers, c)
  }

  /** `m` is the next message meant for `c`. */
  ghost predicate Due(h: History, c: Conn, m: Message)
  {
    IsPlain(m) ==> Within(Plain(OutOf(h.outbox, c)) + [m], OffersTo(h.log, c))
  }

  /** The gateway decides to send `m` to `c`. */
  ghost function Offering(h: History, c: Conn, m: Message): History
  {
    h.(log := h.log + [Offer(c, m)])
  }

  lemma OfferFaithful(h: History, c: Conn, m: Message)
    requires AllFaithful(h.outbox, h.log, h.answers) && !IsSuccess(m)
    ensures AllFaithful(h.outbox, h.log + [Offer(c, m)], h.answers) && Due(Offering(h, c, m), c, m)
  {
    hide Within, Plain, Successes, Due;
    var log := h.log + [Offer(c, m)];
    forall d: Conn
      ensures Faithful(h.outbox, log, h.answers, d)
    {
      assert Faithful(h.outbox, h.log, h.answers, d);
      OfferStep(h, c, m, d);
    }
    assert Faithful(h.outbox, h.log, h.answers, c);
    OfferStep(h, c, m, c);
  }

  lemma OfferStep(h: History, c: Conn, m: Message, d: Conn)
    requires Faithful(h.outbox, h.log, h.answers, d)
    ensures var h' := Offering(h, c, m);
      && OutOf(h'.outbox, d) == TakenBy(h'.log, d) && Within(Plain(OutOf(h'.outbox, d)), OffersTo(h'.log, d))
      && Successes(OffersTo(h'.log, d))
         == Successes(OffersTo(h.log, d)) + (if d == c && IsSuccess(m) then [m.client] else [])
      && (d == c ==> Due(h', c, m))
  {
    hide Within, Plain, Successes;
    LogConcat(h.log, [Offer(c, m)], d);
    OneNote(Offer(c, m), d);
    WithinGrows(Plain(OutOf(h.outbox, d)), OffersTo(h.log, d), m);
    PlainGrows(OffersTo(h.log, d), m);
    assert OffersTo(h.log, d) + [] == OffersTo(h.log, d) && TakenBy(h.log, d) + [] == TakenBy(h.log, d);
    assert Successes(OffersTo(h.log, d)) + [] == Successes(OffersTo(h.log, d));
  }

  /** The transport of `c` has been asked `notes` and has taken `out` in all. */
  ghost predicate Accounted(h: History, c: Conn, out: seq<Message>, notes: seq<Note>)
  {
    && AsksOnly(notes, c) && out == OutOf(h.outbox, c) + TakenBy(notes, c)
    && Within(Plain(out), OffersTo(h.log, c))
  }

  lemma AccountedNone(h: History, c: Conn)
    requires Faithful(h.outbox, h.log, h.answers, c)
    ensures Accounted(h, c, OutOf(h.outbox, c), [])
  {
    assert OutOf(h.outbox, c) + [] == OutOf(h.outbox, c);
  }

  lemma AccountedAsk(h: History, c: Conn, out: seq<Message>, notes: seq<Note>, m: Message, reply: Reply)
    requires Accounted(h, c, out, notes)
    requires reply.Taken? && IsPlain(m) ==> Within(Plain(out) + [m], OffersTo(h.log, c))
    ensures Accounted(h, c, if reply.Taken? then out + [m] else out, notes + [Ask(c, m, reply)])
  {
    hide Within, Plain, TakenBy, OffersTo, OutOf;
    LogConcat(notes, [Ask(c, m, reply)], c);
    OneNote(Ask(c, m, reply), c);
    if reply.Taken? {
      PlainGrows(out, m);
      assert Plain(out) + [] == Plain(out);
      assert OutOf(h.outbox, c) + TakenBy(notes, c) + [m] == OutOf(h.outbox, c) + (TakenBy(notes, c) + [m]);
    } else {
      assert TakenBy(notes, c) + [] == TakenBy(notes, c);
    }
  }

  // -------------------------------------------------------------- changes

  /** No slot changes its attachment or its subscriptions. */
  ghost predicate SameSessions(a: Slots, b: Slots)
  {
    |a| == |b| && forall d: Conn :: AttachedTo(a, d) == AttachedTo(b, d) && SubsOf(a, d) == SubsOf(b, d)
  }

  lemma SessionsCarry(a: Slots, b: Slots, seats: set<Seat>, links: set<Link>)
    requires SameSessions(a, b) && SeatedSessions(a, seats) && LinkedSessions(a, links) && KeyedByServer(a)
    ensures SeatedSessions(b, seats) && LinkedSessions(b, links) && KeyedByServer(b)
  {
  }

  /** Slots are only ever added, and a freed one stays free. */
  ghost predicate SlotsKept(a: Slots, b: Slots)
  {
    |a| <= |b| && forall i :: 0 <= i < |a| && a[i].None? ==> b[i].None?
  }

  ghost predicate LinksSeated(links: set<Link>, seats: set<Seat>)
  {
    forall l :: l in links ==> Seat(l.conn, l.world) in seats
  }

  /** Nothing is left of a connection once its slot is freed. */
  lemma SlotFreed(conns: Slots, c: Conn, seats: set<Seat>, links: set<Link>, calls: Calls)
    requires Live(conns, c) && SeatedSessions(conns, seats) && LinkedSessions(conns, links) && KeyedByServer(conns)
    requires LinksSeated(links, seats) && CallersSeated(calls, seats)
    ensures var conns', seats', links' := conns[c := None], SeatsWithout(seats, c), LinksWithout(links, c);
      && SeatedSessions(conns', seats') && LinkedSessions(conns', links') && KeyedByServer(conns')
      && LinksSeated(links', seats') && CallersSeated(DiscardedFor(calls, c), seats')
  {
    var conns' := conns[c := None];
    assert forall d: Conn :: d != c ==> AttachedTo(conns', d) == AttachedTo(conns, d) && SubsOf(conns', d) == SubsOf(conns, d);
    assert AttachedTo(conns', c) == None && SubsOf(conns', c) == map[];
  }

  ghost function SeatsWithout(seats: set<Seat>, c: Conn): set<Seat>
  {
    set s | s in seats && s.conn != c
  }

  ghost function LinksWithout(links: set<Link>, c: Conn): set<Link>
  {
    set l | l in links && l.conn != c
  }

  lemma AnswersKept(answers: seq<Answer>, calls: Calls, c: Conn)
    requires AnswersAgree(answers, calls)
    ensures AnswersAgree(answers, DiscardedFor(calls, c)) && Evolved(calls, DiscardedFor(calls, c))
  {
  }

  /** A connection without a slot waits for nothing. */
  lemma NobodyWaits(conns: Slots, seats: set<Seat>, calls: Calls, c: Conn)
    requires !Live(conns, c) && SeatedSessions(conns, seats) && CallersSeated(calls, seats)
    ensures DiscardedFor(calls, c) == calls
  {
    forall g | Waits(calls, g)
      ensures calls[g].conn != c
    {
      assert Seat(calls[g].conn, calls[g].world) in seats;
    }
  }

  lemma LinksOf(conns: Slots, links: set<Link>, c: Conn)
    requires Live(conns, c) && LinkedSessions(conns, links) && KeyedByServer(conns)
    ensures forall s, w :: Link(c, s, w) in links ==> s in conns[c].value.subs && conns[c].value.subs[s] == NetSub(w, s)
    ensures forall s :: s in conns[c].value.subs ==> conns[c].value.subs[s].server == s
  {
    assert SubsOf(conns, c) == conns[c].value.subs;
  }

  /** A connection sits where its session says, and nowhere else. */
  lemma SeatsOf(conns: Slots, seats: set<Seat>, c: Conn)
    requires SeatedSessions(conns, seats)
    ensures SeatsWithout(seats, c)
            == if AttachedTo(conns, c).Some? then seats - {Seat(c, AttachedTo(conns, c).value)} else seats
  {
  }

  lemma StaleFreed(conns: Slots, c: Conn, outbox: map<Conn, seq<Message>>, episodes: map<Conn, Episode>)
    requires AllStaleKept(conns, outbox, episodes) && 0 <= c < |conns|
    ensures AllStaleKept(conns[c := None], outbox, episodes)
  {
    hide StaleKept;
    forall d: Conn | Live(conns[c := None], d)
      ensures d in outbox && d in episodes && StaleKept(conns[c := None][d].value, outbox[d], episodes[d])
    {
      assert Live(conns, d);
    }
  }

  // ------------------------------------------------------- the invariants

  /** The gateway's fields. */
  datatype Gate = Gate(
    connections: Slots, nextConnection: nat, activeConnections: nat, nextSession: nat,
    pendingCalls: PendingCalls, pendingByConnection: map<Conn, set<ClientId>>, nextRequest: nat,
    attachedByWorld: map<World, set<Conn>>, worldSubscribers: WorldSubs, subToConns: Reverse)

  /** What the indexes are about: who is attached where and subscribed to
      what; every accepted call and every answer handed to the transport;
      what each transport has taken, its stale episode, and how often its
      session has been resynced; and the log of everything said. */
  datatype History = History(
    seats: set<Seat>, links: set<Link>, calls: Calls, answers: seq<Answer>,
    outbox: map<Conn, seq<Message>>, episodes: map<Conn, Episode>, resyncs: map<Conn, nat>, log: seq<Note>)

  ghost function ResyncsOf(h: History, c: Conn): nat
  {
    if c in h.resyncs then h.resyncs[c] else 0
  }

  /** Ids are slab positions, handed out once. */
  ghost predicate SlabAgrees(g: Gate)
  {
    |g.connections| == g.nextConnection && g.activeConnections == LiveCount(g.connections)
  }

  /** Sessions and indexes describe the same attachments and subscriptions,
      and every subscription is on the world its session is attached to. */
  ghost predicate IndexesAgree(g: Gate, h: History)
  {
    && SeatedSessions(g.connections, h.seats) && SeatedIndex(g.attachedByWorld, h.seats)
    && LinkedSessions(g.connections, h.links) && KeyedByServer(g.connections)
    && LinkedSubscribers(g.worldSubscribers, h.links) && LinkedReverse(g.subToConns, h.links)
    && LinksSeated(h.links, h.seats)
  }

  /** The pending maps hold exactly the waiting calls of attached callers, and
      every answer went to the caller of its call. */
  ghost predicate CallsAgree(g: Gate, h: History)
  {
    && PendingAgrees(g.pendingCalls, h.calls) && ByConnAgrees(g.pendingByConnection, h.calls)
    && CallersSeated(h.calls, h.seats) && AnswersAgree(h.answers, h.calls) && IdsBelow(h.calls, g.nextRequest)
  }

  ghost predicate Agrees(g: Gate, h: History)
  {
    && SlabAgrees(g) && IndexesAgree(g, h) && CallsAgree(g, h)
    && AllStaleKept(g.connections, h.outbox, h.episodes) && AllFaithful(h.outbox, h.log, h.answers)
    && forall c :: c in h.outbox ==> c < |g.connections|
  }

  // ----------------------------------------------------------- slots

  function Added(g: Gate): Gate
  {
    g.(connections := g.connections + [Some(NewEntry())],
       nextConnection := g.nextConnection + 1, activeConnections := g.activeConnections + 1)
  }

  ghost function AddedHistory(g: Gate, h: History): History
  {
    h.(outbox := h.outbox[|g.connections| := []], episodes := h.episodes[|g.connections| := Episode(0, [])])
  }

  /** A new slot changes nothing but the slab. */
  lemma AddAgrees(g: Gate, h: History)
    requires Agrees(g, h)
    ensures Agrees(Added(g), AddedHistory(g, h))
  {
    hide SeatedIndex, LinkedSubscribers, LinkedReverse, LinksSeated, PendingAgrees, ByConnAgrees, AnswersAgree, CallersSeated,
         StaleKept, Within, Plain;
    var conns, conns' := g.connections, Added(g).connections;
    assert conns'[..|conns'| - 1] == conns;
    forall d: Conn
      ensures AttachedTo(conns', d) == AttachedTo(conns, d) && SubsOf(conns', d) == SubsOf(conns, d)
      ensures Live(conns', d) ==> Live(conns, d) || (d == |conns| && conns'[d] == Some(NewEntry()))
    {
      assert d < |conns| ==> conns'[d] == conns[d];
    }
    NewEntryStale();
    forall c: Conn
      ensures Faithful(AddedHistory(g, h).outbox, AddedHistory(g, h).log, AddedHistory(g, h).answers, c)
    {
      assert Faithful(h.outbox, h.log, h.answers, c);
    }
  }

  lemma NewEntryStale()
    ensures StaleKept(NewEntry(), [], Episode(0, []))
  {
  }

  /** The attachment index once `c` has left its world, if it is on one. */
  function LeftBy(attached: map<World, set<Conn>>, conns: Slots, c: Conn): map<World, set<Conn>>
  {
    if AttachedTo(conns, c).Some? then Left(attached, c, AttachedTo(conns, c).value) else attached
  }

  function Freed(g: Gate, c: Conn, ws: WorldSubs, rev: Reverse): Gate
    requires Live(g.connections, c) && g.activeConnections > 0
  {
    g.(connections := g.connections[c := None], activeConnections := g.activeConnections - 1,
       pendingCalls := PendingWithout(g.pendingCalls, c), pendingByConnection := g.pendingByConnection - {c},
       attachedByWorld := LeftBy(g.attachedByWorld, g.connections, c), worldSubscribers := ws, subToConns := rev)
  }

  /** The history once nothing is left of `c`. */
  ghost function Forgotten(h: History, c: Conn): History
  {
    h.(seats := SeatsWithout(h.seats, c), links := LinksWithout(h.links, c), calls := DiscardedFor(h.calls, c))
  }

  lemma FreeIndexes(g: Gate, h: History, c: Conn, ws: WorldSubs, rev: Reverse)
    requires IndexesAgree(g, h) && CallersSeated(h.calls, h.seats) && Live(g.connections, c) && g.activeConnections > 0
    requires LinkedSubscribers(ws, LinksWithout(h.links, c)) && LinkedReverse(rev, LinksWithout(h.links, c))
    ensures IndexesAgree(Freed(g, c, ws, rev), Forgotten(h, c))
    ensures CallersSeated(Forgotten(h, c).calls, Forgotten(h, c).seats)
  {
    hide SeatedIndex, LinkedSubscribers, LinkedReverse, SeatedSessions, LinkedSessions, KeyedByServer, LinksSeated,
         SeatsWithout, LinksWithout, CallersSeated, DiscardedFor;
    SlotFreed(g.connections, c, h.seats, h.links, h.calls);
    SeatsOf(g.connections, h.seats, c);
    if AttachedTo(g.connections, c).Some? {
      LeftSeats(g.attachedByWorld, h.seats, c, AttachedTo(g.connections, c).value);
    }
  }

  /** Freeing a slot keeps every index and the call book, once they forget the
      connection. */
  lemma FreeAgrees(g: Gate, h: History, c: Conn, ws: WorldSubs, rev: Reverse)
    requires Agrees(g, h) && Live(g.connections, c)
    requires LinkedSubscribers(ws, LinksWithout(h.links, c)) && LinkedReverse(rev, LinksWithout(h.links, c))
    ensures g.activeConnections > 0 && Agrees(Freed(g, c, ws, rev), Forgotten(h, c))
  {
    hide IndexesAgree, PendingAgrees, ByConnAgrees, AnswersAgree, CallersSeated, AllStaleKept, LiveCount, DiscardedFor,
         LinkedSubscribers, LinkedReverse, SeatsWithout, LinksWithout, IdsBelow;
    DropCounts(g.connections, c);
    FreeIndexes(g, h, c, ws, rev);
    DiscardAgrees(g.pendingCalls, g.pendingByConnection, h.calls, c);
    AnswersKept(h.answers, h.calls, c);
    IdsKept(h.calls, g.nextRequest, c);
    StaleFreed(g.connections, c, h.outbox, h.episodes);
  }

  lemma IdsKept(calls: Calls, next: nat, c: Conn)
    requires IdsBelow(calls, next)
    ensures IdsBelow(DiscardedFor(calls, c), next)
  {
  }

  lemma DeadWaits(g: Gate, h: History, c: Conn)
    requires IndexesAgree(g, h) && CallsAgree(g, h) && !Live(g.connections, c)
    ensures DiscardedFor(h.calls, c) == h.calls
  {
    NobodyWaits(g.connections, h.seats, h.calls, c);
  }

  lemma OwnLinks(g: Gate, h: History, c: Conn)
    requires IndexesAgree(g, h) && Live(g.connections, c)
    ensures LinkedSubscribers(g.worldSubscribers, h.links) && LinkedReverse(g.subToConns, h.links)
    ensures forall s, w :: Link(c, s, w) in h.links ==>
      s in g.connections[c].value.subs && g.connections[c].value.subs[s] == NetSub(w, s)
  {
    LinksOf(g.connections, h.links, c);
  }

  // ------------------------------------------------- who is affected

  /** Only `c` is concerned: other slots, their transports and their calls stay
      as they are, calls keep their caller and their fate, and nobody is
      answered. */
  ghost predicate About(g: Gate, h: History, g': Gate, h': History, c: Conn)
  {
    && |g'.connections| == |g.connections| && g'.nextConnection == g.nextConnection
    && (forall d :: 0 <= d < |g.connections| && d != c ==> g'.connections[d] == g.connections[d])
    && (Live(g'.connections, c) ==> Live(g.connections, c))
    && h'.outbox - {c} == h.outbox - {c} && h'.episodes - {c} == h.episodes - {c}
    && Evolved(h.calls, h'.calls) && h'.answers == h.answers
    && OwnCalls(h.calls, h'.calls, c)
    && OutGrows(h, h', c) && h'.resyncs - {c} == h.resyncs - {c} && ResyncsOf(h, c) <= ResyncsOf(h', c)
    && h.log <= h'.log && NotesAbout(Since(h, h'), c) && Overflowed(g, h, g', h', c)
  }

  /** What has been said since. */
  ghost function Since(h: History, h': History): seq<Note>
  {
    if |h.log| <= |h'.log| then h'.log[|h.log|..] else []
  }

  /** The messages meant for `c` since. */
  ghost function Offered(h: History, h': History, c: Conn): seq<Message> { OffersTo(Since(h, h'), c) }

  predicate IsStale(g: Gate, c: Conn) { Live(g.connections, c) && g.connections[c].value.stale }

  ghost predicate AskedFull(notes: seq<Note>, c: Conn)
  {
    exists m :: Ask(c, m, Full) in notes
  }

  /** A session turns stale only when its transport was full. */
  ghost predicate Overflowed(g: Gate, h: History, g': Gate, h': History, c: Conn)
  {
    IsStale(g', c) && !IsStale(g, c) ==> AskedFull(Since(h, h'), c)
  }

  lemma SinceChains(h0: History, h1: History, h2: History, c: Conn)
    requires h0.log <= h1.log <= h2.log
    ensures h0.log <= h2.log && Since(h0, h2) == Since(h0, h1) + Since(h1, h2)
    ensures Offered(h0, h2, c) == Offered(h0, h1, c) + Offered(h1, h2, c)
  {
    LogConcat(Since(h0, h1), Since(h1, h2), c);
  }

  lemma OverflowChains(g0: Gate, h0: History, g1: Gate, h1: History, g2: Gate, h2: History, c: Conn)
    requires h0.log <= h1.log <= h2.log && Overflowed(g0, h0, g1, h1, c) && Overflowed(g1, h1, g2, h2, c)
    ensures Overflowed(g0, h0, g2, h2, c)
  {
    SinceChains(h0, h1, h2, c);
    var a, b := Since(h0, h1), Since(h1, h2);
    assert forall m :: Ask(c, m, Full) in a || Ask(c, m, Full) in b ==> Ask(c, m, Full) in a + b;
  }

  /** What `c`'s transport has taken stands. */
  ghost predicate OutGrows(h: History, h': History, c: Conn)
  {
    c in h.outbox ==> c in h'.outbox && h.outbox[c] <= h'.outbox[c]
  }

  ghost predicate OwnCalls(a: Calls, b: Calls, c: Conn)
  {
    && (forall k :: k in a && a[k].conn != c ==> k in b && b[k] == a[k])
    && (forall k :: k in b && k !in a ==> b[k].conn == c)
  }

  /** A stale episode goes on, its queue only gets shorter, and what a
      transport has taken stands. */
  ghost predicate Lasts(e: Entry, out: seq<Message>, ep: Episode, e': Entry, out': seq<Message>, ep': Episode)
  {
    out <= out' && (e.stale ==> e'.stale && ep' == ep && |e'.pendingStale| <= |e.pendingStale|)
  }

  ghost predicate StaleLasts(g: Gate, h: History, g': Gate, h': History, c: Conn)
  {
    Live(g'.connections, c) ==>
      && Live(g.connections, c) && c in h.outbox && c in h'.outbox && c in h.episodes && c in h'.episodes
      && Lasts(g.connections[c].value, h.outbox[c], h.episodes[c],
               g'.connections[c].value, h'.outbox[c], h'.episodes[c])
  }

  /** What serving a message of `c` may do, short of ending a stale episode. */
  ghost predicate Served(g: Gate, h: History, g': Gate, h': History, c: Conn)
  {
    About(g, h, g', h', c) && StaleLasts(g, h, g', h', c) && h'.resyncs == h.resyncs
  }

  /** What a message to `c` may change: its stale state, or, when it is
      dropped on the way, everything that is known about it. */
  ghost predicate Touched(g: Gate, h: History, g': Gate, h': History, c: Conn)
  {
    && Served(g, h, g', h', c)
    && g'.nextSession == g.nextSession && g'.nextRequest == g.nextRequest
    && (if Live(g'.connections, c) then
          && g'.connections[c].value.session == g.connections[c].value.session
          && g'.connections[c].value.subs == g.connections[c].value.subs
          && g' == g.(connections := g'.connections)
          && h' == h.(outbox := h'.outbox, episodes := h'.episodes, log := h'.log)
        else h'.calls == DiscardedFor(h.calls, c))
  }

  lemma AboutChains(g0: Gate, h0: History, g1: Gate, h1: History, g2: Gate, h2: History, c: Conn)
    requires About(g0, h0, g1, h1, c) && About(g1, h1, g2, h2, c)
    ensures About(g0, h0, g2, h2, c)
    ensures Offered(h0, h2, c) == Offered(h0, h1, c) + Offered(h1, h2, c)
  {
    hide Overflowed;
    SinceChains(h0, h1, h2, c);
    OverflowChains(g0, h0, g1, h1, g2, h2, c);
  }

  lemma ServedChains(g0: Gate, h0: History, g1: Gate, h1: History, g2: Gate, h2: History, c: Conn)
    requires Served(g0, h0, g1, h1, c) && Served(g1, h1, g2, h2, c)
    ensures Served(g0, h0, g2, h2, c)
    ensures Offered(h0, h2, c) == Offered(h0, h1, c) + Offered(h1, h2, c)
  {
    hide About;
    AboutChains(g0, h0, g1, h1, g2, h2, c);
  }

  lemma TouchedChains(g0: Gate, h0: History, g1: Gate, h1: History, g2: Gate, h2: History, c: Conn)
    requires Touched(g0, h0, g1, h1, c) && Touched(g1, h1, g2, h2, c)
    ensures Touched(g0, h0, g2, h2, c)
    ensures Offered(h0, h2, c) == Offered(h0, h1, c) + Offered(h1, h2, c)
  {
    hide StaleLasts, DiscardedFor, Overflowed, Offered;
    ServedChains(g0, h0, g1, h1, g2, h2, c);
    DiscardTwice(h0.calls, c);
  }

  lemma DiscardTwice(calls: Calls, c: Conn)
    ensures DiscardedFor(DiscardedFor(calls, c), c) == DiscardedFor(calls, c)
  {
  }

  /** Unless `c` was resynced, its stale episode lasts. */
  ghost predicate EpisodeLasts(g: Gate, h: History, g': Gate, h': History, c: Conn)
  {
    ResyncsOf(h', c) == ResyncsOf(h, c) ==> StaleLasts(g, h, g', h', c)
  }

  /** What every operation keeps: slots are never reused, calls keep their
      caller and their fate, answers, the log and whatever a transport has taken
      stand, only a full transport starts a stale episode, and only a resync
      ends it. */
  ghost predicate Kept(g: Gate, h: History, g': Gate, h': History)
  {
    && SlotsKept(g.connections, g'.connections) && Evolved(h.calls, h'.calls)
    && h.answers <= h'.answers && h.log <= h'.log
    && forall c: Conn :: c < |g.connections| ==> ConnKept(g, h, g', h', c)
  }

  ghost predicate ConnKept(g: Gate, h: History, g': Gate, h': History, c: Conn)
  {
    && OutGrows(h, h', c) && ResyncsOf(h, c) <= ResyncsOf(h', c)
    && EpisodeLasts(g, h, g', h', c) && Overflowed(g, h, g', h', c)
  }

  lemma SlotLasts(g: Gate, h: History, g': Gate, h': History, d: Conn)
    requires Agrees(g, h) && d < |g.connections| && d < |g'.connections| && g'.connections[d] == g.connections[d]
    requires d in h.outbox ==> d in h'.outbox && h'.outbox[d] == h.outbox[d]
    requires d in h.episodes ==> d in h'.episodes && h'.episodes[d] == h.episodes[d]
    ensures OutGrows(h, h', d) && StaleLasts(g, h, g', h', d) && Overflowed(g, h, g', h', d)
  {
    hide IndexesAgree, CallsAgree, AllStaleKept, AllFaithful, LiveCount;
    if Live(g.connections, d) { LiveStale(g, h, d); }
  }

  lemma AboutKept(g: Gate, h: History, g': Gate, h': History, c: Conn)
    requires Agrees(g, h) && About(g, h, g', h', c) && EpisodeLasts(g, h, g', h', c)
    ensures Kept(g, h, g', h')
  {
    hide Agrees, Evolved, OwnCalls, OutGrows, StaleLasts, Overflowed;
    forall d: Conn | d < |g.connections|
      ensures ConnKept(g, h, g', h', d)
    {
      if d != c {
        assert d in h.outbox ==> d in h.outbox - {c} && d in h'.outbox - {c};
        assert d in h.episodes ==> d in h.episodes - {c} && d in h'.episodes - {c};
        assert d in h.resyncs ==> d in h.resyncs - {c};
        assert d in h'.resyncs ==> d in h'.resyncs - {c};
        SlotLasts(g, h, g', h', d);
      }
    }
  }

  lemma TouchedKept(g: Gate, h: History, g': Gate, h': History, c: Conn)
    requires Agrees(g, h) && Touched(g, h, g', h', c)
    ensures Kept(g, h, g', h') && h'.resyncs == h.resyncs
  {
    hide About, Agrees, StaleLasts;
    AboutKept(g, h, g', h', c);
  }

  lemma LastsChains(g0: Gate, h0: History, g1: Gate, h1: History, g2: Gate, h2: History, c: Conn)
    requires StaleLasts(g0, h0, g1, h1, c) && StaleLasts(g1, h1, g2, h2, c)
    ensures StaleLasts(g0, h0, g2, h2, c)
  {
  }

  lemma KeptChains(g0: Gate, h0: History, g1: Gate, h1: History, g2: Gate, h2: History)
    requires Kept(g0, h0, g1, h1) && Kept(g1, h1, g2, h2)
    ensures Kept(g0, h0, g2, h2)
  {
    hide StaleLasts, Overflowed;
    forall c: Conn | c < |g0.connections|
      ensures ConnKept(g0, h0, g2, h2, c)
    {
      assert ConnKept(g0, h0, g1, h1, c) && ConnKept(g1, h1, g2, h2, c);
      if ResyncsOf(h0, c) == ResyncsOf(h2, c) { LastsChains(g0, h0, g1, h1, g2, h2, c); }
      OverflowChains(g0, h0, g1, h1, g2, h2, c);
    }
  }

  // ------------------------------------------------------ changing a slot

  function WithEntry(g: Gate, c: Conn, e: Entry): Gate
    requires Live(g.connections, c)
  {
    g.(connections := g.connections[c := Some(e)])
  }

  /** The history once `c`'s transport has been asked `notes` and has taken
      `out` in all. */
  ghost function WithOut(h: History, c: Conn, out: seq<Message>, ep: Episode, notes: seq<Note>): History
  {
    h.(outbox := h.outbox[c := out], episodes := h.episodes[c := ep], log := h.log + notes)
  }

  /** The attachment a session gives its connection. */
  function SessionWorld(session: Option<Session>): Option<World>
  {
    if session.Some? then session.value.attached else None
  }

  lemma StaleChanged(conns: Slots, outbox: map<Conn, seq<Message>>, episodes: map<Conn, Episode>,
                     c: Conn, e: Entry, out: seq<Message>, ep: Episode)
    requires AllStaleKept(conns, outbox, episodes) && Live(conns, c) && StaleKept(e, out, ep)
    ensures AllStaleKept(conns[c := Some(e)], outbox[c := out], episodes[c := ep])
  {
    hide StaleKept;
    var conns' := conns[c := Some(e)];
    forall d: Conn | Live(conns', d) && d != c
      ensures d in outbox && d in episodes && StaleKept(conns'[d].value, outbox[d], episodes[d])
    {
      assert Live(conns, d);
    }
  }

  lemma EntryIndexes(g: Gate, h: History, c: Conn, e: Entry)
    requires IndexesAgree(g, h) && Live(g.connections, c)
    requires SessionWorld(e.session) == SessionWorld(g.connections[c].value.session)
    requires e.subs == g.connections[c].value.subs
    ensures IndexesAgree(WithEntry(g, c, e), h)
  {
    hide SeatedSessions, LinkedSessions, KeyedByServer, SeatedIndex, LinkedSubscribers, LinkedReverse, LinksSeated;
    SessionsCarry(g.connections, WithEntry(g, c, e).connections, h.seats, h.links);
  }

  /** A slot may change its session's other data and its stale state. */
  lemma EntryAgrees(g: Gate, h: History, c: Conn, e: Entry, out: seq<Message>, ep: Episode, notes: seq<Note>)
    requires Agrees(g, h) && Live(g.connections, c) && StaleKept(e, out, ep)
    requires SessionWorld(e.session) == SessionWorld(g.connections[c].value.session)
    requires e.subs == g.connections[c].value.subs
    requires Accounted(h, c, out, notes) && (e.stale && !g.connections[c].value.stale ==> AskedFull(notes, c))
    ensures Agrees(WithEntry(g, c, e), WithOut(h, c, out, ep, notes))
    ensures About(g, h, WithEntry(g, c, e), WithOut(h, c, out, ep, notes), c)
    ensures Offered(h, WithOut(h, c, out, ep, notes), c) == []
  {
    hide IndexesAgree, PendingAgrees, ByConnAgrees, CallersSeated, AnswersAgree, IdsBelow, AllStaleKept, StaleKept, LiveCount,
         AllFaithful, Within, AskedFull;
    EntryIndexes(g, h, c, e);
    IndexesIgnoreOut(WithEntry(g, c, e), h, WithOut(h, c, out, ep, notes));
    ChangeCounts(g.connections, c, e);
    StaleChanged(g.connections, h.outbox, h.episodes, c, e, out, ep);
    AsksFaithful(h, c, out, notes);
    AsksOfferNothing(notes, c, c);
    assert (h.log + notes)[|h.log|..] == notes;
  }

  lemma AsksFaithful(h: History, c: Conn, out: seq<Message>, notes: seq<Note>)
    requires AllFaithful(h.outbox, h.log, h.answers) && Accounted(h, c, out, notes)
    ensures AllFaithful(h.outbox[c := out], h.log + notes, h.answers)
  {
    hide Within, Plain, Successes;
    var outbox, log := h.outbox[c := out], h.log + notes;
    forall d: Conn
      ensures Faithful(outbox, log, h.answers, d)
    {
      assert Faithful(h.outbox, h.log, h.answers, d) && Faithful(h.outbox, h.log, h.answers, c);
      LogConcat(h.log, notes, d);
      AsksOfferNothing(notes, c, d);
      assert OffersTo(h.log, d) + [] == OffersTo(h.log, d) && TakenBy(h.log, d) + [] == TakenBy(h.log, d);
      if d != c { NothingElsewhere(notes, c, d); }
    }
  }

  /** A slot that keeps its session, and its episode if it is in one. */
  lemma EntryTouched(g: Gate, h: History, c: Conn, e: Entry, out: seq<Message>, ep: Episode, notes: seq<Note>)
    requires Live(g.connections, c) && c in h.outbox && c in h.episodes
    requires About(g, h, WithEntry(g, c, e), WithOut(h, c, out, ep, notes), c)
    requires Lasts(g.connections[c].value, h.outbox[c], h.episodes[c], e, out, ep)
    requires e.session == g.connections[c].value.session && e.subs == g.connections[c].value.subs
    ensures Touched(g, h, WithEntry(g, c, e), WithOut(h, c, out, ep, notes), c)
  {
    hide About;
  }

  /** Deciding to send something changes nothing else. */
  lemma OfferAgrees(g: Gate, h: History, c: Conn, m: Message)
    requires Agrees(g, h) && Live(g.connections, c) && !IsSuccess(m)
    ensures Agrees(g, Offering(h, c, m)) && Due(Offering(h, c, m), c, m)
    ensures Touched(g, h, g, Offering(h, c, m), c) && Offered(h, Offering(h, c, m), c) == [m]
  {
    hide SlabAgrees, IndexesAgree, CallsAgree, AllStaleKept, AllFaithful, Due;
    LiveStale(g, h, c);
    OfferFaithful(h, c, m);
    OneNote(Offer(c, m), c);
    assert (h.log + [Offer(c, m)])[|h.log|..] == [Offer(c, m)];
    IndexesIgnoreOut(g, h, Offering(h, c, m));
    CallsIgnoreOut(g, h, Offering(h, c, m));
    SameCalls(h.calls, c);
  }

  lemma CallsIgnoreOut(g: Gate, h: History, h': History)
    requires CallsAgree(g, h) && h'.calls == h.calls && h'.answers == h.answers && h'.seats == h.seats
    ensures CallsAgree(g, h')
  {
  }

  lemma IndexesIgnoreOut(g: Gate, h: History, h': History)
    requires IndexesAgree(g, h) && h'.seats == h.seats && h'.links == h.links
    ensures IndexesAgree(g, h')
  {
  }

  lemma LiveStale(g: Gate, h: History, c: Conn)
    requires Agrees(g, h) && Live(g.connections, c)
    ensures c in h.outbox && c in h.episodes && StaleKept(g.connections[c].value, h.outbox[c], h.episodes[c])
    ensures Accounted(h, c, h.outbox[c], [])
  {
    hide IndexesAgree, CallsAgree, StaleKept, LiveCount, Accounted, Faithful;
    assert Faithful(h.outbox, h.log, h.answers, c);
    AccountedNone(h, c);
  }

  // -------------------------------------------------------------- queues

  /** The transport takes a message; while stale, a signal. */
  lemma TakenKeeps(e: Entry, out: seq<Message>, ep: Episode, m: Message)
    requires StaleKept(e, out, ep) && (!e.stale || IsSignal(m))
    ensures StaleKept(e, out + [m], ep)
  {
  }

  lemma StaleFlag(e: Entry, out: seq<Message>, ep: Episode)
    requires StaleKept(e, out, ep)
    ensures e.hasPendingStale == (e.pendingStale != [])
  {
  }

  /** The first queued notification is taken. */
  lemma NoticeTaken(e: Entry, out: seq<Message>, ep: Episode)
    requires StaleKept(e, out, ep) && e.pendingStale != []
    ensures var rest := e.pendingStale[1..];
      && e.stale && e.pendingStale[0].StaleNotice?
      && StaleKept(e.(pendingStale := rest, hasPendingStale := rest != []), out + [e.pendingStale[0]], ep)
  {
    var k := |ep.created| - |e.pendingStale|;
    assert Notices(ep.created)[k..][1..] == Notices(ep.created)[k + 1..];
  }

  /** Nothing happens to a connection that is gone. */
  lemma DeadTouched(g: Gate, h: History, c: Conn)
    requires Agrees(g, h) && !Live(g.connections, c)
    ensures Touched(g, h, g, h, c)
  {
    hide AllStaleKept, LiveCount;
    DeadWaits(g, h, c);
  }

  // ------------------------------------------------------ sessions

  /** A change of `c`'s slot that leaves its transport alone. */
  lemma QuietServed(g: Gate, h: History, g': Gate, h': History, c: Conn)
    requires Live(g.connections, c) && Live(g'.connections, c) && c in h.outbox && c in h.episodes
    requires |g'.connections| == |g.connections| && g'.nextConnection == g.nextConnection
    requires forall d :: 0 <= d < |g.connections| && d != c ==> g'.connections[d] == g.connections[d]
    requires g'.connections[c].value.stale == g.connections[c].value.stale
    requires g'.connections[c].value.pendingStale == g.connections[c].value.pendingStale
    requires h'.outbox == h.outbox && h'.episodes == h.episodes && h'.answers == h.answers && h'.resyncs == h.resyncs
    requires h'.log == h.log
    requires Evolved(h.calls, h'.calls) && OwnCalls(h.calls, h'.calls, c)
    ensures Served(g, h, g', h', c) && Offered(h, h', c) == []
  {
  }

  lemma SameCalls(calls: Calls, c: Conn)
    ensures Evolved(calls, calls) && OwnCalls(calls, calls, c)
  {
  }

  lemma DiscardsOwn(calls: Calls, c: Conn)
    ensures Evolved(calls, DiscardedFor(calls, c)) && OwnCalls(calls, DiscardedFor(calls, c), c)
  {
  }

  lemma AcceptsOwn(calls: Calls, next: nat, w: World, c: Conn, client: ClientId)
    requires IdsBelow(calls, next)
    ensures OwnCalls(calls, calls[next := Record(w, c, client, Waiting)], c)
  {
  }

  /** `c` is attached to `w`. */
  function Attached(g: Gate, c: Conn, w: World): Gate
    requires Live(g.connections, c) && g.connections[c].value.session.Some?
  {
    var e := g.connections[c].value;
    WithEntry(g, c, e.(session := Some(e.session.value.(attached := Some(w))))).(
      attachedByWorld := Joined(g.attachedByWorld, c, w))
  }

  ghost function Seated(h: History, c: Conn, w: World): History
  {
    h.(seats := h.seats + {Seat(c, w)})
  }

  lemma AttachSessions(conns: Slots, seats: set<Seat>, links: set<Link>, c: Conn, e: Entry, w: World)
    requires SeatedSessions(conns, seats) && LinkedSessions(conns, links) && KeyedByServer(conns) && Live(conns, c)
    requires SessionWorld(conns[c].value.session) == None && SessionWorld(e.session) == Some(w)
    requires e.subs == conns[c].value.subs
    ensures var conns' := conns[c := Some(e)];
      SeatedSessions(conns', seats + {Seat(c, w)}) && LinkedSessions(conns', links) && KeyedByServer(conns')
  {
    var conns' := conns[c := Some(e)];
    assert forall d: Conn :: SubsOf(conns', d) == SubsOf(conns, d);
    assert forall d: Conn :: d != c ==> AttachedTo(conns', d) == AttachedTo(conns, d);
    assert AttachedTo(conns', c) == Some(w) && AttachedTo(conns, c) == None;
  }

  lemma SeatsGrow(links: set<Link>, calls: Calls, seats: set<Seat>, more: set<Seat>)
    requires LinksSeated(links, seats) && CallersSeated(calls, seats) && seats <= more
    ensures LinksSeated(links, more) && CallersSeated(calls, more)
  {
  }

  lemma AttachAgrees(g: Gate, h: History, c: Conn, w: World)
    requires Agrees(g, h) && Live(g.connections, c) && g.connections[c].value.session.Some?
    requires AttachedTo(g.connections, c) == None
    ensures Agrees(Attached(g, c, w), Seated(h, c, w)) && Served(g, h, Attached(g, c, w), Seated(h, c, w), c)
  {
    hide SeatedSessions, LinkedSessions, KeyedByServer, SeatedIndex, LinkedSubscribers, LinkedReverse, LinksSeated,
         PendingAgrees, ByConnAgrees, CallersSeated, AnswersAgree, IdsBelow, AllStaleKept, StaleKept, LiveCount, Joined, Served, OwnCalls, Evolved;
    var e := Attached(g, c, w).connections[c].value;
    AttachSessions(g.connections, h.seats, h.links, c, e, w);
    JoinedSeats(g.attachedByWorld, h.seats, c, w);
    SeatsGrow(h.links, h.calls, h.seats, h.seats + {Seat(c, w)});
    ChangeCounts(g.connections, c, e);
    LiveStale(g, h, c);
    SameStale(g.connections[c].value, e, h.outbox[c], h.episodes[c]);
    StaleChanged(g.connections, h.outbox, h.episodes, c, e, h.outbox[c], h.episodes[c]);
    assert h.outbox[c := h.outbox[c]] == h.outbox && h.episodes[c := h.episodes[c]] == h.episodes;
    SameCalls(h.calls, c);
    QuietServed(g, h, Attached(g, c, w), Seated(h, c, w), c);
  }

  /** The stale state of a slot says nothing about its session. */
  lemma SameStale(e: Entry, f: Entry, out: seq<Message>, ep: Episode)
    requires StaleKept(e, out, ep)
    requires f.stale == e.stale && f.pendingStale == e.pendingStale && f.hasPendingStale == e.hasPendingStale
    ensures StaleKept(f, out, ep)
  {
  }

  /** `c` leaves its world with all its subscriptions and waiting calls. */
  function Detached(g: Gate, c: Conn, ws: WorldSubs, rev: Reverse): Gate
    requires Live(g.connections, c) && g.connections[c].value.session.Some?
  {
    var e := g.connections[c].value;
    WithEntry(g, c, e.(session := Some(e.session.value.(attached := None)), subs := map[])).(
      pendingCalls := PendingWithout(g.pendingCalls, c), pendingByConnection := g.pendingByConnection - {c},
      attachedByWorld := LeftBy(g.attachedByWorld, g.connections, c), worldSubscribers := ws, subToConns := rev)
  }

  lemma DetachSessions(conns: Slots, c: Conn, e: Entry, seats: set<Seat>, links: set<Link>)
    requires Live(conns, c) && SeatedSessions(conns[c := None], seats) && LinkedSessions(conns[c := None], links)
    requires KeyedByServer(conns[c := None])
    requires SessionWorld(e.session) == None && e.subs == map[]
    ensures var conns' := conns[c := Some(e)];
      SeatedSessions(conns', seats) && LinkedSessions(conns', links) && KeyedByServer(conns')
  {
    var a, b := conns[c := None], conns[c := Some(e)];
    assert forall d: Conn :: AttachedTo(a, d) == AttachedTo(b, d) && SubsOf(a, d) == SubsOf(b, d);
    SessionsCarry(a, b, seats, links);
  }

  lemma DetachAgrees(g: Gate, h: History, c: Conn, ws: WorldSubs, rev: Reverse)
    requires Agrees(g, h) && Live(g.connections, c) && g.connections[c].value.session.Some?
    requires LinkedSubscribers(ws, LinksWithout(h.links, c)) && LinkedReverse(rev, LinksWithout(h.links, c))
    ensures Agrees(Detached(g, c, ws, rev), Forgotten(h, c)) && Served(g, h, Detached(g, c, ws, rev), Forgotten(h, c), c)
  {
    hide SeatedSessions, LinkedSessions, KeyedByServer, SeatedIndex, LinkedSubscribers, LinkedReverse, LinksSeated,
         PendingAgrees, ByConnAgrees, CallersSeated, AnswersAgree, IdsBelow, AllStaleKept, StaleKept, LiveCount,
         SeatsWithout, LinksWithout, DiscardedFor, LeftBy, Evolved, Served, OwnCalls;
    FreeAgrees(g, h, c, ws, rev);
    AnswersKept(h.answers, h.calls, c);
    var e := Detached(g, c, ws, rev).connections[c].value;
    DetachSessions(g.connections, c, e, SeatsWithout(h.seats, c), LinksWithout(h.links, c));
    ChangeCounts(g.connections, c, e);
    LiveStale(g, h, c);
    SameStale(g.connections[c].value, e, h.outbox[c], h.episodes[c]);
    StaleChanged(g.connections, h.outbox, h.episodes, c, e, h.outbox[c], h.episodes[c]);
    assert h.outbox[c := h.outbox[c]] == h.outbox && h.episodes[c := h.episodes[c]] == h.episodes;
    DiscardsOwn(h.calls, c);
    QuietServed(g, h, Detached(g, c, ws, rev), Forgotten(h, c), c);
  }

  // ------------------------------------------------------ subscriptions

  function Subscribed(g: Gate, c: Conn, s: Sub, w: World): Gate
    requires Live(g.connections, c)
  {
    var e := g.connections[c].value;
    WithEntry(g, c, e.(subs := e.subs[s := NetSub(w, s)])).(
      worldSubscribers := LinkedInSubscribers(g.worldSubscribers, Link(c, s, w)),
      subToConns := LinkedInReverse(g.subToConns, Link(c, s, w)))
  }

  ghost function Linked(h: History, l: Link): History { h.(links := h.links + {l}) }

  lemma SubscribeSessions(conns: Slots, seats: set<Seat>, links: set<Link>, c: Conn, e: Entry, s: Sub, w: World)
    requires SeatedSessions(conns, seats) && LinkedSessions(conns, links) && KeyedByServer(conns) && Live(conns, c)
    requires s !in conns[c].value.subs
    requires e.session == conns[c].value.session && e.subs == conns[c].value.subs[s := NetSub(w, s)]
    ensures var conns' := conns[c := Some(e)];
      SeatedSessions(conns', seats) && LinkedSessions(conns', links + {Link(c, s, w)}) && KeyedByServer(conns')
  {
    var conns' := conns[c := Some(e)];
    assert forall d: Conn :: AttachedTo(conns', d) == AttachedTo(conns, d);
    assert forall d: Conn :: d != c ==> SubsOf(conns', d) == SubsOf(conns, d);
    assert SubsOf(conns', c) == e.subs && SubsOf(conns, c) == conns[c].value.subs;
  }

  lemma SubscribeAgrees(g: Gate, h: History, c: Conn, s: Sub, w: World)
    requires Agrees(g, h) && Live(g.connections, c) && AttachedTo(g.connections, c) == Some(w)
    requires s !in g.connections[c].value.subs
    ensures Agrees(Subscribed(g, c, s, w), Linked(h, Link(c, s, w)))
    ensures Served(g, h, Subscribed(g, c, s, w), Linked(h, Link(c, s, w)), c)
  {
    hide SeatedIndex, LinkedSubscribers, LinkedReverse, KeyedByServer, LinkedInSubscribers, LinkedInReverse,
         PendingAgrees, ByConnAgrees, CallersSeated, AnswersAgree, IdsBelow, AllStaleKept, StaleKept, LiveCount, Served, OwnCalls, Evolved;
    var e := Subscribed(g, c, s, w).connections[c].value;
    assert SubsOf(g.connections, c) == g.connections[c].value.subs;
    SubscribeSessions(g.connections, h.seats, h.links, c, e, s, w);
    LinkSubscribers(g.worldSubscribers, h.links, Link(c, s, w));
    LinkReverse(g.subToConns, h.links, Link(c, s, w));
    ChangeCounts(g.connections, c, e);
    LiveStale(g, h, c);
    SameStale(g.connections[c].value, e, h.outbox[c], h.episodes[c]);
    StaleChanged(g.connections, h.outbox, h.episodes, c, e, h.outbox[c], h.episodes[c]);
    assert h.outbox[c := h.outbox[c]] == h.outbox && h.episodes[c := h.episodes[c]] == h.episodes;
    SameCalls(h.calls, c);
    QuietServed(g, h, Subscribed(g, c, s, w), Linked(h, Link(c, s, w)), c);
  }

  function Unsubscribed(g: Gate, c: Conn, s: Sub): Gate
    requires Live(g.connections, c) && s in g.connections[c].value.subs
  {
    var e := g.connections[c].value;
    var l := Link(c, s, e.subs[s].world);
    WithEntry(g, c, e.(subs := e.subs - {s})).(
      worldSubscribers := UnlinkedSubscribers(g.worldSubscribers, l), subToConns := UnlinkedReverse(g.subToConns, l))
  }

  ghost function Unlinked(h: History, l: Link): History { h.(links := h.links - {l}) }

  lemma UnsubscribeSessions(conns: Slots, seats: set<Seat>, links: set<Link>, c: Conn, e: Entry, s: Sub)
    requires SeatedSessions(conns, seats) && LinkedSessions(conns, links) && KeyedByServer(conns) && Live(conns, c)
    requires s in conns[c].value.subs
    requires e.session == conns[c].value.session && e.subs == conns[c].value.subs - {s}
    ensures var conns' := conns[c := Some(e)];
      && SeatedSessions(conns', seats) && KeyedByServer(conns')
      && LinkedSessions(conns', links - {Link(c, s, conns[c].value.subs[s].world)})
  {
    var conns' := conns[c := Some(e)];
    assert forall d: Conn :: AttachedTo(conns', d) == AttachedTo(conns, d);
    assert forall d: Conn :: d != c ==> SubsOf(conns', d) == SubsOf(conns, d);
    assert SubsOf(conns', c) == e.subs && SubsOf(conns, c) == conns[c].value.subs;
  }

  lemma UnsubscribeAgrees(g: Gate, h: History, c: Conn, s: Sub)
    requires Agrees(g, h) && Live(g.connections, c) && s in g.connections[c].value.subs
    ensures var l := Link(c, s, g.connections[c].value.subs[s].world);
      Agrees(Unsubscribed(g, c, s), Unlinked(h, l)) && Served(g, h, Unsubscribed(g, c, s), Unlinked(h, l), c)
  {
    hide SeatedIndex, LinkedSubscribers, LinkedReverse, SeatedSessions, LinkedSessions, KeyedByServer, UnlinkedSubscribers, UnlinkedReverse,
         PendingAgrees, ByConnAgrees, CallersSeated, AnswersAgree, IdsBelow, AllStaleKept, StaleKept, LiveCount, Served, OwnCalls, Evolved;
    var e := Unsubscribed(g, c, s).connections[c].value;
    var l := Link(c, s, g.connections[c].value.subs[s].world);
    UnsubscribeSessions(g.connections, h.seats, h.links, c, e, s);
    UnlinkSubscribers(g.worldSubscribers, h.links, l);
    UnlinkReverse(g.subToConns, h.links, l);
    ChangeCounts(g.connections, c, e);
    LiveStale(g, h, c);
    SameStale(g.connections[c].value, e, h.outbox[c], h.episodes[c]);
    StaleChanged(g.connections, h.outbox, h.episodes, c, e, h.outbox[c], h.episodes[c]);
    assert h.outbox[c := h.outbox[c]] == h.outbox && h.episodes[c := h.episodes[c]] == h.episodes;
    SameCalls(h.calls, c);
    QuietServed(g, h, Unsubscribed(g, c, s), Unlinked(h, l), c);
  }

  // -------------------------------------------------------------- calls

  function ClientsOf(byConn: map<Conn, set<ClientId>>, c: Conn): set<ClientId>
  {
    if c in byConn then byConn[c] else {}
  }

  /** A call is accepted under the next gateway id. */
  function Accepted(g: Gate, c: Conn, client: ClientId, w: World): Gate
  {
    g.(pendingCalls := g.pendingCalls[(w, g.nextRequest) := PendingCall(c, client)],
       pendingByConnection := g.pendingByConnection[c := ClientsOf(g.pendingByConnection, c) + {client}],
       nextRequest := g.nextRequest + 1)
  }

  ghost function Recorded(g: Gate, h: History, c: Conn, client: ClientId, w: World): History
  {
    h.(calls := h.calls[g.nextRequest := Record(w, c, client, Waiting)])
  }

  lemma AcceptPending(pending: PendingCalls, calls: Calls, next: nat, w: World, c: Conn, client: ClientId)
    requires PendingAgrees(pending, calls) && IdsBelow(calls, next)
    ensures PendingAgrees(pending[(w, next) := PendingCall(c, client)], calls[next := Record(w, c, client, Waiting)])
  {
  }

  lemma AcceptByConn(byConn: map<Conn, set<ClientId>>, calls: Calls, next: nat, w: World, c: Conn, client: ClientId)
    requires ByConnAgrees(byConn, calls) && IdsBelow(calls, next) && client !in ClientsOf(byConn, c)
    ensures ByConnAgrees(byConn[c := ClientsOf(byConn, c) + {client}], calls[next := Record(w, c, client, Waiting)])
  {
    var after, index := calls[next := Record(w, c, client, Waiting)], byConn[c := ClientsOf(byConn, c) + {client}];
    assert Waits(after, next);
    forall d, id | d in index && id in index[d]
      ensures ClientWaits(after, d, id)
    {
      if d in byConn && id in byConn[d] {
        assert ClientWaits(calls, d, id);
        var k :| Waits(calls, k) && calls[k].conn == d && calls[k].client == id;
        assert Waits(after, k);
      }
    }
    forall k | Waits(after, k) && k != next
      ensures Waits(calls, k) && after[k] == calls[k]
    {
    }
  }

  lemma AcceptAnswers(answers: seq<Answer>, calls: Calls, next: nat, w: World, c: Conn, client: ClientId)
    requires AnswersAgree(answers, calls) && IdsBelow(calls, next)
    ensures var after := calls[next := Record(w, c, client, Waiting)];
      AnswersAgree(answers, after) && IdsBelow(after, next + 1) && Evolved(calls, after)
  {
  }

  lemma AcceptAgrees(g: Gate, h: History, c: Conn, client: ClientId, w: World)
    requires Agrees(g, h) && AttachedTo(g.connections, c) == Some(w)
    requires client !in ClientsOf(g.pendingByConnection, c)
    ensures Agrees(Accepted(g, c, client, w), Recorded(g, h, c, client, w))
    ensures Served(g, h, Accepted(g, c, client, w), Recorded(g, h, c, client, w), c)
  {
    hide SeatedIndex, LinkedSessions, LinkedSubscribers, LinkedReverse, KeyedByServer, LinksSeated,
         PendingAgrees, ByConnAgrees, AnswersAgree, IdsBelow, AllStaleKept, LiveCount, Evolved, ClientsOf, Served, OwnCalls;
    AcceptPending(g.pendingCalls, h.calls, g.nextRequest, w, c, client);
    AcceptByConn(g.pendingByConnection, h.calls, g.nextRequest, w, c, client);
    AcceptAnswers(h.answers, h.calls, g.nextRequest, w, c, client);
    AcceptsOwn(h.calls, g.nextRequest, w, c, client);
    LiveStale(g, h, c);
    QuietServed(g, h, Accepted(g, c, client, w), Recorded(g, h, c, client, w), c);
  }

  /** The answer to call `k` of world `w` leaves the pending maps. */
  function Answered(g: Gate, w: World, k: nat): Gate
    requires (w, k) in g.pendingCalls
  {
    var p := g.pendingCalls[(w, k)];
    g.(pendingCalls := g.pendingCalls - {(w, k)},
       pendingByConnection := if p.conn !in g.pendingByConnection then g.pendingByConnection
                              else g.pendingByConnection[p.conn := g.pendingByConnection[p.conn] - {p.client}])
  }

  /** The answer is recorded, and its message is meant for the caller. */
  ghost function Routing(g: Gate, h: History, w: World, k: nat, done: bool): History
    requires (w, k) in g.pendingCalls && k in h.calls
  {
    var p := g.pendingCalls[(w, k)];
    h.(calls := h.calls[k := h.calls[k].(fate := Routed(|h.answers|))],
       answers := h.answers + [Answer(p.conn, p.client, k, done)],
       log := h.log + [Offer(p.conn, ReducerResult(p.client, done))])
  }

  lemma RoutePending(pending: PendingCalls, calls: Calls, w: World, k: nat, fate: Fate)
    requires PendingAgrees(pending, calls) && (w, k) in pending && !fate.Waiting?
    ensures k in calls && PendingAgrees(pending - {(w, k)}, calls[k := calls[k].(fate := fate)])
  {
  }

  lemma RouteByConn(byConn: map<Conn, set<ClientId>>, calls: Calls, k: nat, fate: Fate)
    requires ByConnAgrees(byConn, calls) && Waits(calls, k) && !fate.Waiting?
    ensures calls[k].conn in byConn
    ensures ByConnAgrees(byConn[calls[k].conn := byConn[calls[k].conn] - {calls[k].client}],
                         calls[k := calls[k].(fate := fate)])
  {
    var c, client := calls[k].conn, calls[k].client;
    var after, index := calls[k := calls[k].(fate := fate)], byConn[c := byConn[c] - {client}];
    forall d, id | d in index && id in index[d]
      ensures ClientWaits(after, d, id)
    {
      assert ClientWaits(calls, d, id);
      var j :| Waits(calls, j) && calls[j].conn == d && calls[j].client == id;
      assert j != k && Waits(after, j);
    }
    forall j | Waits(after, j)
      ensures Waits(calls, j) && after[j] == calls[j] && j != k && !SameCaller(calls[j], calls[k])
    {
    }
  }

  lemma RouteAnswers(answers: seq<Answer>, calls: Calls, k: nat, next: nat, done: bool)
    requires AnswersAgree(answers, calls) && Waits(calls, k) && IdsBelow(calls, next)
    ensures var after := calls[k := calls[k].(fate := Routed(|answers|))];
      && AnswersAgree(answers + [Answer(calls[k].conn, calls[k].client, k, done)], after)
      && IdsBelow(after, next) && Evolved(calls, after)
  {
  }

  lemma RoutedKept(g: Gate, h: History, w: World, k: nat, done: bool)
    requires Agrees(g, h) && (w, k) in g.pendingCalls
    ensures k in h.calls && Kept(g, h, Answered(g, w, k), Routing(g, h, w, k, done))
  {
    hide IndexesAgree, ByConnAgrees, IdsBelow, AllStaleKept, LiveCount, AllFaithful, OutGrows, StaleLasts, Overflowed;
    assert h.calls[k] == Record(w, g.pendingCalls[(w, k)].conn, g.pendingCalls[(w, k)].client, Waiting);
    RouteAnswers(h.answers, h.calls, k, g.nextRequest, done);
    forall c: Conn | c < |g.connections|
      ensures ConnKept(g, h, Answered(g, w, k), Routing(g, h, w, k, done), c)
    {
      SlotLasts(g, h, Answered(g, w, k), Routing(g, h, w, k, done), c);
    }
  }

  lemma RouteFaithful(g: Gate, h: History, w: World, k: nat, done: bool)
    requires AllFaithful(h.outbox, h.log, h.answers) && (w, k) in g.pendingCalls && k in h.calls
    ensures var p, h' := g.pendingCalls[(w, k)], Routing(g, h, w, k, done);
      AllFaithful(h'.outbox, h'.log, h'.answers) && Due(h', p.conn, ReducerResult(p.client, done))
  {
    hide Within, Plain, Successes;
    var p := g.pendingCalls[(w, k)];
    var m, h' := ReducerResult(p.client, done), Routing(g, h, w, k, done);
    forall d: Conn
      ensures Faithful(h'.outbox, h'.log, h'.answers, d) && (d == p.conn ==> Due(h', d, m))
    {
      assert Faithful(h.outbox, h.log, h.answers, d);
      OfferStep(h, p.conn, m, d);
      AnswersGrow(h.answers, Answer(p.conn, p.client, k, done), d);
      assert Offering(h, p.conn, m).log == h'.log && OutOf(Offering(h, p.conn, m).outbox, d) == OutOf(h'.outbox, d);
    }
  }

  lemma RouteAgrees(g: Gate, h: History, w: World, k: nat, done: bool)
    requires Agrees(g, h) && (w, k) in g.pendingCalls
    ensures k in h.calls && Agrees(Answered(g, w, k), Routing(g, h, w, k, done))
    ensures Kept(g, h, Answered(g, w, k), Routing(g, h, w, k, done))
    ensures var p := g.pendingCalls[(w, k)];
      && Due(Routing(g, h, w, k, done), p.conn, ReducerResult(p.client, done))
      && Since(h, Routing(g, h, w, k, done)) == [Offer(p.conn, ReducerResult(p.client, done))]
  {
    hide IndexesAgree, ByConnAgrees, AnswersAgree, IdsBelow, AllStaleKept, LiveCount, Evolved, AllFaithful, Kept, Due;
    assert h.calls[k] == Record(w, g.pendingCalls[(w, k)].conn, g.pendingCalls[(w, k)].client, Waiting);
    RoutedKept(g, h, w, k, done);
    RouteFaithful(g, h, w, k, done);
    RoutePending(g.pendingCalls, h.calls, w, k, Routed(|h.answers|));
    RouteByConn(g.pendingByConnection, h.calls, k, Routed(|h.answers|));
    RouteAnswers(h.answers, h.calls, k, g.nextRequest, done);
    SameIndexes(g, Answered(g, w, k), h, Routing(g, h, w, k, done));
  }

  lemma SameIndexes(g: Gate, g': Gate, h: History, h': History)
    requires IndexesAgree(g, h) && h'.seats == h.seats && h'.links == h.links
    requires g'.connections == g.connections && g'.attachedByWorld == g.attachedByWorld
    requires g'.worldSubscribers == g.worldSubscribers && g'.subToConns == g.subToConns
    ensures IndexesAgree(g', h')
  {
  }

  /** A message to `c` leaves every other waiting call in place. */
  lemma PendingKept(g: Gate, h: History, g': Gate, h': History, c: Conn, key: (World, nat))
    requires Agrees(g, h) && Agrees(g', h') && Touched(g, h, g', h', c) && key in g.pendingCalls
    ensures || (key in g'.pendingCalls && g'.pendingCalls[key] == g.pendingCalls[key])
            || (g.pendingCalls[key].conn == c && !Live(g'.connections, c))
  {
    hide IndexesAgree, ByConnAgrees, AnswersAgree, IdsBelow, AllStaleKept, LiveCount, CallersSeated;
    var (w, k) := key;
    assert h.calls[k] == Record(w, g.pendingCalls[key].conn, g.pendingCalls[key].client, Waiting);
    if !Live(g'.connections, c) && g.pendingCalls[key].conn != c {
      assert h'.calls[k] == h.calls[k];
      assert Waits(h'.calls, k);
    }
  }

  /** Some id is not in use. */
  lemma {:induction false} Unused(used: set<nat>)
    ensures exists n: nat :: n !in used
  {
    var top := Above(used);
    assert top !in used;
  }

  ghost function Above(used: set<nat>): (top: nat)
    ensures forall n :: n in used ==> n < top
  {
    if used == {} then 0
    else
      var n :| n in used;
      var rest := Above(used - {n});
      assert used == (used - {n}) + {n};
      if rest > n then rest else n + 1
  }

  lemma FreshSub(g: Gate, h: History, c: Conn, w: World, s: Sub)
    requires Agrees(g, h) && Live(g.connections, c) && AttachedTo(g.connections, c) == Some(w)
    requires w in g.subToConns ==> s !in g.subToConns[w]
    ensures s !in g.connections[c].value.subs
  {
    hide CallsAgree, AllStaleKept, LiveCount, SeatedIndex, LinkedSubscribers;
    assert SubsOf(g.connections, c) == g.connections[c].value.subs;
    forall x | x in SubsOf(g.connections, c)
      ensures w in g.subToConns && x in g.subToConns[w]
    {
      assert Link(c, x, SubsOf(g.connections, c)[x].world) in h.links;
    }
  }

  lemma KeptSelf(g: Gate, h: History)
    requires Agrees(g, h)
    ensures Kept(g, h, g, h)
  {
    hide Agrees, StaleLasts, Overflowed, OutGrows;
    forall c: Conn | c < |g.connections|
      ensures ConnKept(g, h, g, h, c)
    {
      SlotLasts(g, h, g, h, c);
    }
  }

  lemma AgreedLinks(g: Gate, h: History, c: Conn)
    requires Agrees(g, h) && Live(g.connections, c)
    ensures LinkedSubscribers(g.worldSubscribers, h.links) && LinkedReverse(g.subToConns, h.links)
    ensures forall s, w :: Link(c, s, w) in h.links ==>
      s in g.connections[c].value.subs && g.connections[c].value.subs[s] == NetSub(w, s)
  {
    OwnLinks(g, h, c);
  }

  lemma SessionServed(g: Gate, h: History, c: Conn, e: Entry)
    requires Live(g.connections, c) && c in h.outbox && c in h.episodes
    requires e.stale == g.connections[c].value.stale && e.pendingStale == g.connections[c].value.pendingStale
    ensures var g' := WithEntry(g, c, e).(nextSession := g.nextSession + 1);
      Served(g, h, g', WithOut(h, c, h.outbox[c], h.episodes[c], []), c)
    ensures WithOut(h, c, h.outbox[c], h.episodes[c], []).log == h.log
  {
    assert h.log + [] == h.log;
  }

  lemma SessionCounted(g: Gate, h: History)
    requires Agrees(g, h)
    ensures Agrees(g.(nextSession := g.nextSession + 1), h)
  {
    hide SeatedSessions, LinkedSessions, KeyedByServer, SeatedIndex, LinkedSubscribers, LinkedReverse, LinksSeated,
         PendingAgrees, ByConnAgrees, CallersSeated, AnswersAgree, IdsBelow, AllStaleKept, LiveCount;
  }

  ghost function CountedResync(h: History, c: Conn): History
  {
    h.(resyncs := h.resyncs[c := ResyncsOf(h, c) + 1])
  }

  lemma ResyncCounted(g: Gate, h: History, g': Gate, h': History, c: Conn)
    requires Agrees(g', h') && About(g, h, g', h', c)
    ensures Agrees(g', CountedResync(h', c)) && About(g, h, g', CountedResync(h', c), c)
    ensures ResyncsOf(CountedResync(h', c), c) > ResyncsOf(h, c)
  {
    hide SeatedSessions, LinkedSessions, KeyedByServer, SeatedIndex, LinkedSubscribers, LinkedReverse, LinksSeated,
         PendingAgrees, ByConnAgrees, CallersSeated, AnswersAgree, IdsBelow, AllStaleKept, LiveCount, AllFaithful, Evolved, OwnCalls;
    assert CountedResync(h', c).resyncs - {c} == h'.resyncs - {c};
  }

  lemma FreshEpisode(e: Entry)
    requires !e.stale && e.pendingStale == [] && !e.hasPendingStale
    ensures forall out :: StaleKept(e, out, Episode(0, []))
  {
  }

  lemma IdSkipped(g: Gate, h: History, c: Conn)
    requires Agrees(g, h) && Live(g.connections, c)
    ensures Agrees(g.(nextRequest := g.nextRequest + 1), h)
    ensures Served(g, h, g.(nextRequest := g.nextRequest + 1), h, c)
  {
    LiveStale(g, h, c);
    hide SeatedSessions, LinkedSessions, KeyedByServer, SeatedIndex, LinkedSubscribers, LinkedReverse, LinksSeated,
         PendingAgrees, ByConnAgrees, CallersSeated, AnswersAgree, AllStaleKept, LiveCount;
  }

  /** A sealed fate survives whatever happens to the caller. */
  lemma RouteStands(g: Gate, h: History, g': Gate, h': History, c: Conn, k: nat)
    requires Touched(g, h, g', h', c) && k in h.calls && h.calls[k].fate.Routed?
    ensures k in h'.calls && h'.calls[k] == h.calls[k] && h'.answers == h.answers
  {
  }

  lemma AnsweredOthers(g: Gate, w: World, k: nat, key: (World, nat))
    requires (w, k) in g.pendingCalls && key in g.pendingCalls && key != (w, k)
    ensures key in Answered(g, w, k).pendingCalls && Answered(g, w, k).pendingCalls[key] == g.pendingCalls[key]
  {
  }

  lemma PendingLive(g: Gate, h: History, key: (World, nat))
    requires Agrees(g, h) && key in g.pendingCalls
    ensures Live(g.connections, g.pendingCalls[key].conn)
  {
    hide ByConnAgrees, AnswersAgree, IdsBelow, AllStaleKept, LiveCount, SeatedIndex, LinkedSessions, LinkedSubscribers,
         LinkedReverse, KeyedByServer, LinksSeated;
    var (w, k) := key;
    assert h.calls[k] == Record(w, g.pendingCalls[key].conn, g.pendingCalls[key].client, Waiting);
    assert Seat(g.pendingCalls[key].conn, w) in h.seats;
  }

  /** A freed slot stays free. */
  lemma DeadStay(g: Gate, h: History, g': Gate, h': History)
    requires Kept(g, h, g', h')
    ensures |g.connections| <= |g'.connections|
    ensures forall c: Conn :: c < |g.connections| && !Live(g.connections, c) ==> !Live(g'.connections, c)
  {
  }

  /** A message to `c` adds no waiting call. */
  lemma NothingNew(g: Gate, h: History, g': Gate, h': History, c: Conn)
    requires Agrees(g, h) && Agrees(g', h') && Touched(g, h, g', h', c)
    ensures g'.pendingCalls.Keys <= g.pendingCalls.Keys
  {
    hide IndexesAgree, ByConnAgrees, AnswersAgree, IdsBelow, AllStaleKept, LiveCount, CallersSeated;
    forall key | key in g'.pendingCalls
      ensures key in g.pendingCalls
    {
      var (w, k) := key;
      assert h'.calls[k] == Record(w, g'.pendingCalls[key].conn, g'.pendingCalls[key].client, Waiting);
      assert Waits(h.calls, k) && h.calls[k].world == w;
    }
  }

  lemma AddedKept(g: Gate, h: History)
    requires Agrees(g, h)
    ensures Kept(g, h, Added(g), AddedHistory(g, h))
  {
    hide Agrees, StaleLasts, Overflowed, OutGrows;
    forall c: Conn | c < |g.connections|
      ensures ConnKept(g, h, Added(g), AddedHistory(g, h), c)
    {
      SlotLasts(g, h, Added(g), AddedHistory(g, h), c);
    }
  }

  /** Dropping `c` concerns nobody else. */
  lemma FreeTouched(g: Gate, h: History, c: Conn, ws: WorldSubs, rev: Reverse)
    requires Live(g.connections, c) && g.activeConnections > 0
    ensures Touched(g, h, Freed(g, c, ws, rev), Forgotten(h, c), c)
  {
  }

  // ------------------------------------------------------- what handlers do

  lemma SelfTouched(g: Gate, h: History, c: Conn)
    requires Agrees(g, h)
    ensures Touched(g, h, g, h, c)
  {
    hide SlabAgrees, IndexesAgree, CallsAgree, AllStaleKept;
    if Live(g.connections, c) {
      LiveStale(g, h, c);
      SameCalls(h.calls, c);
    } else {
      DeadTouched(g, h, c);
    }
  }

  /** If `c` is still there, its attachment and subscriptions are the same. */
  ghost predicate SameStanding(g: Gate, g': Gate, c: Conn)
  {
    Live(g'.connections, c) ==>
      AttachedTo(g'.connections, c) == AttachedTo(g.connections, c) && SubsOf(g'.connections, c) == SubsOf(g.connections, c)
  }

  /** If `c` is still there, it has gone from nowhere to `w`. */
  ghost predicate BecameAttached(g: Gate, g': Gate, c: Conn, w: World)
  {
    Live(g'.connections, c) ==>
      && AttachedTo(g.connections, c) == None && AttachedTo(g'.connections, c) == Some(w)
      && SubsOf(g'.connections, c) == SubsOf(g.connections, c)
  }

  /** `s` is new to `c`; if `c` is still there, it has it on its world. */
  ghost predicate BecameSubscribed(g: Gate, g': Gate, c: Conn, s: Sub)
  {
    && AttachedTo(g.connections, c).Some? && s !in SubsOf(g.connections, c)
    && (Live(g'.connections, c) ==>
          && AttachedTo(g'.connections, c) == AttachedTo(g.connections, c)
          && SubsOf(g'.connections, c) == SubsOf(g.connections, c)[s := NetSub(AttachedTo(g.connections, c).value, s)])
  }

  ghost predicate LostSubscription(g: Gate, g': Gate, c: Conn, s: Sub)
  {
    Live(g'.connections, c) ==>
      && AttachedTo(g'.connections, c) == AttachedTo(g.connections, c)
      && SubsOf(g'.connections, c) == SubsOf(g.connections, c) - {s}
  }

  /** `c` is attached nowhere, subscribed to nothing, and waits for nothing. */
  ghost predicate NothingLeft(g: Gate, h: History, c: Conn)
  {
    && AttachedTo(g.connections, c) == None && SubsOf(g.connections, c) == map[]
    && forall k :: Waits(h.calls, k) ==> h.calls[k].conn != c
  }

  /** If `c` is still there, no call was taken. */
  ghost predicate CallsSame(h: History, g': Gate, h': History, c: Conn)
  {
    Live(g'.connections, c) ==> h'.calls == h.calls
  }

  /** Exactly one call was taken: under the next id, for `c`'s world. */
  ghost predicate CallTaken(g: Gate, h: History, h': History, c: Conn, client: ClientId)
  {
    && AttachedTo(g.connections, c).Some?
    && h'.calls == h.calls[g.nextRequest := Record(AttachedTo(g.connections, c).value, c, client, Waiting)]
  }

  lemma TouchedServed(g: Gate, h: History, g': Gate, h': History, c: Conn)
    requires Touched(g, h, g', h', c)
    ensures Served(g, h, g', h', c) && About(g, h, g', h', c) && StaleLasts(g, h, g', h', c)
    ensures SameStanding(g, g', c) && CallsSame(h, g', h', c)
  {
    hide StaleLasts, Evolved, OwnCalls;
  }

  lemma StandingSame(g: Gate, g': Gate, c: Conn)
    requires AttachedTo(g'.connections, c) == AttachedTo(g.connections, c)
    requires SubsOf(g'.connections, c) == SubsOf(g.connections, c)
    ensures SameStanding(g, g', c)
  {
  }

  /** A message to `c` after it has been served does not change its standing. */
  lemma StandingAfter(g: Gate, g1: Gate, h1: History, g2: Gate, h2: History, c: Conn)
    requires SameStanding(g, g1, c) && Touched(g1, h1, g2, h2, c)
    ensures SameStanding(g, g2, c)
  {
  }

  lemma AttachedStanding(g: Gate, c: Conn, w: World)
    requires Live(g.connections, c) && g.connections[c].value.session.Some? && AttachedTo(g.connections, c) == None
    ensures BecameAttached(g, Attached(g, c, w), c, w) && Live(Attached(g, c, w).connections, c)
  {
  }

  lemma AttachedAfter(g: Gate, g1: Gate, h1: History, g2: Gate, h2: History, c: Conn, w: World)
    requires BecameAttached(g, g1, c, w) && Touched(g1, h1, g2, h2, c)
    ensures BecameAttached(g, g2, c, w)
  {
  }

  lemma SubscribedStanding(g: Gate, c: Conn, s: Sub, w: World)
    requires Live(g.connections, c) && AttachedTo(g.connections, c) == Some(w) && s !in g.connections[c].value.subs
    ensures BecameSubscribed(g, Subscribed(g, c, s, w), c, s) && Live(Subscribed(g, c, s, w).connections, c)
  {
    assert s !in SubsOf(g.connections, c);
  }

  lemma SubscribedAfter(g: Gate, g1: Gate, h1: History, g2: Gate, h2: History, c: Conn, s: Sub)
    requires BecameSubscribed(g, g1, c, s) && Touched(g1, h1, g2, h2, c)
    ensures BecameSubscribed(g, g2, c, s)
  {
    assert Live(g2.connections, c) ==> SubsOf(g2.connections, c) == SubsOf(g1.connections, c);
  }

  lemma UnsubscribedStanding(g: Gate, c: Conn, s: Sub)
    requires Live(g.connections, c) && s in g.connections[c].value.subs
    ensures LostSubscription(g, Unsubscribed(g, c, s), c, s)
  {
  }

  lemma NotSubscribed(g: Gate, h: History, g': Gate, h': History, c: Conn, s: Sub)
    requires s !in SubsOf(g.connections, c) && Touched(g, h, g', h', c)
    ensures LostSubscription(g, g', c, s)
  {
    assert SubsOf(g.connections, c) - {s} == SubsOf(g.connections, c);
  }

  lemma DetachedStanding(g: Gate, h: History, c: Conn, ws: WorldSubs, rev: Reverse)
    requires Live(g.connections, c) && g.connections[c].value.session.Some?
    ensures NothingLeft(Detached(g, c, ws, rev), Forgotten(h, c), c)
    ensures Live(Detached(g, c, ws, rev).connections, c) && Forgotten(h, c).log == h.log
  {
  }

  /** Every subscription is on the world its session is attached to. */
  lemma OneWorld(g: Gate, h: History, c: Conn)
    requires IndexesAgree(g, h)
    ensures forall s :: s in SubsOf(g.connections, c) ==>
      AttachedTo(g.connections, c) == Some(SubsOf(g.connections, c)[s].world)
  {
    hide SeatedIndex, LinkedSubscribers, LinkedReverse, KeyedByServer;
    forall s | s in SubsOf(g.connections, c)
      ensures AttachedTo(g.connections, c) == Some(SubsOf(g.connections, c)[s].world)
    {
      assert Link(c, s, SubsOf(g.connections, c)[s].world) in h.links;
    }
  }

  lemma NoSeatNoCall(g: Gate, h: History)
    requires IndexesAgree(g, h) && CallersSeated(h.calls, h.seats)
    ensures forall k :: Waits(h.calls, k) ==> AttachedTo(g.connections, h.calls[k].conn) == Some(h.calls[k].world)
  {
    hide SeatedIndex, LinkedSubscribers, LinkedReverse, KeyedByServer, LinkedSessions, LinksSeated;
    forall k | Waits(h.calls, k)
      ensures AttachedTo(g.connections, h.calls[k].conn) == Some(h.calls[k].world)
    {
      assert Seat(h.calls[k].conn, h.calls[k].world) in h.seats;
    }
  }

  /** Without an attachment there is nothing to leave behind. */
  lemma NothingThere(g: Gate, h: History, c: Conn)
    requires Agrees(g, h) && AttachedTo(g.connections, c) == None
    ensures NothingLeft(g, h, c)
  {
    hide IndexesAgree, PendingAgrees, ByConnAgrees, CallersSeated, AnswersAgree, IdsBelow, AllStaleKept, LiveCount;
    OneWorld(g, h, c);
    NoSeatNoCall(g, h);
    assert SubsOf(g.connections, c) == map[];
  }

  lemma NothingAfter(g: Gate, h: History, g': Gate, h': History, c: Conn)
    requires NothingLeft(g, h, c) && Touched(g, h, g', h', c)
    ensures NothingLeft(g', h', c)
  {
  }

  lemma AcceptedStanding(g: Gate, h: History, c: Conn, client: ClientId, w: World)
    requires AttachedTo(g.connections, c) == Some(w)
    ensures SameStanding(g, Accepted(g, c, client, w), c)
    ensures CallTaken(g, h, Recorded(g, h, c, client, w), c, client)
    ensures Recorded(g, h, c, client, w).log == h.log
  {
  }

  /** Whom serving `c` resyncs. */
  lemma OthersNotResynced(g: Gate, h: History, g': Gate, h': History, c: Conn, d: Conn)
    requires About(g, h, g', h', c) && d != c
    ensures ResyncsOf(h', d) == ResyncsOf(h, d)
  {
    hide Evolved, OwnCalls, OutGrows;
    assert d in h.resyncs ==> d in h.resyncs - {c};
    assert d in h'.resyncs ==> d in h'.resyncs - {c};
  }

  // --------------------------------------------------- in plain terms

  /** Sessions, the attachment index, the subscriber lists and the reverse
      index say the same about every connection, subscription and world. */
  lemma IndexesDescribeOne(g: Gate, h: History, c: Conn, s: Sub, w: World)
    requires Agrees(g, h)
    ensures AttachedTo(g.connections, c) == Some(w) <==> w in g.attachedByWorld && c in g.attachedByWorld[w]
    ensures s in SubsOf(g.connections, c) && SubsOf(g.connections, c)[s].world == w
            <==> w in g.worldSubscribers && (c, s) in g.worldSubscribers[w]
    ensures s in SubsOf(g.connections, c) && SubsOf(g.connections, c)[s].world == w
            <==> w in g.subToConns && s in g.subToConns[w] && c in g.subToConns[w][s]
    ensures s in SubsOf(g.connections, c) ==> AttachedTo(g.connections, c) == Some(SubsOf(g.connections, c)[s].world)
  {
    hide CallsAgree, AllStaleKept, LiveCount, KeyedByServer, NoDup;
    OneWorld(g, h, c);
    assert Seat(c, w) in h.seats <==> AttachedTo(g.connections, c) == Some(w);
    assert Link(c, s, w) in h.links <==> s in SubsOf(g.connections, c) && SubsOf(g.connections, c)[s].world == w;
  }

  /** Every accepted call is pending, answered once, or discarded; the two
      pending maps agree; and an answer goes to the connection and client id
      that made the call. */
  lemma CallsAccounted(g: Gate, h: History, k: nat)
    requires Agrees(g, h) && k in h.calls
    ensures var r := h.calls[k];
      && ((r.world, k) in g.pendingCalls <==> r.fate.Waiting?)
      && (r.fate.Waiting? ==>
            && g.pendingCalls[(r.world, k)] == PendingCall(r.conn, r.client)
            && r.conn in g.pendingByConnection && r.client in g.pendingByConnection[r.conn]
            && AttachedTo(g.connections, r.conn) == Some(r.world))
      && (r.fate.Routed? ==>
            && r.fate.n < |h.answers| && h.answers[r.fate.n].call == k
            && h.answers[r.fate.n].conn == r.conn && h.answers[r.fate.n].client == r.client)
    ensures forall n :: 0 <= n < |h.answers| && h.answers[n].call == k ==> h.calls[k].fate == Routed(n)
    ensures forall c, id :: c in g.pendingByConnection && id in g.pendingByConnection[c] ==> ClientWaits(h.calls, c, id)
  {
    hide AllStaleKept, LiveCount, IndexesAgree, IdsBelow;
    NoSeatNoCall(g, h);
    assert Waits(h.calls, k) <==> h.calls[k].fate.Waiting?;
  }

  /** A stale session has been sent signals only since it turned stale, one
      notification per subscription was queued for it, and what is still
      queued is the rest of those. */
  lemma StaleSession(g: Gate, h: History, c: Conn)
    requires Agrees(g, h) && Live(g.connections, c)
    ensures var e := g.connections[c].value;
      && c in h.outbox && c in h.episodes
      && (e.hasPendingStale <==> e.pendingStale != [])
      && (e.stale ==>
            var ep := h.episodes[c];
            && (forall i :: ep.start <= i < |h.outbox[c]| ==> IsSignal(h.outbox[c][i]))
            && NoDup(ep.created)
            && exists k :: 0 <= k <= |ep.created| && e.pendingStale == Notices(ep.created)[k..])
      && (!e.stale ==> e.pendingStale == [])
      && (forall i, j :: 0 <= i < j < |e.pendingStale| ==> e.pendingStale[i] != e.pendingStale[j])
  {
    LiveStale(g, h, c);
    var e := g.connections[c].value;
    assert e.pendingStale != [] ==> e.stale;
  }

  /** A session that is stale, is not resynced and keeps its connection stays
      in the same episode: its transport takes signals only, and its queue of
      notifications only loses notifications at the front. */
  lemma StaleUntilResync(g: Gate, h: History, g': Gate, h': History, c: Conn)
    requires Agrees(g, h) && Agrees(g', h') && Kept(g, h, g', h')
    requires Live(g.connections, c) && g.connections[c].value.stale
    requires Live(g'.connections, c) && ResyncsOf(h', c) == ResyncsOf(h, c)
    ensures var e, e' := g.connections[c].value, g'.connections[c].value;
      && e'.stale && c in h.outbox && c in h'.outbox && h.outbox[c] <= h'.outbox[c]
      && (forall i :: |h.outbox[c]| <= i < |h'.outbox[c]| ==> IsSignal(h'.outbox[c][i]))
      && |e'.pendingStale| <= |e.pendingStale|
      && e'.pendingStale == e.pendingStale[|e.pendingStale| - |e'.pendingStale|..]
  {
    hide Agrees, IsSignal, Overflowed, Evolved, SlotsKept, Accounted;
    LiveStale(g, h, c);
    LiveStale(g', h', c);
    assert ConnKept(g, h, g', h', c);
    var e, e' := g.connections[c].value, g'.connections[c].value;
    var all := Notices(h.episodes[c].created);
    assert e'.pendingStale == all[|all| - |e'.pendingStale|..];
  }

  /** Every successful result among the messages a transport has taken answers
      a call its connection made, with success. */
  lemma SuccessAnswers(g: Gate, h: History, c: Conn, i: nat)
    requires Agrees(g, h) && c in h.outbox && i < |h.outbox[c]|
    requires h.outbox[c][i].ReducerResult? && h.outbox[c][i].done
    ensures exists n :: 0 <= n < |h.answers| && h.answers[n].conn == c && h.answers[n].client == h.outbox[c][i].client
                        && h.answers[n].done
  {
    hide SlabAgrees, IndexesAgree, CallsAgree, AllStaleKept, Within, Plain, Successes;
    assert Faithful(h.outbox, h.log, h.answers, c);
    var m := h.outbox[c][i];
    SuccessesWithin(h.outbox[c], OffersTo(h.log, c));
    SuccessHas(h.outbox[c], m);
    WithinHas(Successes(h.outbox[c]), DoneTo(h.answers, c), m.client);
    DoneHas(h.answers, c, m.client);
  }

  /** Besides stale notifications and disconnects, a transport takes only what
      was meant for its connection, in order, and nothing twice. */
  lemma OnlyOffers(g: Gate, h: History, c: Conn)
    requires Agrees(g, h) && c in h.outbox
    ensures h.outbox[c] == TakenBy(h.log, c)
    ensures Within(Plain(h.outbox[c]), OffersTo(h.log, c))
    ensures Within(Successes(h.outbox[c]), DoneTo(h.answers, c))
  {
    hide SlabAgrees, IndexesAgree, CallsAgree, AllStaleKept, Within, Plain, Successes;
    assert Faithful(h.outbox, h.log, h.answers, c);
    SuccessesWithin(h.outbox[c], OffersTo(h.log, c));
  }
}
