/** Runs of the gateway (`crates/nexum-network/src/gateway.rs`): what each event
    does, and what a whole run amounts to. */
module GatewayRuns {
  import opened Values
  import opened GatewayLog
  import opened GatewayState
  import opened GatewaySends
  import opened GatewayReplies
  import opened GatewayCalls

  /** What drives the gateway: new connections, inbound passes, steps of all
      worlds, pumps and disconnects. `failed` are the transports that fail to
      read, `broken` those that fail to flush, `reason` the length of a text. */
  datatype Event =
    | Connect
    | Process(failed: seq<Conn>, frames: seq<Inbound>, broken: seq<Conn>)
    | Step(outcomes: seq<Outcome>, dead: set<World>, broken: seq<Conn>)
    | PumpAll(broken: seq<Conn>)
    | Close(conn: Conn, reason: nat)

  /** The gateway and its history at one moment. */
  datatype Snap = Snap(g: Gate, h: History)

  // ------------------------------------------------------------------- steps

  function Subscribers(g: Gate, w: World): seq<(Conn, Sub)>
  {
    if w in g.worldSubscribers then g.worldSubscribers[w] else []
  }

  ghost function SubsIn(list: seq<(Conn, Sub)>): set<Sub>
  {
    set p | p in list :: p.1
  }

  /** What `c` gets of drained updates: those of its subscriptions, in the order
      they are listed, each to the first listed for it. */
  ghost function Deliveries(list: seq<(Conn, Sub)>, drained: map<Sub, seq<Update>>, c: Conn): seq<Message>
  {
    if list == [] then []
    else
      var front, (d, s) := list[..|list| - 1], list[|list| - 1];
      Deliveries(front, drained, c)
      + if d == c && s in drained && s !in SubsIn(front) then UpdateMessages(s, 0, drained[s]) else []
  }

  lemma DeliveriesGrow(list: seq<(Conn, Sub)>, drained: map<Sub, seq<Update>>, c: Conn, i: nat)
    requires i < |list|
    ensures Deliveries(list[..i + 1], drained, c) == Deliveries(list[..i], drained, c)
      + if list[i].0 == c && list[i].1 in drained && list[i].1 !in SubsIn(list[..i])
        then UpdateMessages(list[i].1, 0, drained[list[i].1]) else []
    ensures SubsIn(list[..i + 1]) == SubsIn(list[..i]) + {list[i].1}
  {
    assert list[..i + 1][..i] == list[..i] && list[..i + 1][i] == list[i];
    forall s
      ensures s in SubsIn(list[..i + 1]) <==> s in SubsIn(list[..i]) + {list[i].1}
    {
      if s in SubsIn(list[..i]) {
        var p :| p in list[..i] && p.1 == s;
        assert p in list[..i + 1];
      }
      assert list[i] in list[..i + 1];
    }
  }

  /** The tick update of a world, encoded once, to everybody attached. */
  function Ticks(g: Gate, o: Outcome, skipEmpty: bool, c: Conn): seq<Message>
  {
    if (o.content || !skipEmpty) && o.fits && AttachedTo(g.connections, c) == Some(o.world) then [TickUpdate(o.world)] else []
  }

  ghost predicate Broadcasted(a: Snap, b: Snap, o: Outcome, skipEmpty: bool)
  {
    forall c: Conn :: Says(a.h, b.h, c) && Offered(a.h, b.h, c) == Ticks(a.g, o, skipEmpty, c)
  }

  /** A connection that is dropped on the way gets no more. */
  ghost predicate DeliveredTo(a: Snap, b: Snap, o: Outcome, c: Conn)
  {
    var all := if o.changed then Deliveries(Subscribers(a.g, o.world), o.drained, c) else [];
    && Says(a.h, b.h, c) && Offered(a.h, b.h, c) <= all
    && (Live(b.g.connections, c) ==> Offered(a.h, b.h, c) == all)
  }

  ghost predicate Delivered(a: Snap, b: Snap, o: Outcome)
  {
    forall c: Conn :: DeliveredTo(a, b, o, c)
  }

  ghost predicate Routes(a: Snap, b: Snap, o: Outcome)
  {
    && Settles(a.g, a.h, b.g, b.h, Firsts(o.world, o.results))
    && Within(Outcomes(News(a.h, b.h)), o.results)
    && forall c: Conn :: Heard(a.h, b.h, c)
  }

  /** The tick update, then updates, then results. */
  ghost predicate WorldServed(a: Snap, b: Snap, o: Outcome, skipEmpty: bool)
  {
    exists s: Snap, t: Snap :: Broadcasted(a, s, o, skipEmpty) && Delivered(s, t, o) && Routes(t, b, o)
  }

  ghost predicate Sweeps(a: Snap, b: Snap, dead: set<World>)
  {
    && Settles(a.g, a.h, b.g, b.h, Swept(a.g.pendingCalls, dead))
    && (forall key :: key in b.g.pendingCalls ==> key.0 !in dead)
    && forall c: Conn :: Heard(a.h, b.h, c)
  }

  /** World after world, then the calls of dead worlds. */
  ghost predicate FansOut(trace: seq<Snap>, outcomes: seq<Outcome>, skipEmpty: bool)
  {
    |trace| == |outcomes| + 1 && forall i :: 0 <= i < |outcomes| ==> WorldServed(trace[i], trace[i + 1], outcomes[i], skipEmpty)
  }

  /** Exactly the connections in `lost` are lost, and nothing else happens. */
  ghost predicate OnlyLoses(a: Snap, b: Snap, lost: seq<Conn>)
  {
    && b.h.log == a.h.log && b.h.answers == a.h.answers && |b.g.connections| == |a.g.connections|
    && (forall c: Conn :: c < |a.g.connections| ==> (b.g.connections[c] == if c in lost then None else a.g.connections[c]))
    && Settles(a.g, a.h, b.g, b.h, map[])
  }

  /** A step of all worlds. */
  ghost predicate Stepped(a: Snap, b: Snap, outcomes: seq<Outcome>, dead: set<World>, broken: seq<Conn>, skipEmpty: bool)
  {
    && Settles(a.g, a.h, b.g, b.h, Verdicts(a.g.pendingCalls, outcomes, dead))
    && exists trace: seq<Snap>, s: Snap :: FansOut(trace, outcomes, skipEmpty) && trace[0] == a
         && Sweeps(trace[|outcomes|], s, dead) && OnlyLoses(s, b, broken)
  }

  /** One frame: what its request does and says, to nobody else; a frame that
      does not decode costs the connection. */
  ghost predicate FrameServed(a: Snap, b: Snap, f: Inbound, limits: Limits)
  {
    && About(a.g, a.h, b.g, b.h, f.conn) && Says(a.h, b.h, f.conn)
    && match f.request
       case Some(request) => Replied(a.g, a.h, b.g, b.h, f.conn, request, limits)
       case None => !Live(b.g.connections, f.conn) && (Live(a.g.connections, f.conn) ==> Refuses(Offered(a.h, b.h, f.conn), 0))
  }

  ghost predicate Serves(trace: seq<Snap>, frames: seq<Inbound>, limits: Limits)
  {
    |trace| == |frames| + 1 && forall i :: 0 <= i < |frames| ==> FrameServed(trace[i], trace[i + 1], frames[i], limits)
  }

  /** Failed transports are lost first; then frame after frame is served. */
  ghost predicate Processed(a: Snap, b: Snap, failed: seq<Conn>, frames: seq<Inbound>, broken: seq<Conn>, limits: Limits)
  {
    exists trace: seq<Snap> ::
      Serves(trace, frames, limits) && OnlyLoses(a, trace[0], failed) && OnlyLoses(trace[|frames|], b, broken)
  }

  /** What the runtime has for `ks`, one subscription after another. */
  function AllUpdates(ks: seq<Sub>, us: seq<seq<Update>>): seq<Message>
    requires |ks| == |us|
  {
    if ks == [] then [] else AllUpdates(ks[..|ks| - 1], us[..|us| - 1]) + UpdateMessages(ks[|ks| - 1], 0, us[|us| - 1])
  }

  ghost predicate PumpedSubs(o: seq<Message>, subs: map<Sub, NetSub>)
  {
    exists ks: seq<Sub>, us: seq<seq<Update>> :: NoDup(ks) && (forall s :: s in ks <==> s in subs) && |us| == |ks| && o == AllUpdates(ks, us)
  }

  /** Every subscription of every connection is pumped. */
  ghost predicate PumpedAll(a: Snap, b: Snap)
  {
    && b.h.answers == a.h.answers
    && forall c: Conn :: Says(a.h, b.h, c) && PumpedSubs(Offered(a.h, b.h, c), SubsOf(a.g.connections, c))
  }

  ghost predicate Disconnected(a: Snap, b: Snap, c: Conn, reason: nat, maxPayload: nat)
  {
    && About(a.g, a.h, b.g, b.h, c) && !Live(b.g.connections, c) && Offered(a.h, b.h, c) == [] && Says(a.h, b.h, c)
    && (Asked(Since(a.h, b.h), c, Disconnect) <==> Live(a.g.connections, c) && TEXT_HEADER + reason <= maxPayload)
  }

  /** What an event does. */
  ghost predicate Handled(a: Snap, b: Snap, event: Event, limits: Limits, maxConnections: nat)
  {
    match event
    case Connect =>
      b == if a.g.activeConnections >= maxConnections then a else Snap(Added(a.g), AddedHistory(a.g, a.h))
    case Process(failed, frames, broken) => Processed(a, b, failed, frames, broken, limits)
    case Step(outcomes, dead, broken) => Stepped(a, b, outcomes, dead, broken, limits.skipEmpty)
    case PumpAll(broken) => exists s :: PumpedAll(a, s) && OnlyLoses(s, b, broken)
    case Close(c, reason) => Disconnected(a, b, c, reason, limits.maxPayload)
  }

  /** A run: event after event. */
  ghost predicate Runs(trace: seq<Snap>, events: seq<Event>, limits: Limits, maxConnections: nat)
  {
    && |trace| == |events| + 1
    && forall i :: 0 <= i < |events| ==> Handled(trace[i], trace[i + 1], events[i], limits, maxConnections)
  }

  // ------------------------------------------------------------------ resyncs

  /** A frame in which `c` asks for a resync. */
  predicate Asks(f: Inbound, c: Conn) { f.conn == c && f.request.Some? && f.request.value.Resync? }

  predicate NoResync(frames: seq<Inbound>, c: Conn)
  {
    forall i :: 0 <= i < |frames| ==> !Asks(frames[i], c)
  }

  /** `c` does not ask for a resync in any of the events. */
  predicate NeverResyncs(events: seq<Event>, c: Conn)
  {
    forall i :: 0 <= i < |events| ==> events[i].Process? ==> NoResync(events[i].frames, c)
  }

  // ------------------------------------------------------- proofs about steps

  /** One more message that settles nothing. */
  lemma QuietStep(g0: Gate, h0: History, g1: Gate, h1: History, g2: Gate, h2: History, c: Conn)
    requires Agrees(g0, h0) && Agrees(g1, h1) && Agrees(g2, h2)
    requires Kept(g0, h0, g1, h1) && Settles(g0, h0, g1, h1, map[]) && Touched(g1, h1, g2, h2, c)
    requires ResultsIn(Offered(h1, h2, c)) == []
    ensures Kept(g0, h0, g2, h2) && Settles(g0, h0, g2, h2, map[]) && h2.resyncs == h1.resyncs
  {
    hide Agrees, Kept, Settles, Touched, ResultsIn, Offered;
    TouchedKept(g1, h1, g2, h2, c);
    TouchedSettles(g1, h1, g2, h2, c);
    KeptChains(g0, h0, g1, h1, g2, h2);
    SettlesChains(g0, h0, g1, h1, g2, h2, map[], map[]);
    var none: map<(World, nat), bool> := map[];
    assert none + none == none;
  }

  /** `m` was meant for exactly those in `told`. */
  ghost predicate ToldSome(h: History, h': History, told: set<Conn>, m: Message)
  {
    forall c: Conn :: Says(h, h', c) && Offered(h, h', c) == if c in told then [m] else []
  }

  lemma ToldNobody(h: History, m: Message)
    ensures forall none: set<Conn> :: none == {} ==> ToldSome(h, h, none, m)
  {
    forall c: Conn
      ensures Says(h, h, c) && Offered(h, h, c) == []
    {
      NothingSaid(h, h, c);
    }
  }

  lemma ToldNext(h0: History, g1: Gate, h1: History, g2: Gate, h2: History, c: Conn, due: set<Conn>, rest: set<Conn>, m: Message)
    requires ToldSome(h0, h1, due - rest, m) && c in rest && rest <= due && (forall d :: d in rest ==> Live(g1.connections, d))
    requires Touched(g1, h1, g2, h2, c) && Says(h1, h2, c) && Offered(h1, h2, c) == [m]
    ensures ToldSome(h0, h2, due - (rest - {c}), m) && forall d :: d in rest - {c} ==> Live(g2.connections, d)
  {
    hide Says, Offered, Touched;
    TouchedServed(g1, h1, g2, h2, c);
    forall d: Conn
      ensures Says(h0, h2, d) && Offered(h0, h2, d) == if d in due - (rest - {c}) then [m] else []
      ensures d in rest - {c} ==> Live(g2.connections, d)
    {
      if d != c { SaysElsewhere(g1, h1, g2, h2, c, d); }
      SaysChains(h0, h1, h2, d);
      assert d != c ==> Offered(h0, h1, d) + [] == Offered(h0, h1, d);
    }
  }

  lemma ToldThose(h: History, h': History, told: set<Conn>, m: Message)
    requires ToldSome(h, h', told, m)
    ensures forall c: Conn :: Says(h, h', c) && Offered(h, h', c) == if c in told then [m] else []
  {
  }

  lemma WhoIsAttached(g: Gate, h: History, w: World)
    requires Agrees(g, h)
    ensures forall c: Conn :: AttachedTo(g.connections, c) == Some(w) <==> w in g.attachedByWorld && c in g.attachedByWorld[w]
  {
    hide Agrees;
    forall c: Conn
      ensures AttachedTo(g.connections, c) == Some(w) <==> w in g.attachedByWorld && c in g.attachedByWorld[w]
    {
      IndexesDescribeOne(g, h, c, 0, w);
    }
  }

  /** What the listed subscribers have got so far. */
  ghost predicate DeliveredSoFar(h: History, g': Gate, h': History, list: seq<(Conn, Sub)>, drained: map<Sub, seq<Update>>)
  {
    forall c: Conn ::
      && Says(h, h', c) && Offered(h, h', c) <= Deliveries(list, drained, c)
      && (Live(g'.connections, c) ==> Offered(h, h', c) == Deliveries(list, drained, c))
  }

  lemma NoneDelivered(g: Gate, h: History, list: seq<(Conn, Sub)>, drained: map<Sub, seq<Update>>)
    ensures DeliveredSoFar(h, g, h, list[..0], drained) && drained == drained - SubsIn(list[..0])
  {
    forall c: Conn
      ensures Says(h, h, c) && Offered(h, h, c) == []
    {
      NothingSaid(h, h, c);
    }
  }

  lemma DeliverSkip(h0: History, g: Gate, h: History, list: seq<(Conn, Sub)>, drained: map<Sub, seq<Update>>, i: nat)
    requires i < |list| && DeliveredSoFar(h0, g, h, list[..i], drained) && list[i].1 !in drained - SubsIn(list[..i])
    ensures DeliveredSoFar(h0, g, h, list[..i + 1], drained)
    ensures drained - SubsIn(list[..i + 1]) == drained - SubsIn(list[..i])
  {
    hide Says, Offered, Deliveries, SubsIn, UpdateMessages;
    DeliveriesGrow(list, drained, 0, i);
    forall c: Conn
      ensures Deliveries(list[..i + 1], drained, c) == Deliveries(list[..i], drained, c)
    {
      DeliveriesGrow(list, drained, c, i);
      assert Deliveries(list[..i], drained, c) + [] == Deliveries(list[..i], drained, c);
    }
  }

  lemma DeliverNext(h0: History, g1: Gate, h1: History, g2: Gate, h2: History, list: seq<(Conn, Sub)>,
                    drained: map<Sub, seq<Update>>, i: nat)
    requires i < |list| && DeliveredSoFar(h0, g1, h1, list[..i], drained) && list[i].1 in drained - SubsIn(list[..i])
    requires var (c, s) := list[i];
      && About(g1, h1, g2, h2, c) && Says(h1, h2, c) && Offered(h1, h2, c) <= UpdateMessages(s, 0, drained[s])
      && (Live(g2.connections, c) ==> Offered(h1, h2, c) == UpdateMessages(s, 0, drained[s]))
      && (!Live(g1.connections, c) ==> Offered(h1, h2, c) == [])
    ensures DeliveredSoFar(h0, g2, h2, list[..i + 1], drained)
    ensures drained - SubsIn(list[..i + 1]) == drained - SubsIn(list[..i]) - {list[i].1}
  {
    hide Says, Offered, Deliveries, SubsIn, UpdateMessages, About;
    DeliveriesGrow(list, drained, 0, i);
    var (c, s) := list[i];
    forall d: Conn
      ensures Says(h0, h2, d) && Offered(h0, h2, d) <= Deliveries(list[..i + 1], drained, d)
      ensures Live(g2.connections, d) ==> Offered(h0, h2, d) == Deliveries(list[..i + 1], drained, d)
    {
      DeliveriesGrow(list, drained, d, i);
      if d != c { SaysElsewhere(g1, h1, g2, h2, c, d); } else { AboutGone(g1, h1, g2, h2, c); }
      SaysChains(h0, h1, h2, d);
      assert Deliveries(list[..i], drained, d) + [] == Deliveries(list[..i], drained, d);
      assert Offered(h0, h1, d) + [] == Offered(h0, h1, d);
    }
  }

  lemma AllDelivered(g: Gate, h: History, g': Gate, h': History, list: seq<(Conn, Sub)>, o: Outcome)
    requires DeliveredSoFar(h, g', h', list, o.drained) && list == if o.changed then Subscribers(g, o.world) else []
    ensures Delivered(Snap(g, h), Snap(g', h'), o)
  {
    hide Says, Offered, SubsIn, UpdateMessages;
  }

  lemma NoResultsThere(s: Sub, request: ClientId, updates: seq<Update>, ms: seq<Message>)
    requires ms <= UpdateMessages(s, request, updates)
    ensures ResultsIn(ms) == []
  {
    hide UpdateMessages;
    UpdatesConcern(s, request, updates);
    assert forall i :: 0 <= i < |ms| ==> ms[i] in UpdateMessages(s, request, updates);
    NoResults(ms);
  }

  lemma ReportedNone(outcomes: seq<Outcome>)
    ensures Reported(outcomes[..0]) == map[]
  {
  }

  lemma FanFurther(trace: seq<Snap>, outcomes: seq<Outcome>, i: nat, next: Snap, skipEmpty: bool)
    requires i < |outcomes| && FansOut(trace, outcomes[..i], skipEmpty) && WorldServed(trace[i], next, outcomes[i], skipEmpty)
    ensures FansOut(trace + [next], outcomes[..i + 1], skipEmpty)
    ensures Reported(outcomes[..i + 1]) == Firsts(outcomes[i].world, outcomes[i].results) + Reported(outcomes[..i])
  {
    hide WorldServed, Firsts;
    assert outcomes[..i + 1][..i] == outcomes[..i];
  }

  lemma SweepVerdicts(g0: Gate, h0: History, g1: Gate, h1: History, g2: Gate, h2: History, outcomes: seq<Outcome>, dead: set<World>)
    requires Agrees(g0, h0) && Agrees(g1, h1) && Kept(g0, h0, g1, h1) && Kept(g1, h1, g2, h2) && h2.resyncs == h1.resyncs
    requires Settles(g0, h0, g1, h1, Reported(outcomes)) && Settles(g1, h1, g2, h2, Swept(g1.pendingCalls, dead))
    ensures Settles(g0, h0, g2, h2, Verdicts(g0.pendingCalls, outcomes, dead))
  {
    hide Agrees, Kept, Reported, Settles;
    SubPending(g0, h0, g1, h1, Reported(outcomes));
    SettlesSame(g1, h1, g2, h2, Swept(g1.pendingCalls, dead), Swept(g0.pendingCalls, dead));
    SettlesChains(g0, h0, g1, h1, g2, h2, Reported(outcomes), Swept(g0.pendingCalls, dead));
  }

  lemma SubPending(g: Gate, h: History, g': Gate, h': History, v: map<(World, nat), bool>)
    requires Settles(g, h, g', h', v)
    ensures forall key :: key in g'.pendingCalls ==> key in g.pendingCalls
  {
  }

  lemma LosesNothing(g: Gate, h: History, lost: seq<Conn>)
    requires lost == []
    ensures OnlyLoses(Snap(g, h), Snap(g, h), lost)
  {
    SettlesNothing(g, h, map[]);
  }

  /** One more connection lost. */
  lemma LosesOne(g0: Gate, h0: History, g1: Gate, h1: History, g2: Gate, h2: History, lost: seq<Conn>, i: nat)
    requires Agrees(g0, h0) && Agrees(g1, h1) && Agrees(g2, h2) && Kept(g0, h0, g1, h1) && i < |lost|
    requires OnlyLoses(Snap(g0, h0), Snap(g1, h1), lost[..i]) && Touched(g1, h1, g2, h2, lost[i])
    requires h2.log == h1.log && !Live(g2.connections, lost[i])
    ensures OnlyLoses(Snap(g0, h0), Snap(g2, h2), lost[..i + 1]) && Kept(g0, h0, g2, h2) && h2.resyncs == h1.resyncs
  {
    hide Agrees, Kept, Settles, Touched;
    NothingSaid(h1, h2, lost[i]);
    NoResults([]);
    QuietStep(g0, h0, g1, h1, g2, h2, lost[i]);
    TouchedServed(g1, h1, g2, h2, lost[i]);
    OthersStay(g1, h1, g2, h2, lost[i]);
    assert lost[..i + 1] == lost[..i] + [lost[i]];
  }

  // -------------------------------------------------------------------- pumps

  lemma AllUpdatesGrow(ks: seq<Sub>, us: seq<seq<Update>>, i: nat, updates: seq<Update>)
    requires i < |ks| && |us| == i
    ensures AllUpdates(ks[..i + 1], us + [updates]) == AllUpdates(ks[..i], us) + UpdateMessages(ks[i], 0, updates)
  {
    hide UpdateMessages;
    assert ks[..i + 1][..i] == ks[..i] && (us + [updates])[..i] == us;
  }

  lemma PumpedThem(ks: seq<Sub>, us: seq<seq<Update>>, subs: map<Sub, NetSub>)
    requires NoDup(ks) && (forall s :: s in ks <==> s in subs) && |us| == |ks|
    ensures PumpedSubs(AllUpdates(ks, us), subs)
  {
  }

  /** Connections below `n` are pumped, and every one is where it was. */
  ghost predicate PumpedUpTo(g: Gate, h: History, g': Gate, h': History, n: nat)
  {
    && |g'.connections| == |g.connections| && h'.answers == h.answers
    && forall c: Conn ::
         && Says(h, h', c) && SubsOf(g'.connections, c) == SubsOf(g.connections, c)
         && (if c < n then PumpedSubs(Offered(h, h', c), SubsOf(g.connections, c)) else Offered(h, h', c) == [])
  }

  lemma PumpedNone(g: Gate, h: History)
    ensures PumpedUpTo(g, h, g, h, 0)
  {
    forall c: Conn
      ensures Says(h, h, c) && Offered(h, h, c) == []
    {
      NothingSaid(h, h, c);
    }
  }

  lemma PumpedNext(g0: Gate, h0: History, g1: Gate, h1: History, g2: Gate, h2: History, c: Conn)
    requires PumpedUpTo(g0, h0, g1, h1, c) && Touched(g1, h1, g2, h2, c) && Says(h1, h2, c)
    requires PumpedSubs(Offered(h1, h2, c), SubsOf(g1.connections, c)) && Live(g2.connections, c) == Live(g1.connections, c)
    ensures PumpedUpTo(g0, h0, g2, h2, c + 1)
  {
    hide Says, Offered, PumpedSubs;
    SameSubs(g1, h1, g2, h2, c);
    forall d: Conn
      ensures Says(h0, h2, d) && SubsOf(g2.connections, d) == SubsOf(g0.connections, d)
      ensures if d < c + 1 then PumpedSubs(Offered(h0, h2, d), SubsOf(g0.connections, d)) else Offered(h0, h2, d) == []
    {
      if d != c { SaysElsewhere(g1, h1, g2, h2, c, d); }
      SaysChains(h0, h1, h2, d);
      assert Offered(h0, h1, d) + [] == Offered(h0, h1, d) && [] + Offered(h1, h2, d) == Offered(h1, h2, d);
    }
  }

  lemma SameSubs(g: Gate, h: History, g': Gate, h': History, c: Conn)
    requires Touched(g, h, g', h', c) && Live(g'.connections, c) == Live(g.connections, c)
    ensures SubsOf(g'.connections, c) == SubsOf(g.connections, c) && About(g, h, g', h', c)
    ensures |g'.connections| == |g.connections| && h'.answers == h.answers
  {
    hide StaleLasts, Evolved, OwnCalls;
  }

  lemma PumpedThrough(g: Gate, h: History, g': Gate, h': History, n: nat)
    requires PumpedUpTo(g, h, g', h', n) && n == |g.connections|
    ensures PumpedAll(Snap(g, h), Snap(g', h'))
  {
    hide Says;
    forall c: Conn | c >= n
      ensures PumpedSubs([], SubsOf(g.connections, c))
    {
      PumpedThem([], [], map[]);
    }
  }

  // ------------------------------------------------------- proofs about passes

  lemma SameResyncs(h: History, h': History)
    requires h'.resyncs == h.resyncs
    ensures forall c: Conn :: ResyncsOf(h', c) == ResyncsOf(h, c)
  {
  }

  lemma EpisodeKept(g: Gate, h: History, g': Gate, h': History, c: Conn)
    requires Kept(g, h, g', h') && c < |g.connections| && ResyncsOf(h', c) == ResyncsOf(h, c)
    ensures StaleLasts(g, h, g', h', c)
  {
    hide StaleLasts, Overflowed;
    assert ConnKept(g, h, g', h', c);
  }

  lemma NoResyncSoFar(frames: seq<Inbound>, i: nat, c: Conn)
    requires i < |frames| && NoResync(frames[..i + 1], c)
    ensures NoResync(frames[..i], c) && !Asks(frames[i], c)
  {
    assert frames[..i + 1][i] == frames[i];
    assert forall j :: 0 <= j < i ==> frames[..i][j] == frames[..i + 1][j];
  }

  lemma NeverSoFar(events: seq<Event>, i: nat, c: Conn)
    requires i < |events| && NeverResyncs(events[..i + 1], c)
    ensures NeverResyncs(events[..i], c) && (events[i].Process? ==> NoResync(events[i].frames, c))
  {
    hide NoResync;
    assert events[..i + 1][i] == events[i];
    assert forall j :: 0 <= j < i ==> events[..i][j] == events[..i + 1][j];
  }

  lemma ServesNone(trace: seq<Snap>, frames: seq<Inbound>, limits: Limits)
    requires |trace| == 1
    ensures Serves(trace, frames[..0], limits)
  {
  }

  lemma ServesFurther(trace: seq<Snap>, frames: seq<Inbound>, i: nat, next: Snap, limits: Limits)
    requires i < |frames| && Serves(trace, frames[..i], limits) && FrameServed(trace[i], next, frames[i], limits)
    ensures Serves(trace + [next], frames[..i + 1], limits)
  {
    hide FrameServed;
  }

  lemma ProcessedBy(a: Snap, b: Snap, trace: seq<Snap>, failed: seq<Conn>, frames: seq<Inbound>, broken: seq<Conn>,
                    limits: Limits)
    requires Serves(trace, frames, limits) && OnlyLoses(a, trace[0], failed) && OnlyLoses(trace[|frames|], b, broken)
    ensures Processed(a, b, failed, frames, broken, limits)
  {
    hide Serves, OnlyLoses;
  }

  lemma SteppedBy(a: Snap, s: Snap, b: Snap, trace: seq<Snap>, outcomes: seq<Outcome>, dead: set<World>, broken: seq<Conn>,
                  skipEmpty: bool)
    requires Agrees(a.g, a.h) && Agrees(s.g, s.h) && Kept(a.g, a.h, s.g, s.h) && Kept(s.g, s.h, b.g, b.h)
    requires s.h.resyncs == b.h.resyncs
    requires Settles(a.g, a.h, s.g, s.h, Verdicts(a.g.pendingCalls, outcomes, dead)) && OnlyLoses(s, b, broken)
    requires FansOut(trace, outcomes, skipEmpty) && trace[0] == a && Sweeps(trace[|outcomes|], s, dead)
    ensures Stepped(a, b, outcomes, dead, broken, skipEmpty)
  {
    hide Agrees, Kept, FansOut, Sweeps, Verdicts, Settles;
    SettlesChains(a.g, a.h, s.g, s.h, b.g, b.h, Verdicts(a.g.pendingCalls, outcomes, dead), map[]);
    assert map[] + Verdicts(a.g.pendingCalls, outcomes, dead) == Verdicts(a.g.pendingCalls, outcomes, dead);
  }

  // --------------------------------------------------------------------- runs

  /** Serving frames answers nobody. */
  lemma {:induction false} FramesAnswerNothing(trace: seq<Snap>, frames: seq<Inbound>, limits: Limits)
    requires Serves(trace, frames, limits)
    ensures trace[|frames|].h.answers == trace[0].h.answers
    decreases |frames|
  {
    if frames != [] {
      var n := |frames| - 1;
      assert Serves(trace[..n + 1], frames[..n], limits) by {
        hide FrameServed;
        assert forall i :: 0 <= i < n ==> frames[..n][i] == frames[i];
      }
      FramesAnswerNothing(trace[..n + 1], frames[..n], limits);
      assert FrameServed(trace[n], trace[n + 1], frames[n], limits);
    }
  }

  lemma FramesAnswerNobody(a: Snap, b: Snap, failed: seq<Conn>, frames: seq<Inbound>, broken: seq<Conn>, limits: Limits)
    requires Processed(a, b, failed, frames, broken, limits)
    ensures b.h.answers == a.h.answers
  {
    hide FrameServed, Settles;
    var trace: seq<Snap> :|
      Serves(trace, frames, limits) && OnlyLoses(a, trace[0], failed) && OnlyLoses(trace[|frames|], b, broken);
    FramesAnswerNothing(trace, frames, limits);
  }

  /** Calls are answered by steps of the worlds, and by nothing else. */
  lemma OnlyStepsAnswer(a: Snap, b: Snap, event: Event, limits: Limits, maxConnections: nat)
    requires Handled(a, b, event, limits, maxConnections)
    ensures a.h.answers <= b.h.answers
    ensures !event.Step? ==> b.h.answers == a.h.answers
    ensures event.Step? ==> Settles(a.g, a.h, b.g, b.h, Verdicts(a.g.pendingCalls, event.outcomes, event.dead))
  {
    hide Settles, Verdicts, Processed, WorldServed, PumpedSubs, Says;
    match event {
      case Process(failed, frames, broken) =>
        FramesAnswerNobody(a, b, failed, frames, broken, limits);
      case Step(outcomes, dead, _) =>
        SettledAnswers(a, b, Verdicts(a.g.pendingCalls, outcomes, dead));
      case _ =>
    }
  }

  lemma SettledAnswers(a: Snap, b: Snap, v: map<(World, nat), bool>)
    requires Settles(a.g, a.h, b.g, b.h, v)
    ensures a.h.answers <= b.h.answers
  {
  }

  /** `x` answers a call that was pending when event `k` of the run reported on
      it, with what the event decides. */
  ghost predicate AnsweredAt(trace: seq<Snap>, events: seq<Event>, k: nat, x: Answer)
    requires |trace| == |events| + 1
  {
    && k < |events| && events[k].Step?
    && Sourced(trace[k].g, Verdicts(trace[k].g.pendingCalls, events[k].outcomes, events[k].dead), x)
  }

  /** Every answer of a run is the verdict of one of its steps on a call that
      was pending then. */
  lemma {:induction false} RunAnswers(trace: seq<Snap>, events: seq<Event>, limits: Limits, maxConnections: nat, x: Answer)
    requires Runs(trace, events, limits, maxConnections) && x in News(trace[0].h, trace[|events|].h)
    ensures exists k :: AnsweredAt(trace, events, k, x)
    decreases |events|
  {
    hide Handled, Verdicts, Sourced;
    if events == [] {
    } else {
      var n := |events| - 1;
      var front := trace[..n + 1];
      assert Handled(trace[n], trace[n + 1], events[n], limits, maxConnections);
      RunsFront(trace, events, limits, maxConnections);
      AnswersGrowing(front, events[..n], limits, maxConnections);
      OnlyStepsAnswer(trace[n], trace[n + 1], events[n], limits, maxConnections);
      NewsChain(trace[0].h, trace[n].h, trace[n + 1].h);
      if x in News(front[0].h, front[n].h) {
        RunAnswers(front, events[..n], limits, maxConnections, x);
        var k :| AnsweredAt(front, events[..n], k, x);
        assert AnsweredAt(trace, events, k, x);
      } else {
        SettledNews(trace[n], trace[n + 1], events[n], x);
        assert AnsweredAt(trace, events, n, x);
      }
    }
  }

  lemma SettledNews(a: Snap, b: Snap, event: Event, x: Answer)
    requires x in News(a.h, b.h) && (!event.Step? ==> b.h.answers == a.h.answers)
    requires event.Step? ==> Settles(a.g, a.h, b.g, b.h, Verdicts(a.g.pendingCalls, event.outcomes, event.dead))
    ensures event.Step? && Sourced(a.g, Verdicts(a.g.pendingCalls, event.outcomes, event.dead), x)
  {
    hide Verdicts, Sourced;
  }

  lemma RunsFront(trace: seq<Snap>, events: seq<Event>, limits: Limits, maxConnections: nat)
    requires Runs(trace, events, limits, maxConnections) && events != []
    ensures Runs(trace[..|events|], events[..|events| - 1], limits, maxConnections)
  {
    hide Handled;
    var n := |events| - 1;
    assert forall i :: 0 <= i < n ==> events[..n][i] == events[i];
  }

  lemma {:induction false} AnswersGrowing(trace: seq<Snap>, events: seq<Event>, limits: Limits, maxConnections: nat)
    requires Runs(trace, events, limits, maxConnections)
    ensures trace[0].h.answers <= trace[|events|].h.answers
    decreases |events|
  {
    hide Handled;
    if events != [] {
      var n := |events| - 1;
      RunsFront(trace, events, limits, maxConnections);
      AnswersGrowing(trace[..n + 1], events[..n], limits, maxConnections);
      assert Handled(trace[n], trace[n + 1], events[n], limits, maxConnections);
      OnlyStepsAnswer(trace[n], trace[n + 1], events[n], limits, maxConnections);
    }
  }

  /** In a run of a new gateway, a transport takes a success only for a call
      that its own connection made, and that a committed tick of the call's
      world reported to have succeeded. */
  lemma SuccessCommitted(trace: seq<Snap>, events: seq<Event>, limits: Limits, maxConnections: nat, c: Conn, i: nat)
    requires Runs(trace, events, limits, maxConnections) && trace[0].h.answers == []
    requires var b := trace[|events|];
      && Agrees(b.g, b.h) && c in b.h.outbox && i < |b.h.outbox[c]|
      && b.h.outbox[c][i].ReducerResult? && b.h.outbox[c][i].done
    ensures exists k, j, w: World, call ::
      CommittedAt(trace, events, k, j, w, call, PendingCall(c, trace[|events|].h.outbox[c][i].client))
  {
    hide Agrees, Handled, Verdicts;
    var b := trace[|events|];
    var client := b.h.outbox[c][i].client;
    SuccessAnswers(b.g, b.h, c, i);
    var n :| 0 <= n < |b.h.answers| && b.h.answers[n].conn == c && b.h.answers[n].client == client && b.h.answers[n].done;
    var x := b.h.answers[n];
    assert b.h.answers[0..] == b.h.answers;
    assert x in News(trace[0].h, b.h);
    RunAnswers(trace, events, limits, maxConnections, x);
    var k :| AnsweredAt(trace, events, k, x);
    CommittedThen(trace, events, k, x);
  }

  /** Event `k` of the run holds an outcome that reports call `call` of world
      `w`, pending then for `p`, to have succeeded. */
  ghost predicate CommittedAt(trace: seq<Snap>, events: seq<Event>, k: nat, j: nat, w: World, call: nat, p: PendingCall)
    requires |trace| == |events| + 1
  {
    && k < |events| && events[k].Step? && j < |events[k].outcomes|
    && events[k].outcomes[j].world == w && (call, true) in events[k].outcomes[j].results
    && (w, call) in trace[k].g.pendingCalls && trace[k].g.pendingCalls[(w, call)] == p
  }

  lemma CommittedThen(trace: seq<Snap>, events: seq<Event>, k: nat, x: Answer)
    requires |trace| == |events| + 1 && AnsweredAt(trace, events, k, x) && x.done
    ensures exists j, w: World :: CommittedAt(trace, events, k, j, w, x.call, PendingCall(x.conn, x.client))
  {
    hide Reported;
    var g, outcomes := trace[k].g, events[k].outcomes;
    var v := Verdicts(g.pendingCalls, outcomes, events[k].dead);
    var w: World :| (w, x.call) in g.pendingCalls && (w, x.call) in v && x == AnswerTo(g, (w, x.call), v[(w, x.call)]);
    assert (w, x.call) in Reported(outcomes);
    ReportedSource(outcomes, (w, x.call));
    var j :| 0 <= j < |outcomes| && outcomes[j].world == w && (x.call, true) in outcomes[j].results;
    assert CommittedAt(trace, events, k, j, w, x.call, PendingCall(x.conn, x.client));
  }
}
