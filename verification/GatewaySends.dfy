/** Sending one message (`crates/nexum-network/src/gateway.rs`): what it comes to
    for the connection and its transport. */
module GatewaySends {
  import opened Values
  import opened GatewayLog
  import opened GatewayState

  /** The payload of a stale notification: two 64-bit words. */
  const NOTICE_SIZE: nat := 16

  /** The length word in front of a text, and the lengths of the reasons for
      which the gateway disconnects on its own account. */
  const TEXT_HEADER: nat := 8
  const SLOW_REASON: nat := 35
  const VERSION_REASON: nat := 28

  /** Whether notifications fit a frame at all, whether an overflowing session
      is dropped rather than left stale, and whether it can be told so. */
  datatype Policy = Policy(fits: bool, slow: bool, farewell: bool)

  /** Nothing but notifications and disconnects was taken. */
  ghost predicate Quiet(notes: seq<Note>, c: Conn)
  {
    Plain(TakenBy(notes, c)) == []
  }

  /** Besides those, `c`'s transport took `m`, last, or nothing. */
  ghost predicate Conveys(notes: seq<Note>, c: Conn, m: Message, taken: bool)
  {
    && Plain(TakenBy(notes, c)) == (if taken && IsPlain(m) then [m] else [])
    && (taken ==> notes != [] && notes[|notes| - 1] == Ask(c, m, Taken))
  }

  lemma QuietThen(a: seq<Note>, b: seq<Note>, c: Conn, m: Message, taken: bool)
    requires Quiet(a, c) && Conveys(b, c, m, taken)
    ensures Conveys(a + b, c, m, taken)
  {
    hide Plain, TakenBy;
    LogConcat(a, b, c);
    PlainConcat(TakenBy(a, c), TakenBy(b, c));
  }

  lemma AskConveys(notes: seq<Note>, c: Conn, m: Message, reply: Reply)
    requires Quiet(notes, c)
    ensures Conveys(notes + [Ask(c, m, reply)], c, m, reply.Taken?)
    ensures Ask(c, m, reply) in notes + [Ask(c, m, reply)]
  {
    hide Plain, TakenBy;
    LogConcat(notes, [Ask(c, m, reply)], c);
    OneNote(Ask(c, m, reply), c);
    PlainGrows(TakenBy(notes, c), m);
    assert TakenBy(notes, c) + [] == TakenBy(notes, c);
    assert (notes + [Ask(c, m, reply)])[|notes|] == Ask(c, m, reply);
  }

  /** `c`'s transport was asked to take `m`. */
  ghost predicate Asked(notes: seq<Note>, c: Conn, m: Message)
  {
    exists reply :: Ask(c, m, reply) in notes
  }

  /** A session that has just turned stale is to be told so once for each of
      its subscriptions, unless notifications do not fit a frame. */
  ghost predicate Alerted(g: Gate, h: History, c: Conn, policy: Policy)
  {
    && Live(g.connections, c) && c in h.outbox && c in h.episodes
    && (forall s :: s in h.episodes[c].created <==> policy.fits && s in SubsOf(g.connections, c))
    && g.connections[c].value.pendingStale == Notices(h.episodes[c].created)
    && h.episodes[c].start == |h.outbox[c]|
  }

  /** Notifications are left over only if the transport refused the first. */
  ghost predicate Flushed(notes: seq<Note>, g: Gate, g': Gate, c: Conn)
  {
    IsStale(g, c) && Live(g'.connections, c) && g'.connections[c].value.pendingStale != [] ==>
      exists reply: Reply :: !reply.Taken? && Ask(c, g'.connections[c].value.pendingStale[0], reply) in notes
  }

  /** What sending `m` to `c` comes to: it is taken or refused as reported, and
      it is tried unless the session is stale; a refusal leaves the session
      stale or drops it, as the policy has it; a failing transport drops it, and
      nothing else does; a session turns stale with its notifications queued,
      and a stale one gets them first. */
  ghost predicate Attempted(g: Gate, h: History, g': Gate, h': History, c: Conn, m: Message, r: Option<bool>, policy: Policy)
  {
    Comes(Since(h, h'), g, g', h', c, m, r, policy)
  }

  ghost predicate Comes(notes: seq<Note>, g: Gate, g': Gate, h': History, c: Conn, m: Message, r: Option<bool>, policy: Policy)
  {
    && Conveys(notes, c, m, r == Some(true))
    && (Live(g.connections, c) && (!IsStale(g, c) || IsSignal(m)) ==> Asked(notes, c, m))
    && (r == Some(false) && Live(g'.connections, c) ==> IsStale(g', c))
    && (IsStale(g', c) && !IsStale(g, c) ==> !policy.slow && Alerted(g', h', c, policy))
    && (Live(g.connections, c) && !Live(g'.connections, c) ==>
          Broke(notes, c, m) || (policy.slow && Ask(c, m, Full) in notes && (policy.farewell ==> Asked(notes, c, Disconnect))))
    && Flushed(notes, g, g', c)
  }

  /** The connection is lost over `m` only by a failing transport or, as the
      policy has it, a full one. */
  ghost predicate Parted(g: Gate, h: History, g': Gate, h': History, c: Conn, m: Message, policy: Policy)
  {
    Live(g.connections, c) && !Live(g'.connections, c) && policy.farewell ==>
      Broke(Since(h, h'), c, m) || Asked(Since(h, h'), c, Disconnect)
  }

  lemma PartedMeans(g: Gate, h: History, g': Gate, h': History, c: Conn, m: Message, policy: Policy)
    requires Parted(g, h, g', h', c, m, policy) && Live(g.connections, c) && policy.farewell
    ensures !Live(g'.connections, c) ==> Broke(Since(h, h'), c, m) || Asked(Since(h, h'), c, Disconnect)
  {
  }

  /** Told by a message and by a disconnect, unless the transport failed. */
  lemma ToldTwice(g: Gate, h: History, g1: Gate, h1: History, h': History, c: Conn, m: Message)
    requires h.log <= h1.log <= h'.log && Live(g.connections, c)
    requires Live(g1.connections, c) ==> Asked(Since(h1, h'), c, Disconnect)
    requires !Live(g1.connections, c) ==> Broke(Since(h, h1), c, m) || Asked(Since(h, h1), c, Disconnect)
    ensures Broke(Since(h, h'), c, m) || Asked(Since(h, h'), c, Disconnect)
  {
    SinceChains(h, h1, h', c);
    assert forall n :: n in Since(h, h1) || n in Since(h1, h') ==> n in Since(h, h1) + Since(h1, h');
  }

  /** Questions before, to which nothing but notifications was taken. */
  lemma ComesLater(a: seq<Note>, b: seq<Note>, g: Gate, g': Gate, h': History, c: Conn, m: Message, r: Option<bool>,
                   policy: Policy)
    requires Quiet(a, c) && Comes(b, g, g', h', c, m, r, policy)
    ensures Comes(a + b, g, g', h', c, m, r, policy)
  {
    hide Quiet, Conveys, Alerted, IsSignal;
    QuietThen(a, b, c, m, r == Some(true));
    assert forall n :: n in b ==> n in a + b;
  }

  /** The transport failed on `m`. */
  ghost predicate Broke(notes: seq<Note>, c: Conn, m: Message)
  {
    Ask(c, m, Closed) in notes || Ask(c, m, Io) in notes
  }

  /** The same for a message that goes straight into the transport's queue:
      nothing passes while the session is stale, and only a full queue makes it
      stale. */
  ghost predicate AttemptedDirect(g: Gate, h: History, g': Gate, h': History, c: Conn, m: Message, r: Option<bool>, policy: Policy)
  {
    && Conveys(Since(h, h'), c, m, r == Some(true))
    && (r == None <==> !Live(g.connections, c))
    && Live(g'.connections, c) == Live(g.connections, c)
    && (if Live(g.connections, c) && !IsStale(g, c) then
          && Asked(Since(h, h'), c, m)
          && (IsStale(g', c) <==> Ask(c, m, Full) in Since(h, h'))
          && (IsStale(g', c) ==> Alerted(g', h', c, policy))
        else forall i :: 0 <= i < |Since(h, h')| ==> Since(h, h')[i].Offer?)
  }

  /** Deciding to send something and then sending it. */
  lemma OfferAttempted(g: Gate, h: History, g': Gate, h': History, c: Conn, m: Message, r: Option<bool>, policy: Policy)
    requires Offering(h, c, m).log <= h'.log && Attempted(g, Offering(h, c, m), g', h', c, m, r, policy)
    ensures Attempted(g, h, g', h', c, m, r, policy)
  {
    hide Comes, Quiet;
    var a, b := [Offer(c, m)], Since(Offering(h, c, m), h');
    NothingTaken(a, c);
    ComesLater(a, b, g, g', h', c, m, r, policy);
    assert Since(h, h') == a + b;
  }

  lemma OfferAttemptedDirect(g: Gate, h: History, g': Gate, h': History, c: Conn, m: Message, r: Option<bool>, policy: Policy)
    requires Offering(h, c, m).log <= h'.log && AttemptedDirect(g, Offering(h, c, m), g', h', c, m, r, policy)
    ensures AttemptedDirect(g, h, g', h', c, m, r, policy)
  {
    hide Plain, TakenBy, Alerted;
    var a, b := [Offer(c, m)], Since(Offering(h, c, m), h');
    NothingTaken(a, c);
    QuietThen(a, b, c, m, r == Some(true));
    assert Since(h, h') == a + b;
    assert forall n :: n in b ==> n in a + b;
    assert Ask(c, m, Full) in a + b ==> Ask(c, m, Full) in b;
  }

  lemma NothingTaken(notes: seq<Note>, c: Conn)
    requires |notes| == 1 && notes[0].Offer?
    ensures Quiet(notes, c)
  {
    assert notes == [notes[0]];
    OneNote(notes[0], c);
  }

  /** The transport of `c` has refused `m`, after it was asked to take queued
      notifications: the slot as it is to be written back, and what was asked. */
  ghost predicate Refusal(g: Gate, h: History, c: Conn, m: Message, full: bool, e: Entry, out: seq<Message>, notes: seq<Note>)
  {
    && Live(g.connections, c) && c in h.outbox && c in h.episodes
    && StaleKept(e, out, h.episodes[c]) && Accounted(h, c, out, notes) && Plain(out) == Plain(h.outbox[c])
    && Lasts(g.connections[c].value, h.outbox[c], h.episodes[c], e, out, h.episodes[c])
    && e == g.connections[c].value.(pendingStale := e.pendingStale, hasPendingStale := e.hasPendingStale)
    && Conveys(notes, c, m, false) && Asked(notes, c, m)
    && (if full then AskedFull(notes, c) && Ask(c, m, Full) in notes else Broke(notes, c, m))
    && (e.pendingStale != [] ==> exists reply: Reply :: !reply.Taken? && Ask(c, e.pendingStale[0], reply) in notes)
  }

  /** Apart from notifications and disconnects, what `c`'s transport took since
      was meant for it since, in order. */
  ghost predicate Says(h: History, h': History, c: Conn)
  {
    h.log <= h'.log && Within(Plain(TakenBy(Since(h, h'), c)), Offered(h, h', c))
  }

  lemma SaysChains(h0: History, h1: History, h2: History, c: Conn)
    requires Says(h0, h1, c) && Says(h1, h2, c)
    ensures Says(h0, h2, c) && Offered(h0, h2, c) == Offered(h0, h1, c) + Offered(h1, h2, c)
  {
    hide Since, Within, Plain, TakenBy;
    SinceChains(h0, h1, h2, c);
    LogConcat(Since(h0, h1), Since(h1, h2), c);
    PlainConcat(TakenBy(Since(h0, h1), c), TakenBy(Since(h1, h2), c));
    WithinConcat(Plain(TakenBy(Since(h0, h1), c)), Plain(TakenBy(Since(h1, h2), c)), Offered(h0, h1, c), Offered(h1, h2, c));
  }

  lemma SaysQuiet(h: History, h': History, c: Conn)
    requires h.log <= h'.log && Quiet(Since(h, h'), c)
    ensures Says(h, h', c)
  {
  }

  lemma SaysOne(h: History, h': History, c: Conn, m: Message, taken: bool)
    requires h.log <= h'.log && Conveys(Since(h, h'), c, m, taken) && Offered(h, h', c) == [m]
    ensures Says(h, h', c)
  {
  }

  /** Nobody else is spoken to. */
  lemma SaysElsewhere(g: Gate, h: History, g': Gate, h': History, c: Conn, d: Conn)
    requires About(g, h, g', h', c) && d != c
    ensures Says(h, h', d) && Offered(h, h', d) == [] && h.log <= h'.log
    ensures d < |g.connections| ==> d < |g'.connections| && g'.connections[d] == g.connections[d]
    ensures AttachedTo(g'.connections, d) == AttachedTo(g.connections, d) && SubsOf(g'.connections, d) == SubsOf(g.connections, d)
    ensures Live(g'.connections, d) == Live(g.connections, d)
  {
    hide Evolved, OwnCalls, OutGrows, Overflowed;
    NothingElsewhere(Since(h, h'), c, d);
  }

  /** What is meant for `c`, as long as it is there. */
  function Meant(g: Gate, c: Conn, m: Message): seq<Message>
  {
    if Live(g.connections, c) then [m] else []
  }

  lemma NothingAsked(c: Conn)
    ensures Quiet([], c) && Conveys([], c, Disconnect, false) && OffersTo([], c) == [] && !Asked([], c, Disconnect)
  {
  }

  /** Asking the transport to take a notification. */
  lemma NoticeAsked(h: History, c: Conn, out: seq<Message>, notes: seq<Note>, m: Message, reply: Reply)
    requires Accounted(h, c, out, notes) && Quiet(notes, c) && m.StaleNotice?
    ensures var notes' := notes + [Ask(c, m, reply)];
      && Accounted(h, c, if reply.Taken? then out + [m] else out, notes') && Quiet(notes', c)
      && Ask(c, m, reply) in notes' && Plain(out + [m]) == Plain(out)
  {
    hide Accounted, Plain, Quiet;
    AccountedAsk(h, c, out, notes, m, reply);
    AskConveys(notes, c, m, reply);
    QuietIs(notes + [Ask(c, m, reply)], c, m, reply.Taken?);
    PlainGrows(out, m);
    assert Plain(out) + [] == Plain(out);
  }

  lemma QuietIs(notes: seq<Note>, c: Conn, m: Message, taken: bool)
    requires Conveys(notes, c, m, taken) && !IsPlain(m)
    ensures Quiet(notes, c)
  {
  }

  /** Asking the transport to take what is due, after notifications. */
  lemma DueAsked(h: History, c: Conn, out: seq<Message>, notes: seq<Note>, m: Message, reply: Reply)
    requires Due(h, c, m) && Accounted(h, c, out, notes) && Plain(out) == Plain(OutOf(h.outbox, c))
    ensures Accounted(h, c, if reply.Taken? then out + [m] else out, notes + [Ask(c, m, reply)])
  {
    hide Accounted, Plain;
    AccountedAsk(h, c, out, notes, m, reply);
  }

  /** The same, and what it conveys. */
  lemma DueConveyed(h: History, c: Conn, out: seq<Message>, notes: seq<Note>, m: Message, reply: Reply)
    requires Due(h, c, m) && Accounted(h, c, out, notes) && Plain(out) == Plain(OutOf(h.outbox, c)) && Quiet(notes, c)
    ensures Accounted(h, c, if reply.Taken? then out + [m] else out, AskedNow(notes, c, m, reply))
    ensures Conveys(AskedNow(notes, c, m, reply), c, m, reply.Taken?)
  {
    hide Accounted, Plain, Due, Quiet, Conveys;
    DueAsked(h, c, out, notes, m, reply);
    AskConveys(notes, c, m, reply);
  }

  lemma NothingSaid(h: History, h': History, c: Conn)
    requires h'.log == h.log
    ensures Since(h, h') == [] && Offered(h, h', c) == [] && Says(h, h', c)
  {
  }

  /** The slot `c` is left with after an attempt that keeps it. */
  lemma EntryAttempted(g: Gate, h: History, c: Conn, m: Message, r: Option<bool>, policy: Policy,
                       e: Entry, out: seq<Message>, ep: Episode, notes: seq<Note>)
    requires Live(g.connections, c) && Conveys(notes, c, m, r == Some(true))
    requires !g.connections[c].value.stale || IsSignal(m) ==> Asked(notes, c, m)
    requires r == Some(false) ==> e.stale
    requires e.stale && !g.connections[c].value.stale ==>
      && !policy.slow && (forall s :: s in ep.created <==> policy.fits && s in e.subs)
      && e.pendingStale == Notices(ep.created) && ep.start == |out|
    requires g.connections[c].value.stale && e.pendingStale != [] ==>
      exists reply: Reply :: !reply.Taken? && Ask(c, e.pendingStale[0], reply) in notes
    ensures Attempted(g, h, WithEntry(g, c, e), WithOut(h, c, out, ep, notes), c, m, r, policy)
  {
    hide Conveys, Asked, Notices, IsSignal;
    assert Since(h, WithOut(h, c, out, ep, notes)) == notes;
  }

  /** An attempt that costs the connection. */
  lemma DroppedAttempted(g: Gate, h: History, h1: History, g': Gate, h': History, c: Conn, m: Message, policy: Policy)
    requires h.log <= h1.log <= h'.log && !Live(g'.connections, c)
    requires Conveys(Since(h, h1), c, m, false) && Asked(Since(h, h1), c, m) && Quiet(Since(h1, h'), c)
    requires || Broke(Since(h, h1), c, m)
             || (&& policy.slow && Ask(c, m, Full) in Since(h, h1)
                 && (policy.farewell ==> Asked(Since(h1, h'), c, Disconnect)))
    ensures Attempted(g, h, g', h', c, m, Some(false), policy)
  {
    hide Plain, TakenBy;
    SinceChains(h, h1, h', c);
    QuietThen(Since(h, h1), Since(h1, h'), c, m, false);
    assert forall n :: n in Since(h, h1) || n in Since(h1, h') ==> n in Since(h, h1) + Since(h1, h');
  }

  lemma QuietConveys(notes: seq<Note>, c: Conn, m: Message)
    requires Quiet(notes, c)
    ensures Conveys(notes, c, m, false)
  {
  }

  lemma DeadAttempted(g: Gate, h: History, c: Conn, m: Message, policy: Policy)
    requires !Live(g.connections, c)
    ensures Attempted(g, h, g, h, c, m, None, policy) && Offered(h, h, c) == []
  {
  }

  /** One more question to the transport of `c`. */
  ghost function AskedNow(notes: seq<Note>, c: Conn, m: Message, reply: Reply): (notes': seq<Note>)
    ensures notes' != [] && Asked(notes', c, m) && Ask(c, m, reply) in notes'
    ensures (reply.Full? ==> AskedFull(notes', c)) && (reply.Closed? || reply.Io? ==> Broke(notes', c, m))
    ensures forall n :: n in notes ==> n in notes'
  {
    assert Ask(c, m, reply) in notes + [Ask(c, m, reply)];
    notes + [Ask(c, m, reply)]
  }

  lemma SinceSame(h: History, h1: History, h': History)
    requires h.log <= h1.log && h'.log == h1.log
    ensures h.log <= h'.log && Since(h, h') == Since(h, h1)
  {
  }

  /** A further attempt after one that was refused. */
  lemma AgainAttempted(g: Gate, h: History, g1: Gate, h1: History, g': Gate, h': History, c: Conn, m: Message,
                       r: Option<bool>, policy: Policy)
    requires h.log <= h1.log <= h'.log && Quiet(Since(h, h1), c) && Live(g.connections, c) && Live(g1.connections, c)
    requires IsStale(g1, c) == IsStale(g, c) && Attempted(g1, h1, g', h', c, m, r, policy)
    ensures Attempted(g, h, g', h', c, m, r, policy)
  {
    hide Quiet, Conveys, Alerted, IsSignal, Asked, Broke;
    SinceChains(h, h1, h', c);
    ComesLater(Since(h, h1), Since(h1, h'), g, g', h', c, m, r, policy);
  }

  /** What is due stays due while nothing but notifications is taken. */
  lemma StillDue(h: History, c: Conn, out: seq<Message>, ep: Episode, notes: seq<Note>, m: Message)
    requires Due(h, c, m) && AsksOnly(notes, c) && Plain(out) == Plain(OutOf(h.outbox, c))
    ensures Due(WithOut(h, c, out, ep, notes), c, m)
  {
    hide Plain, Within, TakenBy;
    LogConcat(h.log, notes, c);
    AsksOfferNothing(notes, c, c);
    assert OffersTo(h.log, c) + [] == OffersTo(h.log, c);
  }

  lemma ConveysNothing(notes: seq<Note>, c: Conn, m: Message)
    requires Conveys(notes, c, m, false)
    ensures Quiet(notes, c)
  {
  }

  lemma AsksAccounted(h: History, c: Conn, out: seq<Message>, notes: seq<Note>)
    requires Accounted(h, c, out, notes)
    ensures AsksOnly(notes, c)
  {
  }

  lemma TouchedLog(g: Gate, h: History, g': Gate, h': History, c: Conn)
    requires Touched(g, h, g', h', c)
    ensures h.log <= h'.log
  {
  }

  lemma DeadDirect(g: Gate, h: History, c: Conn, m: Message, policy: Policy)
    requires !Live(g.connections, c)
    ensures AttemptedDirect(g, h, g, h, c, m, None, policy) && Offered(h, h, c) == []
  {
  }

  /** The slot `c` is left with after a direct attempt. */
  lemma EntryDirect(g: Gate, h: History, c: Conn, m: Message, reply: Reply, policy: Policy,
                    e: Entry, out: seq<Message>, ep: Episode)
    requires Live(g.connections, c) && !g.connections[c].value.stale && e.stale == reply.Full?
    requires e.stale ==>
      && (forall s :: s in ep.created <==> policy.fits && s in e.subs)
      && e.pendingStale == Notices(ep.created) && ep.start == |out|
    ensures var r := Some(reply.Taken?);
      AttemptedDirect(g, h, WithEntry(g, c, e), WithOut(h, c, out, ep, AskedNow([], c, m, reply)), c, m, r, policy)
  {
    hide Conveys, Notices, Alerted, Asked, AskedNow;
    OneAsk(c, m, reply);
    var notes := AskedNow([], c, m, reply);
    if e.stale { AlertedNow(g, h, c, policy, e, out, ep, notes); }
    assert Since(h, WithOut(h, c, out, ep, notes)) == notes;
  }

  lemma OneAsk(c: Conn, m: Message, reply: Reply)
    ensures var notes := AskedNow([], c, m, reply);
      && Conveys(notes, c, m, reply.Taken?) && Asked(notes, c, m) && (Ask(c, m, Full) in notes <==> reply.Full?)
  {
    hide Plain, TakenBy;
    NothingAsked(c);
    AskConveys([], c, m, reply);
    assert AskedNow([], c, m, reply) == [Ask(c, m, reply)];
  }

  lemma AlertedNow(g: Gate, h: History, c: Conn, policy: Policy, e: Entry, out: seq<Message>, ep: Episode, notes: seq<Note>)
    requires Live(g.connections, c) && (forall s :: s in ep.created <==> policy.fits && s in e.subs)
    requires e.pendingStale == Notices(ep.created) && ep.start == |out|
    ensures Alerted(WithEntry(g, c, e), WithOut(h, c, out, ep, notes), c, policy)
  {
    hide Notices;
  }

  lemma HeldDirect(g: Gate, h: History, c: Conn, m: Message, policy: Policy)
    requires Live(g.connections, c) && g.connections[c].value.stale
    ensures AttemptedDirect(g, h, g, h, c, m, Some(false), policy) && Offered(h, h, c) == []
  {
    NothingAsked(c);
  }

  lemma DirectAsked(h: History, c: Conn, out: seq<Message>, m: Message, reply: Reply)
    requires Due(h, c, m) && c in h.outbox && out == h.outbox[c] && Accounted(h, c, out, [])
    ensures Accounted(h, c, if reply.Taken? then out + [m] else out, AskedNow([], c, m, reply))
  {
    hide Accounted, Plain, Within;
    DueAsked(h, c, out, [], m, reply);
  }

  /** A dropped connection does not come back. */
  lemma TouchedGone(g: Gate, h: History, g': Gate, h': History, c: Conn)
    requires Touched(g, h, g', h', c)
    ensures Live(g'.connections, c) ==> Live(g.connections, c)
  {
  }

  lemma SaysMeant(g: Gate, h: History, h': History, c: Conn, m: Message, taken: bool)
    requires h.log <= h'.log && Conveys(Since(h, h'), c, m, taken) && Offered(h, h', c) == Meant(g, c, m)
    requires !Live(g.connections, c) ==> h' == h
    ensures Says(h, h', c)
  {
    hide Plain, TakenBy, Since, Offered, Conveys;
    if Live(g.connections, c) {
      SaysOne(h, h', c, m, taken);
    } else {
      NothingSaid(h, h', c);
    }
  }

  lemma DirectKeeps(g: Gate, h: History, g': Gate, h': History, c: Conn, m: Message, r: Option<bool>, policy: Policy)
    requires AttemptedDirect(g, h, g', h', c, m, r, policy)
    ensures Live(g'.connections, c) == Live(g.connections, c)
  {
    hide Conveys, Asked, Alerted;
  }

  lemma AttemptedConveys(g: Gate, h: History, g': Gate, h': History, c: Conn, m: Message, r: Option<bool>, policy: Policy)
    requires Attempted(g, h, g', h', c, m, r, policy) || AttemptedDirect(g, h, g', h', c, m, r, policy)
    ensures Conveys(Since(h, h'), c, m, r == Some(true))
  {
    hide Flushed, Alerted, Asked;
  }

  lemma TouchedAbout(g: Gate, h: History, g': Gate, h': History, c: Conn)
    requires Touched(g, h, g', h', c)
    ensures h.log <= h'.log && NotesAbout(Since(h, h'), c) && h'.answers == h.answers && StaleLasts(g, h, g', h', c)
  {
    hide StaleLasts, Evolved, OwnCalls;
  }

  lemma AboutGone(g: Gate, h: History, g': Gate, h': History, c: Conn)
    requires About(g, h, g', h', c)
    ensures Live(g'.connections, c) ==> Live(g.connections, c)
  {
  }

  lemma OthersStay(g: Gate, h: History, g': Gate, h': History, c: Conn)
    requires About(g, h, g', h', c)
    ensures |g'.connections| == |g.connections| && h'.answers == h.answers
    ensures forall d: Conn :: d < |g.connections| && d != c ==> g'.connections[d] == g.connections[d]
  {
  }
}
