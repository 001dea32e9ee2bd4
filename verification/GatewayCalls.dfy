/** Reducer calls (`crates/nexum-network/src/gateway.rs`): which pending calls a
    step answers, and what their callers hear. */
module GatewayCalls {
  import opened Values
  import opened GatewayLog
  import opened GatewayState
  import opened GatewaySends

  /** What a committed tick of a world means to the gateway: whether there is
      anything to broadcast and whether its frame fits, whether rows changed,
      what its subscriptions drain, and the results of calls. */
  datatype Outcome = Outcome(
    world: World, content: bool, fits: bool, changed: bool, drained: map<Sub, seq<Update>>, results: seq<(nat, bool)>)

  /** The answers since. */
  ghost function News(h: History, h': History): seq<Answer>
  {
    if |h.answers| <= |h'.answers| then h'.answers[|h.answers|..] else []
  }

  /** The answer to the call pending under `key`. */
  function AnswerTo(g: Gate, key: (World, nat), done: bool): Answer
    requires key in g.pendingCalls
  {
    Answer(g.pendingCalls[key].conn, g.pendingCalls[key].client, key.1, done)
  }

  /** The transport of the caller was asked to take the answer, unless its
      session is stale or gone by now. */
  ghost predicate Reached(g: Gate, notes: seq<Note>, a: Answer)
  {
    Asked(notes, a.conn, ReducerResult(a.client, a.done)) || IsStale(g, a.conn) || !Live(g.connections, a.conn)
  }

  /** Exactly the pending calls in `v` are answered, with the outcomes there,
      unless their caller is gone; the others wait on. What callers are told of
      results is these answers, in order. */
  ghost predicate Settles(g: Gate, h: History, g': Gate, h': History, v: map<(World, nat), bool>)
  {
    && h.answers <= h'.answers && h.log <= h'.log
    && (forall key :: key in g'.pendingCalls ==>
          key in g.pendingCalls && g'.pendingCalls[key] == g.pendingCalls[key] && key !in v)
    && (forall key :: key in g.pendingCalls ==> Fate(g, h, g', h', v, key))
    && (forall a :: a in News(h, h') ==> Sourced(g, v, a) && Reached(g', Since(h, h'), a))
    && (forall c: Conn :: ResultsIn(Offered(h, h', c)) == ResultsTo(News(h, h'), c))
  }

  ghost predicate Fate(g: Gate, h: History, g': Gate, h': History, v: map<(World, nat), bool>, key: (World, nat))
    requires key in g.pendingCalls
  {
    || !Live(g'.connections, g.pendingCalls[key].conn)
    || (if key in v then AnswerTo(g, key, v[key]) in News(h, h') else key in g'.pendingCalls)
  }

  ghost predicate Sourced(g: Gate, v: map<(World, nat), bool>, a: Answer)
  {
    exists w: World :: (w, a.call) in g.pendingCalls && (w, a.call) in v && a == AnswerTo(g, (w, a.call), v[(w, a.call)])
  }

  lemma NewsChain(h0: History, h1: History, h2: History)
    requires h0.answers <= h1.answers <= h2.answers
    ensures News(h0, h2) == News(h0, h1) + News(h1, h2)
  {
  }

  /** One settlement after another; the first decides. */
  lemma SettlesChains(g0: Gate, h0: History, g1: Gate, h1: History, g2: Gate, h2: History,
                      v: map<(World, nat), bool>, v': map<(World, nat), bool>)
    requires Agrees(g0, h0) && Agrees(g1, h1) && Settles(g0, h0, g1, h1, v) && Settles(g1, h1, g2, h2, v')
    requires Kept(g0, h0, g1, h1) && Kept(g1, h1, g2, h2) && h2.resyncs == h1.resyncs
    ensures Settles(g0, h0, g2, h2, v' + v)
  {
    hide Agrees, Kept, ResultsIn, ResultsTo, Since, News, Sourced, Reached, Fate;
    NewsChain(h0, h1, h2);
    forall key | key in g0.pendingCalls
      ensures Fate(g0, h0, g2, h2, v' + v, key)
      ensures key in g2.pendingCalls ==> key !in v' + v
    {
      assert key in g2.pendingCalls ==> key in g1.pendingCalls;
      FateChains(g0, h0, g1, h1, g2, h2, v, v', key);
    }
    forall a | a in News(h0, h2)
      ensures Sourced(g0, v' + v, a) && Reached(g2, Since(h0, h2), a)
    {
      SourceChains(g0, h0, g1, h1, g2, h2, v, v', a);
    }
    forall c: Conn
      ensures ResultsIn(Offered(h0, h2, c)) == ResultsTo(News(h0, h2), c)
    {
      SinceChains(h0, h1, h2, c);
      ResultsInConcat(Offered(h0, h1, c), Offered(h1, h2, c));
      ResultsConcat(News(h0, h1), News(h1, h2), c);
    }
  }

  lemma FateChains(g0: Gate, h0: History, g1: Gate, h1: History, g2: Gate, h2: History,
                   v: map<(World, nat), bool>, v': map<(World, nat), bool>, key: (World, nat))
    requires Agrees(g0, h0) && Settles(g0, h0, g1, h1, v) && Settles(g1, h1, g2, h2, v')
    requires Kept(g0, h0, g1, h1) && Kept(g1, h1, g2, h2) && key in g0.pendingCalls
    ensures Fate(g0, h0, g2, h2, v' + v, key)
  {
    hide Agrees, Kept, ResultsIn, ResultsTo, Since, Sourced, Reached, News;
    PendingLive(g0, h0, key);
    DeadStay(g0, h0, g1, h1);
    DeadStay(g1, h1, g2, h2);
    NewsChain(h0, h1, h2);
    assert Fate(g0, h0, g1, h1, v, key);
    if key in g1.pendingCalls { assert Fate(g1, h1, g2, h2, v', key); }
  }

  lemma SourceChains(g0: Gate, h0: History, g1: Gate, h1: History, g2: Gate, h2: History,
                     v: map<(World, nat), bool>, v': map<(World, nat), bool>, a: Answer)
    requires Agrees(g0, h0) && Agrees(g1, h1) && Settles(g0, h0, g1, h1, v) && Settles(g1, h1, g2, h2, v')
    requires Kept(g0, h0, g1, h1) && Kept(g1, h1, g2, h2) && h2.resyncs == h1.resyncs
    requires a in News(h0, h1) + News(h1, h2)
    ensures Sourced(g0, v' + v, a) && Reached(g2, Since(h0, h2), a)
  {
    hide Agrees, Kept, ResultsIn, ResultsTo, Since, Fate, News, Reached;
    SinceChains(h0, h1, h2, 0);
    if a in News(h0, h1) {
      var w: World :| (w, a.call) in g0.pendingCalls && (w, a.call) in v && a == AnswerTo(g0, (w, a.call), v[(w, a.call)]);
      assert (v' + v)[(w, a.call)] == v[(w, a.call)];
      PendingLive(g0, h0, (w, a.call));
      DeadStay(g0, h0, g1, h1);
      ReachedStill(g1, h1, g2, h2, Since(h0, h1), Since(h1, h2), a);
    } else {
      var w: World :| (w, a.call) in g1.pendingCalls && (w, a.call) in v' && a == AnswerTo(g1, (w, a.call), v'[(w, a.call)]);
      assert (w, a.call) !in v && (v' + v)[(w, a.call)] == v'[(w, a.call)];
      ReachedLater(g2, Since(h0, h1), Since(h1, h2), a);
    }
  }

  lemma ReachedStill(g1: Gate, h1: History, g2: Gate, h2: History, notes: seq<Note>, more: seq<Note>, a: Answer)
    requires Kept(g1, h1, g2, h2) && h2.resyncs == h1.resyncs && a.conn < |g1.connections| && Reached(g1, notes, a)
    ensures Reached(g2, notes + more, a)
  {
    hide Evolved;
    assert ConnKept(g1, h1, g2, h2, a.conn);
    assert forall n :: n in notes ==> n in notes + more;
  }

  lemma ReachedLater(g: Gate, notes: seq<Note>, more: seq<Note>, a: Answer)
    requires Reached(g, more, a)
    ensures Reached(g, notes + more, a)
  {
    assert forall n :: n in more ==> n in notes + more;
  }

  /** Where nothing happens, nothing is settled but what does not wait. */
  lemma SettlesNothing(g: Gate, h: History, v: map<(World, nat), bool>)
    requires forall key :: key in g.pendingCalls ==> key !in v
    ensures Settles(g, h, g, h, v)
  {
  }

  /** Only what pending calls have coming matters. */
  lemma SettlesSame(g: Gate, h: History, g': Gate, h': History, v: map<(World, nat), bool>, v': map<(World, nat), bool>)
    requires Settles(g, h, g', h', v)
    requires forall key :: key in g.pendingCalls ==> (key in v <==> key in v') && (key in v ==> v[key] == v'[key])
    ensures Settles(g, h, g', h', v')
  {
    hide ResultsIn, ResultsTo, Since, News, Reached;
    forall key | key in g.pendingCalls
      ensures Fate(g, h, g', h', v', key)
    {
      assert Fate(g, h, g', h', v, key);
    }
    forall a | a in News(h, h')
      ensures Sourced(g, v', a)
    {
      assert Sourced(g, v, a);
    }
  }

  /** A message to `c` settles nothing. */
  lemma TouchedSettles(g: Gate, h: History, g': Gate, h': History, c: Conn)
    requires Agrees(g, h) && Agrees(g', h') && Touched(g, h, g', h', c) && ResultsIn(Offered(h, h', c)) == []
    ensures Settles(g, h, g', h', map[])
  {
    hide Agrees, ResultsIn;
    NothingNew(g, h, g', h', c);
    forall key | key in g.pendingCalls
      ensures Fate(g, h, g', h', map[], key)
    {
      PendingKept(g, h, g', h', c, key);
    }
    forall d: Conn
      ensures ResultsIn(Offered(h, h', d)) == []
    {
      if d != c {
        NothingElsewhere(Since(h, h'), c, d);
        NoResults([]);
      }
    }
    forall key | key in g'.pendingCalls
      ensures g'.pendingCalls[key] == g.pendingCalls[key]
    {
      SamePending(g, h, g', h', c, key);
    }
  }

  lemma SamePending(g: Gate, h: History, g': Gate, h': History, c: Conn, key: (World, nat))
    requires Agrees(g, h) && Agrees(g', h') && Touched(g, h, g', h', c) && key in g'.pendingCalls && key in g.pendingCalls
    ensures g'.pendingCalls[key] == g.pendingCalls[key]
  {
    hide Agrees;
    PendingKept(g, h, g', h', c, key);
    if !Live(g'.connections, c) && g.pendingCalls[key].conn == c {
      PendingLive(g', h', key);
      PendingOne(g', h', key);
      PendingOne(g, h, key);
    }
  }

  lemma PendingOne(g: Gate, h: History, key: (World, nat))
    requires Agrees(g, h) && key in g.pendingCalls
    ensures key.1 in h.calls && h.calls[key.1] == Record(key.0, g.pendingCalls[key].conn, g.pendingCalls[key].client, Waiting)
  {
    hide IndexesAgree, ByConnAgrees, AnswersAgree, IdsBelow, AllStaleKept, LiveCount, CallersSeated, AllFaithful;
  }

  /** The first outcome reported for each call of world `w`. */
  function Firsts(w: World, results: seq<(nat, bool)>): map<(World, nat), bool>
  {
    if results == [] then map[]
    else
      var before, last := Firsts(w, results[..|results| - 1]), results[|results| - 1];
      if (w, last.0) in before then before else before[(w, last.0) := last.1]
  }

  /** `results[i]` is the first with its id. */
  predicate IsFirst(results: seq<(nat, bool)>, i: nat)
    requires i < |results|
  {
    forall j :: 0 <= j < i ==> results[j].0 != results[i].0
  }

  lemma {:induction false} FirstsKnown(w: World, results: seq<(nat, bool)>, key: (World, nat))
    ensures key in Firsts(w, results) <==> key.0 == w && exists i :: 0 <= i < |results| && results[i].0 == key.1
  {
    if results != [] {
      var n := |results| - 1;
      FirstsKnown(w, results[..n], key);
      assert forall i :: 0 <= i < n ==> results[..n][i] == results[i];
    }
  }

  /** Each call reported gets its first outcome. */
  lemma {:induction false} FirstsExact(w: World, results: seq<(nat, bool)>, i: nat)
    requires i < |results| && IsFirst(results, i)
    ensures (w, results[i].0) in Firsts(w, results) && Firsts(w, results)[(w, results[i].0)] == results[i].1
  {
    var n := |results| - 1;
    var front := results[..n];
    if i < n {
      FirstsExact(w, front, i);
    } else {
      FirstsKnown(w, front, (w, results[i].0));
      assert forall j :: 0 <= j < n ==> front[j] == results[j];
    }
  }

  /** One more result. */
  lemma FirstsGrow(w: World, results: seq<(nat, bool)>, i: nat)
    requires i < |results|
    ensures Firsts(w, results[..i + 1]) == map[(w, results[i].0) := results[i].1] + Firsts(w, results[..i])
  {
    assert results[..i + 1][..i] == results[..i];
  }

  /** The outcomes reported for a step, each call's first one. */
  function Reported(outcomes: seq<Outcome>): map<(World, nat), bool>
  {
    if outcomes == [] then map[]
    else
      var last := outcomes[|outcomes| - 1];
      Firsts(last.world, last.results) + Reported(outcomes[..|outcomes| - 1])
  }

  /** The pending calls of worlds that no longer run fail. */
  function Swept(calls: PendingCalls, dead: set<World>): map<(World, nat), bool>
  {
    map key | key in calls && key.0 in dead :: false
  }

  /** What a step decides about the calls pending before it. */
  function Verdicts(calls: PendingCalls, outcomes: seq<Outcome>, dead: set<World>): map<(World, nat), bool>
  {
    Swept(calls, dead) + Reported(outcomes)
  }

  /** Answers as the results they report. */
  function Outcomes(answers: seq<Answer>): seq<(nat, bool)>
  {
    if answers == [] then []
    else Outcomes(answers[..|answers| - 1]) + [(answers[|answers| - 1].call, answers[|answers| - 1].done)]
  }

  /** All that `c` was to hear are its answers, in order, and it heard nothing
      else. */
  ghost predicate Heard(h: History, h': History, c: Conn)
  {
    h.answers <= h'.answers && Offered(h, h', c) == ResultsTo(News(h, h'), c) && Says(h, h', c)
  }

  lemma NothingHeard(h: History)
    ensures forall c: Conn :: Heard(h, h, c)
  {
  }

  lemma HeardChains(h0: History, h1: History, h2: History)
    requires forall c: Conn :: Heard(h0, h1, c)
    requires forall c: Conn :: Heard(h1, h2, c)
    ensures forall c: Conn :: Heard(h0, h2, c)
  {
    forall c: Conn
      ensures Heard(h0, h2, c)
    {
      assert Heard(h0, h1, c) && Heard(h1, h2, c);
      HeardChain(h0, h1, h2, c);
    }
  }

  lemma HeardChain(h0: History, h1: History, h2: History, c: Conn)
    requires Heard(h0, h1, c) && Heard(h1, h2, c)
    ensures Heard(h0, h2, c)
  {
    hide News, ResultsTo, Says;
    NewsChain(h0, h1, h2);
    SaysChains(h0, h1, h2, c);
    ResultsConcat(News(h0, h1), News(h1, h2), c);
  }

  lemma NewsOne(h: History, h': History, a: Answer)
    requires h'.answers == h.answers + [a]
    ensures News(h, h') == [a]
    ensures forall c: Conn :: ResultsTo(News(h, h'), c) == if a.conn == c then [ReducerResult(a.client, a.done)] else []
  {
    assert [a] == [] + [a];
    forall c: Conn
      ensures ResultsTo([a], c) == if a.conn == c then [ReducerResult(a.client, a.done)] else []
    {
      AnswersGrow([], a, c);
    }
  }

  /** Routing an answer and sending it is heard by the caller alone. */
  lemma AnswerHeard(g: Gate, h: History, g1: Gate, h1: History, g': Gate, h': History, w: World, k: nat, done: bool,
                    r: Option<bool>, policy: Policy)
    requires (w, k) in g.pendingCalls && k in h.calls && h1 == Routing(g, h, w, k, done)
    requires var p := g.pendingCalls[(w, k)];
      && Touched(g1, h1, g', h', p.conn) && Offered(h1, h', p.conn) == []
      && Attempted(g1, h1, g', h', p.conn, ReducerResult(p.client, done), r, policy)
    ensures forall c: Conn :: Heard(h, h', c)
    ensures h.log <= h'.log && forall n :: n in Since(h1, h') ==> n in Since(h, h')
  {
    hide Served, StaleLasts, Evolved, OwnCalls, Flushed, Alerted, Overflowed;
    var p := g.pendingCalls[(w, k)];
    var m := ReducerResult(p.client, done);
    TouchedAbout(g1, h1, g', h', p.conn);
    NewsOne(h, h', Answer(p.conn, p.client, k, done));
    assert Since(h, h1) == [Offer(p.conn, m)];
    forall c: Conn
      ensures Heard(h, h', c)
    {
      OneAnswerHeard(h, h1, h', p.conn, m, r == Some(true), c);
    }
    SinceChains(h, h1, h', p.conn);
  }

  lemma OneAnswerHeard(h: History, h1: History, h': History, d: Conn, m: Message, taken: bool, c: Conn)
    requires h.log <= h1.log <= h'.log && Since(h, h1) == [Offer(d, m)] && NotesAbout(Since(h1, h'), d)
    requires Offered(h1, h', d) == [] && Conveys(Since(h1, h'), d, m, taken)
    ensures Offered(h, h', c) == (if c == d then [m] else []) && Says(h, h', c)
  {
    hide Plain, TakenBy, OffersTo, Since;
    SinceChains(h, h1, h', c);
    LogConcat(Since(h, h1), Since(h1, h'), c);
    OneNote(Offer(d, m), c);
    if c != d { NothingElsewhere(Since(h1, h'), d, c); }
    PlainOf([]);
    assert [] + TakenBy(Since(h1, h'), c) == TakenBy(Since(h1, h'), c);
    OneWithin(m);
  }

  lemma PlainOf(ms: seq<Message>)
    ensures ms == [] ==> Plain(ms) == []
  {
  }

  /** Answering a call settles it and no other. */
  lemma AnswerSettles(g: Gate, h: History, g': Gate, h': History, w: World, k: nat, done: bool, r: Option<bool>, policy: Policy)
    requires Agrees(g, h) && Agrees(g', h') && (w, k) in g.pendingCalls && k in h.calls
    requires var g1, h1, p := Answered(g, w, k), Routing(g, h, w, k, done), g.pendingCalls[(w, k)];
      && Agrees(g1, h1) && Live(g1.connections, p.conn) && Touched(g1, h1, g', h', p.conn)
      && Attempted(g1, h1, g', h', p.conn, ReducerResult(p.client, done), r, policy)
      && h.log <= h'.log && forall n :: n in Since(h1, h') ==> n in Since(h, h')
    requires forall c: Conn :: Heard(h, h', c)
    ensures Settles(g, h, g', h', map[(w, k) := done])
  {
    hide Agrees, Touched, Since, Offered, Heard, ResultsIn, ResultsTo, Attempted, Live, Says, Reached, Within, IsStale, StaleLasts, NotesAbout, Answered, Routing;
    RoutedAnswers(g, h, w, k, done);
    var g1, h1, p := Answered(g, w, k), Routing(g, h, w, k, done), g.pendingCalls[(w, k)];
    var a, v := Answer(p.conn, p.client, k, done), map[(w, k) := done];
    TouchedAbout(g1, h1, g', h', p.conn);
    NewsOne(h, h', a);
    OthersWait(g, g1, h1, g', h', w, k);
    forall key | key in g.pendingCalls
      ensures Fate(g, h, g', h', v, key)
    {
      assert key == (w, k) ==> AnswerTo(g, key, v[key]) == a;
    }
    assert (w, a.call) in g.pendingCalls && a == AnswerTo(g, (w, a.call), v[(w, a.call)]);
    ReachedNow(g1, h1, g', h', Since(h, h'), a, r, policy);
    forall c: Conn
      ensures ResultsIn(Offered(h, h', c)) == ResultsTo(News(h, h'), c)
    {
      HeardResults(h, h', c);
    }
  }

  lemma RoutedAnswers(g: Gate, h: History, w: World, k: nat, done: bool)
    requires (w, k) in g.pendingCalls && k in h.calls
    ensures Routing(g, h, w, k, done).answers == h.answers + [AnswerTo(g, (w, k), done)]
  {
  }

  lemma OthersWait(g: Gate, g1: Gate, h1: History, g': Gate, h': History, w: World, k: nat)
    requires (w, k) in g.pendingCalls && g1 == Answered(g, w, k)
    requires Agrees(g1, h1) && Agrees(g', h') && Touched(g1, h1, g', h', g.pendingCalls[(w, k)].conn)
    ensures forall key :: key in g'.pendingCalls ==>
      key in g.pendingCalls && g'.pendingCalls[key] == g.pendingCalls[key] && key != (w, k)
    ensures forall key :: key in g.pendingCalls && key != (w, k) ==>
      key in g'.pendingCalls || !Live(g'.connections, g.pendingCalls[key].conn)
  {
    hide Agrees, Touched;
    var c := g.pendingCalls[(w, k)].conn;
    NothingNew(g1, h1, g', h', c);
    forall key | key in g'.pendingCalls
      ensures key in g.pendingCalls && g'.pendingCalls[key] == g.pendingCalls[key] && key != (w, k)
    {
      SamePending(g1, h1, g', h', c, key);
    }
    forall key | key in g.pendingCalls && key != (w, k)
      ensures key in g'.pendingCalls || !Live(g'.connections, g.pendingCalls[key].conn)
    {
      AnsweredOthers(g, w, k, key);
      PendingKept(g1, h1, g', h', c, key);
    }
  }

  lemma HeardResults(h: History, h': History, c: Conn)
    requires Heard(h, h', c)
    ensures ResultsIn(Offered(h, h', c)) == ResultsTo(News(h, h'), c) && h.answers <= h'.answers
  {
    AllResults(News(h, h'), c);
  }

  lemma {:induction false} AllResults(answers: seq<Answer>, c: Conn)
    ensures ResultsIn(ResultsTo(answers, c)) == ResultsTo(answers, c)
  {
    if answers != [] {
      var front, a := answers[..|answers| - 1], answers[|answers| - 1];
      AllResults(front, c);
      if a.conn == c {
        var ms, m := ResultsTo(front, c), ReducerResult(a.client, a.done);
        assert (ms + [m])[..|ms + [m]| - 1] == ms;
      } else {
        assert ResultsTo(answers, c) == ResultsTo(front, c);
      }
    }
  }

  lemma ReachedNow(g1: Gate, h1: History, g': Gate, h': History, notes: seq<Note>, a: Answer, r: Option<bool>, policy: Policy)
    requires Live(g1.connections, a.conn) && StaleLasts(g1, h1, g', h', a.conn)
    requires Attempted(g1, h1, g', h', a.conn, ReducerResult(a.client, a.done), r, policy)
    requires forall n :: n in Since(h1, h') ==> n in notes
    ensures Reached(g', notes, a)
  {
    hide Conveys, Flushed, Alerted;
  }

  lemma OutcomesGrow(answers: seq<Answer>, a: Answer)
    ensures Outcomes(answers + [a]) == Outcomes(answers) + [(a.call, a.done)]
  {
    assert (answers + [a])[..|answers + [a]| - 1] == answers;
  }

  /** One more result is routed. */
  lemma OutcomeRouted(h0: History, g: Gate, h: History, h': History, w: World, results: seq<(nat, bool)>, i: nat)
    requires i < |results| && (w, results[i].0) in g.pendingCalls && Heard(h0, h, 0)
    requires h'.answers == h.answers + [AnswerTo(g, (w, results[i].0), results[i].1)]
    requires Within(Outcomes(News(h0, h)), results[..i])
    ensures Within(Outcomes(News(h0, h')), results[..i + 1])
  {
    hide Within, Outcomes;
    var a := AnswerTo(g, (w, results[i].0), results[i].1);
    assert News(h0, h') == News(h0, h) + [a];
    OutcomesGrow(News(h0, h), a);
    WithinGrows(Outcomes(News(h0, h)), results[..i], results[i]);
    assert results[..i + 1] == results[..i] + [results[i]];
    assert results[i] == (results[i].0, results[i].1);
  }

  lemma OutcomeSkipped(h0: History, h: History, results: seq<(nat, bool)>, i: nat)
    requires i < |results| && Within(Outcomes(News(h0, h)), results[..i])
    ensures Within(Outcomes(News(h0, h)), results[..i + 1])
  {
    hide Within, Outcomes;
    WithinGrows(Outcomes(News(h0, h)), results[..i], results[i]);
    assert results[..i + 1] == results[..i] + [results[i]];
  }

  lemma NoneLeft(g: Gate, h: History, g': Gate, h': History, w: World, results: seq<(nat, bool)>)
    requires Settles(g, h, g', h', Firsts(w, results))
    ensures forall i :: 0 <= i < |results| ==> (w, results[i].0) !in g'.pendingCalls
  {
    forall i | 0 <= i < |results|
      ensures (w, results[i].0) in Firsts(w, results)
    {
      FirstsKnown(w, results, (w, results[i].0));
    }
  }

  /** Failures for all of `keys`. */
  function Failing(keys: set<(World, nat)>): map<(World, nat), bool>
  {
    map key | key in keys :: false
  }

  lemma SweepBegins(g: Gate, h: History, keys: set<(World, nat)>, rest: set<(World, nat)>)
    requires rest == keys
    ensures Settles(g, h, g, h, Failing(keys - rest))
  {
    SettlesNothing(g, h, Failing(keys - rest));
  }

  lemma FailingGrows(keys: set<(World, nat)>, rest: set<(World, nat)>, key: (World, nat))
    requires key in rest && rest <= keys
    ensures map[key := false] + Failing(keys - rest) == Failing(keys - (rest - {key}))
  {
  }

  lemma FailingAll(calls: PendingCalls, dead: set<World>, keys: set<(World, nat)>, rest: set<(World, nat)>)
    requires rest == {} && forall key :: key in keys <==> key in calls && key.0 in dead
    ensures Failing(keys - rest) == Swept(calls, dead)
  {
  }

  /** A call that is not settled and no longer pending has lost its caller. */
  lemma CallerGone(g: Gate, h: History, g': Gate, h': History, keys: set<(World, nat)>, key: (World, nat))
    requires Settles(g, h, g', h', Failing(keys)) && key in g.pendingCalls && key !in keys && key !in g'.pendingCalls
    ensures !Live(g'.connections, g.pendingCalls[key].conn)
  {
    assert Fate(g, h, g', h', Failing(keys), key);
  }

  lemma NoNews(h: History, results: seq<(nat, bool)>)
    ensures Within(Outcomes(News(h, h)), results[..0])
  {
  }

  lemma SweptAway(g: Gate, h: History, g': Gate, h': History, dead: set<World>)
    requires Settles(g, h, g', h', Swept(g.pendingCalls, dead))
    ensures forall key :: key in g'.pendingCalls ==> key.0 !in dead
  {
  }

  /** A step decides on success only what one of its outcomes reports so. */
  lemma {:induction false} ReportedSource(outcomes: seq<Outcome>, key: (World, nat))
    requires key in Reported(outcomes)
    ensures exists j :: 0 <= j < |outcomes| && outcomes[j].world == key.0 && (key.1, Reported(outcomes)[key]) in outcomes[j].results
  {
    var n := |outcomes| - 1;
    var front, last := outcomes[..n], outcomes[n];
    if key in Reported(front) {
      ReportedSource(front, key);
      var j :| 0 <= j < n && front[j].world == key.0 && (key.1, Reported(front)[key]) in front[j].results;
      assert outcomes[j].world == key.0 && (key.1, Reported(outcomes)[key]) in outcomes[j].results;
    } else {
      FirstsSource(last.world, last.results, key);
      assert outcomes[n].world == key.0 && (key.1, Reported(outcomes)[key]) in outcomes[n].results;
    }
  }

  lemma {:induction false} FirstsSource(w: World, results: seq<(nat, bool)>, key: (World, nat))
    requires key in Firsts(w, results)
    ensures key.0 == w && (key.1, Firsts(w, results)[key]) in results
  {
    var n := |results| - 1;
    if key in Firsts(w, results[..n]) {
      FirstsSource(w, results[..n], key);
    } else {
      assert results[n] == (results[n].0, results[n].1);
    }
  }
}
