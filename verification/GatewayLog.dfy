/** What the gateway says to its connections
    (`crates/nexum-network/src/gateway.rs`), as a log: every message it decides
    to send, and everything a transport is asked to take. */
module GatewayLog {
  import opened Values

  type Conn = nat
  type World = nat
  type Sub = nat
  type ClientId = nat

  /** What the runtime delivers for a subscription. */
  datatype Update =
    | Initial
    | Resynced
    | RowInserted(row: nat)
    | RowUpdated(row: nat)
    | RowDeleted(row: nat)
    | FellBehind

  /** Server messages, with the fields the gateway decides on; `Protocol` has
      their wire form. */
  datatype Message =
    | HandshakeResponse
    | AuthResult(ok: bool)
    | AttachResult(attached: Option<World>)
    | DetachResult
    | TickUpdate(world: World)
    | Snapshot(request: ClientId, sub: Sub)
    | RowDelta(sub: Sub, update: Update)
    | DeltaBatch(sub: Sub, request: ClientId, updates: seq<Update>)
    | StaleNotice(sub: Sub)
    | ErrorNotice(code: nat, request: ClientId)
    | Pong(nonce: nat)
    | Disconnect
    | ReducerResult(client: ClientId, done: bool)

  /** What a transport says to a message. */
  datatype Reply = Taken | Full | Closed | Io

  /** A message the gateway decided to send, or one its transport was asked to
      take. */
  datatype Note =
    | Offer(conn: Conn, message: Message)
    | Ask(conn: Conn, message: Message, reply: Reply)

  /** The result of a call, as it was routed to its caller. */
  datatype Answer = Answer(conn: Conn, client: ClientId, call: nat, done: bool)

  // ------------------------------------------------------------ projections

  function OffersTo(log: seq<Note>, c: Conn): seq<Message>
  {
    if log == [] then []
    else
      var n := log[|log| - 1];
      OffersTo(log[..|log| - 1], c) + if n.Offer? && n.conn == c then [n.message] else []
  }

  /** What `c`'s transport has taken. */
  function TakenBy(log: seq<Note>, c: Conn): seq<Message>
  {
    if log == [] then []
    else
      var n := log[|log| - 1];
      TakenBy(log[..|log| - 1], c) + if n.Ask? && n.conn == c && n.reply.Taken? then [n.message] else []
  }

  lemma {:induction false} LogConcat(a: seq<Note>, b: seq<Note>, c: Conn)
    ensures OffersTo(a + b, c) == OffersTo(a, c) + OffersTo(b, c)
    ensures TakenBy(a + b, c) == TakenBy(a, c) + TakenBy(b, c)
    decreases |b|
  {
    if b == [] {
      assert a + b == a;
      assert OffersTo(a, c) + [] == OffersTo(a, c) && TakenBy(a, c) + [] == TakenBy(a, c);
    } else {
      assert (a + b)[..|a + b| - 1] == a + b[..|b| - 1];
      LogConcat(a, b[..|b| - 1], c);
    }
  }

  ghost predicate NotesAbout(notes: seq<Note>, c: Conn)
  {
    forall i :: 0 <= i < |notes| ==> notes[i].conn == c
  }

  /** Only the transport of `c` is asked. */
  ghost predicate AsksOnly(notes: seq<Note>, c: Conn)
  {
    forall i :: 0 <= i < |notes| ==> notes[i].Ask? && notes[i].conn == c
  }

  lemma {:induction false} NothingElsewhere(notes: seq<Note>, c: Conn, d: Conn)
    requires NotesAbout(notes, c) && d != c
    ensures OffersTo(notes, d) == [] && TakenBy(notes, d) == []
  {
    if notes != [] { NothingElsewhere(notes[..|notes| - 1], c, d); }
  }

  lemma {:induction false} AsksOfferNothing(notes: seq<Note>, c: Conn, d: Conn)
    requires AsksOnly(notes, c)
    ensures OffersTo(notes, d) == []
  {
    if notes != [] { AsksOfferNothing(notes[..|notes| - 1], c, d); }
  }

  lemma OneNote(n: Note, c: Conn)
    ensures OffersTo([n], c) == if n.Offer? && n.conn == c then [n.message] else []
    ensures TakenBy([n], c) == if n.Ask? && n.conn == c && n.reply.Taken? then [n.message] else []
  {
    assert [n][..0] == [];
  }

  // ------------------------------------------------------------ subsequences

  /** `s` is `t` with some elements left out. */
  predicate Within<T(==)>(s: seq<T>, t: seq<T>)
    decreases |t|
  {
    || s == []
    || (t != [] && s[|s| - 1] == t[|t| - 1] && Within(s[..|s| - 1], t[..|t| - 1]))
    || (t != [] && Within(s, t[..|t| - 1]))
  }

  lemma WithinGrows<T>(s: seq<T>, t: seq<T>, x: T)
    requires Within(s, t)
    ensures Within(s, t + [x]) && Within(s + [x], t + [x])
  {
    assert (t + [x])[..|t + [x]| - 1] == t && (s + [x])[..|s + [x]| - 1] == s;
  }

  lemma OneWithin<T>(x: T)
    ensures Within([x], [x])
  {
    assert [x][..0] == [];
  }

  lemma {:induction false} WithinHas<T>(s: seq<T>, t: seq<T>, x: T)
    requires Within(s, t) && x in s
    ensures x in t
    decreases |t|
  {
    var last := |t| - 1;
    if Within(s, t[..last]) {
      WithinHas(s, t[..last], x);
    } else if x != s[|s| - 1] {
      assert s == s[..|s| - 1] + [s[|s| - 1]];
      WithinHas(s[..|s| - 1], t[..last], x);
    }
  }

  // ---------------------------------------------------------------- messages

  /** Messages that pass while a session is stale. */
  predicate IsSignal(m: Message) { m.StaleNotice? || m.Disconnect? || m.ErrorNotice? }

  /** Messages that are never sent on the gateway's own account: neither
      notifications of staleness nor disconnects. */
  predicate IsPlain(m: Message) { !m.StaleNotice? && !m.Disconnect? }

  predicate IsSuccess(m: Message) { m.ReducerResult? && m.done }

  function Plain(ms: seq<Message>): seq<Message>
  {
    if ms == [] then []
    else Plain(ms[..|ms| - 1]) + if IsPlain(ms[|ms| - 1]) then [ms[|ms| - 1]] else []
  }

  /** The client ids of the successful results among `ms`. */
  function Successes(ms: seq<Message>): seq<ClientId>
  {
    if ms == [] then []
    else Successes(ms[..|ms| - 1]) + if IsSuccess(ms[|ms| - 1]) then [ms[|ms| - 1].client] else []
  }

  /** The client ids `c` was answered under with success. */
  function DoneTo(answers: seq<Answer>, c: Conn): seq<ClientId>
  {
    if answers == [] then []
    else
      var a := answers[|answers| - 1];
      DoneTo(answers[..|answers| - 1], c) + if a.conn == c && a.done then [a.client] else []
  }

  /** What `c` is told by `answers`. */
  function ResultsTo(answers: seq<Answer>, c: Conn): seq<Message>
  {
    if answers == [] then []
    else
      var a := answers[|answers| - 1];
      ResultsTo(answers[..|answers| - 1], c) + if a.conn == c then [ReducerResult(a.client, a.done)] else []
  }

  lemma {:induction false} PlainConcat(a: seq<Message>, b: seq<Message>)
    ensures Plain(a + b) == Plain(a) + Plain(b)
    decreases |b|
  {
    if b == [] {
      assert a + b == a;
      assert Plain(a) + [] == Plain(a);
    } else {
      assert (a + b)[..|a + b| - 1] == a + b[..|b| - 1];
      PlainConcat(a, b[..|b| - 1]);
    }
  }

  /** The results among `ms`. */
  function ResultsIn(ms: seq<Message>): seq<Message>
  {
    if ms == [] then []
    else ResultsIn(ms[..|ms| - 1]) + if ms[|ms| - 1].ReducerResult? then [ms[|ms| - 1]] else []
  }

  lemma {:induction false} ResultsInConcat(a: seq<Message>, b: seq<Message>)
    ensures ResultsIn(a + b) == ResultsIn(a) + ResultsIn(b)
    decreases |b|
  {
    if b == [] {
      assert a + b == a;
      assert ResultsIn(a) + [] == ResultsIn(a);
    } else {
      assert (a + b)[..|a + b| - 1] == a + b[..|b| - 1];
      ResultsInConcat(a, b[..|b| - 1]);
    }
  }

  lemma {:induction false} NoResults(ms: seq<Message>)
    requires forall i :: 0 <= i < |ms| ==> !ms[i].ReducerResult?
    ensures ResultsIn(ms) == []
  {
    if ms != [] { NoResults(ms[..|ms| - 1]); }
  }

  lemma {:induction false} WithinConcat<T>(a: seq<T>, b: seq<T>, s: seq<T>, t: seq<T>)
    requires Within(a, s) && Within(b, t)
    ensures Within(a + b, s + t)
    decreases |t|
  {
    if t == [] {
      assert a + b == a && s + t == s;
    } else {
      assert (s + t)[..|s + t| - 1] == s + t[..|t| - 1];
      if b != [] && b[|b| - 1] == t[|t| - 1] && Within(b[..|b| - 1], t[..|t| - 1]) {
        WithinConcat(a, b[..|b| - 1], s, t[..|t| - 1]);
        assert (a + b)[..|a + b| - 1] == a + b[..|b| - 1];
      } else {
        WithinConcat(a, b, s, t[..|t| - 1]);
      }
    }
  }

  lemma PlainGrows(ms: seq<Message>, m: Message)
    ensures Plain(ms + [m]) == Plain(ms) + if IsPlain(m) then [m] else []
    ensures Successes(ms + [m]) == Successes(ms) + if IsSuccess(m) then [m.client] else []
  {
    assert (ms + [m])[..|ms + [m]| - 1] == ms;
  }

  lemma AnswersGrow(answers: seq<Answer>, a: Answer, c: Conn)
    ensures DoneTo(answers + [a], c) == DoneTo(answers, c) + if a.conn == c && a.done then [a.client] else []
    ensures ResultsTo(answers + [a], c) == ResultsTo(answers, c) + if a.conn == c then [ReducerResult(a.client, a.done)] else []
  {
    assert (answers + [a])[..|answers + [a]| - 1] == answers;
  }

  lemma {:induction false} ResultsConcat(a: seq<Answer>, b: seq<Answer>, c: Conn)
    ensures ResultsTo(a + b, c) == ResultsTo(a, c) + ResultsTo(b, c)
    decreases |b|
  {
    if b == [] {
      assert a + b == a;
      assert ResultsTo(a, c) + [] == ResultsTo(a, c);
    } else {
      assert (a + b)[..|a + b| - 1] == a + b[..|b| - 1];
      ResultsConcat(a, b[..|b| - 1], c);
    }
  }

  lemma {:induction false} PlainHas(ms: seq<Message>, m: Message)
    requires m in ms && IsPlain(m)
    ensures m in Plain(ms)
  {
    if m != ms[|ms| - 1] {
      assert ms == ms[..|ms| - 1] + [ms[|ms| - 1]];
      PlainHas(ms[..|ms| - 1], m);
    }
  }

  lemma {:induction false} SuccessHas(ms: seq<Message>, m: Message)
    requires m in ms && IsSuccess(m)
    ensures m.client in Successes(ms)
  {
    if m != ms[|ms| - 1] {
      assert ms == ms[..|ms| - 1] + [ms[|ms| - 1]];
      SuccessHas(ms[..|ms| - 1], m);
    }
  }

  lemma {:induction false} DoneHas(answers: seq<Answer>, c: Conn, x: ClientId)
    requires x in DoneTo(answers, c)
    ensures exists n :: 0 <= n < |answers| && answers[n].conn == c && answers[n].client == x && answers[n].done
  {
    var last := |answers| - 1;
    if x in DoneTo(answers[..last], c) {
      DoneHas(answers[..last], c, x);
      var n :| 0 <= n < last && answers[..last][n].conn == c && answers[..last][n].client == x && answers[..last][n].done;
      assert answers[n].conn == c;
    }
  }

  /** Successes come in the order they are offered. */
  lemma {:induction false} SuccessesWithin(s: seq<Message>, t: seq<Message>)
    requires Within(Plain(s), t)
    ensures Within(Successes(s), Successes(t))
    decreases |s| + |t|
  {
    PlainSuccesses(s);
    SubSuccesses(Plain(s), t);
  }

  lemma {:induction false} PlainSuccesses(s: seq<Message>)
    ensures Successes(Plain(s)) == Successes(s)
  {
    if s != [] {
      var front, m := s[..|s| - 1], s[|s| - 1];
      PlainSuccesses(front);
      PlainGrows(Plain(front), m);
      assert Plain(front) + [] == Plain(front);
    }
  }

  lemma {:induction false} SubSuccesses(s: seq<Message>, t: seq<Message>)
    requires Within(s, t)
    ensures Within(Successes(s), Successes(t))
    decreases |t|
  {
    if s != [] {
      var a, b, front := s[..|s| - 1], t[..|t| - 1], t[|t| - 1];
      assert s == a + [s[|s| - 1]] && t == b + [front];
      PlainGrows(b, front);
      PlainGrows(a, s[|s| - 1]);
      if s[|s| - 1] == front && Within(a, b) {
        SubSuccesses(a, b);
        if IsSuccess(front) {
          WithinGrows(Successes(a), Successes(b), front.client);
        } else {
          assert Successes(a) + [] == Successes(a) && Successes(b) + [] == Successes(b);
        }
      } else {
        SubSuccesses(s, b);
        if IsSuccess(front) {
          WithinGrows(Successes(s), Successes(b), front.client);
        } else {
          assert Successes(b) + [] == Successes(b);
        }
      }
    }
  }
}
