/** What a tick amounts to (`crates/nexum-execution/src/world.rs`,
    `tick_with_calls`): in which order its work is done, what it reports, and
    what it leaves in the tables. */
module TickMeaning {
  import opened Values
  import opened Transaction
  import opened Program
  import opened Runs
  import opened Groups
  import opened TickPlan
  import opened SystemsPhase
  import opened Reducers
  import opened Effects
  import opened Soundness
  import opened ReadYourWrites
  import opened Storage
  import opened Validation
  import opened Apply
  import opened Commit
  import opened ChangeOrder
  import opened Traces
  import opened Tick
  import Schedule

  // ------------------------------------------------------------ the agenda

  /** One piece of work before the systems run. */
  datatype Item = Handling(message: Message) | Firing(event: Schedule.Scheduled) | Serving(call: Call)

  function Handlings(batch: seq<Message>): (items: seq<Item>)
    ensures |items| == |batch| && forall i :: 0 <= i < |batch| ==> items[i] == Handling(batch[i])
  {
    seq(|batch|, i requires 0 <= i < |batch| => Handling(batch[i]))
  }

  function Firings(due: seq<Schedule.Scheduled>): (items: seq<Item>)
    ensures |items| == |due| && forall i :: 0 <= i < |due| ==> items[i] == Firing(due[i])
  {
    seq(|due|, i requires 0 <= i < |due| => Firing(due[i]))
  }

  function Servings(calls: seq<Call>): (items: seq<Item>)
    ensures |items| == |calls| && forall i :: 0 <= i < |calls| ==> items[i] == Serving(calls[i])
  {
    seq(|calls|, i requires 0 <= i < |calls| => Serving(calls[i]))
  }

  /** Messages, then due events, then client calls. */
  function Agenda(w: Work): seq<Item> { Handlings(w.batch) + Firings(w.due) + Servings(w.calls) }

  /** The invocation an item makes. Due events name native reducers only. */
  function InvokedFor(store: Store, lib: Library, item: Item, tx: Tx): Invoked
    requires AllHalt(lib)
  {
    match item
    case Handling(m) => InvokeReducer(store, lib, m.kind, m.payload, tx)
    case Firing(e) => FromShelf(store, lib.native, e.reducer, e.args, tx)
    case Serving(c) => InvokeReducer(store, lib, c.reducer, c.args, tx)
  }

  /** A failed call is undone; any other failure ends the tick. */
  ghost function TakeItem(store: Store, lib: Library, maxEvents: nat, item: Item, m: Machine): Result
    requires AllHalt(lib) && Steady(store, m)
  {
    if item.Serving? then RunCall(store, lib, maxEvents, item.call, m).0
    else Counted(m, InvokedFor(store, lib, item, m.tx), maxEvents)
  }

  lemma ItemSteady(store: Store, lib: Library, maxEvents: nat, item: Item, m: Machine)
    requires AllHalt(lib) && Steady(store, m)
    ensures SteadyResult(store, TakeItem(store, lib, maxEvents, item, m))
  {
    hide FromShelf, Counted, Steady, ShelfHalts, RunCall;
    match item
    case Handling(msg) =>
      ShelfSteady(store, lib.native, msg.kind, msg.payload, m, maxEvents);
      ShelfSteady(store, lib.wasm, msg.kind, msg.payload, m, maxEvents);
    case Firing(e) => ShelfSteady(store, lib.native, e.reducer, e.args, m, maxEvents);
    case Serving(c) => CallSteady(store, lib, maxEvents, c, m);
  }

  ghost function TakeAll(store: Store, lib: Library, maxEvents: nat, items: seq<Item>, m: Machine): (r: Result)
    requires AllHalt(lib) && Steady(store, m)
    decreases |items|
  {
    if items == [] then Success(m)
    else
      ItemSteady(store, lib, maxEvents, items[0], m);
      match TakeItem(store, lib, maxEvents, items[0], m)
      case Failure(e, left) => Failure(e, left)
      case Success(m') => TakeAll(store, lib, maxEvents, items[1..], m')
  }

  lemma {:induction false} TakeSteady(store: Store, lib: Library, maxEvents: nat, items: seq<Item>, m: Machine)
    requires AllHalt(lib) && Steady(store, m)
    ensures SteadyResult(store, TakeAll(store, lib, maxEvents, items, m))
    decreases |items|
  {
    hide TakeItem, Steady, AllHalt;
    if items != [] {
      ItemSteady(store, lib, maxEvents, items[0], m);
      var r := TakeItem(store, lib, maxEvents, items[0], m);
      if r.Success? { TakeSteady(store, lib, maxEvents, items[1..], r.m); }
    }
  }

  lemma {:induction false} TakeSplits(store: Store, lib: Library, maxEvents: nat, a: seq<Item>, b: seq<Item>, m: Machine)
    requires AllHalt(lib) && Steady(store, m)
    ensures var first := TakeAll(store, lib, maxEvents, a, m);
      && SteadyResult(store, first)
      && TakeAll(store, lib, maxEvents, a + b, m)
         == if first.Success? then TakeAll(store, lib, maxEvents, b, first.m) else first
    decreases |a|
  {
    hide TakeItem, Steady, AllHalt;
    TakeSteady(store, lib, maxEvents, a, m);
    if a == [] {
      assert a + b == b;
    } else {
      assert (a + b)[1..] == a[1..] + b;
      ItemSteady(store, lib, maxEvents, a[0], m);
      var r := TakeItem(store, lib, maxEvents, a[0], m);
      if r.Success? { TakeSplits(store, lib, maxEvents, a[1..], b, r.m); }
    }
  }

  lemma {:induction false} DeliverTakes(store: Store, lib: Library, maxEvents: nat, batch: seq<Message>, m: Machine)
    requires AllHalt(lib) && Steady(store, m)
    ensures TakeAll(store, lib, maxEvents, Handlings(batch), m) == Deliver(store, lib, maxEvents, batch, m)
    decreases |batch|
  {
    hide Steady, Counted, InvokeReducer, AllHalt;
    if batch != [] {
      assert Handlings(batch)[1..] == Handlings(batch[1..]);
      ItemSteady(store, lib, maxEvents, Handling(batch[0]), m);
      var r := TakeItem(store, lib, maxEvents, Handling(batch[0]), m);
      if r.Success? { DeliverTakes(store, lib, maxEvents, batch[1..], r.m); }
    }
  }

  lemma {:induction false} DueTakes(store: Store, lib: Library, maxEvents: nat, due: seq<Schedule.Scheduled>, m: Machine)
    requires AllHalt(lib) && Steady(store, m)
    ensures TakeAll(store, lib, maxEvents, Firings(due), m) == RunDue(store, lib, maxEvents, due, m)
    decreases |due|
  {
    hide Steady, Counted, FromShelf;
    if due != [] {
      assert Firings(due)[1..] == Firings(due[1..]);
      ItemSteady(store, lib, maxEvents, Firing(due[0]), m);
      var r := TakeItem(store, lib, maxEvents, Firing(due[0]), m);
      if r.Success? { DueTakes(store, lib, maxEvents, due[1..], r.m); }
    }
  }

  lemma {:induction false} CallsTake(store: Store, lib: Library, maxEvents: nat, calls: seq<Call>, m: Machine)
    requires AllHalt(lib) && Steady(store, m)
    ensures TakeAll(store, lib, maxEvents, Servings(calls), m) == RunCalls(store, lib, maxEvents, calls, m).0
    decreases |calls|
  {
    hide Current, TopLevel, RunCall, AllHalt;
    if calls != [] {
      assert Servings(calls)[1..] == Servings(calls[1..]);
      ItemSteady(store, lib, maxEvents, Serving(calls[0]), m);
      var r := TakeItem(store, lib, maxEvents, Serving(calls[0]), m);
      if r.Success? { CallsTake(store, lib, maxEvents, calls[1..], r.m); }
    }
  }

  /** A tick handles its messages in order, then the due events, then the
      calls, then runs the systems, each piece on what the ones before it left;
      the first failure that is not a call's ends it. */
  lemma PhasesInOrder(store: Store, env: Env, lib: Library, parallel: bool, w: Work)
    requires Runnable(lib, w)
    ensures Steady(store, Begin())
    ensures var before := TakeAll(store, lib, env.maxEvents, Agenda(w), Begin());
      && SteadyResult(store, before)
      && Body(store, env, lib, parallel, w).0
         == if before.Success? then Systems(store, env, parallel, w, before.m) else before
  {
    hide Systems, Deliver, RunDue, RunCalls, TakeAll, Steady, AllHalt, Agenda, Handlings, Firings, Servings;
    var max := env.maxEvents;
    BeginSteady(store);
    var a, b, c := Handlings(w.batch), Firings(w.due), Servings(w.calls);
    assert Agenda(w) == a + b + c by { AgendaParts(w); }
    TakeSplits(store, lib, max, a + b, c, Begin());
    TakeSplits(store, lib, max, a, b, Begin());
    DeliverTakes(store, lib, max, w.batch, Begin());
    TakeSteady(store, lib, max, Agenda(w), Begin());
    var first := TakeAll(store, lib, max, a, Begin());
    if first.Success? {
      DueTakes(store, lib, max, w.due, first.m);
      var second := TakeAll(store, lib, max, a + b, Begin());
      if second.Success? {
        CallsTake(store, lib, max, w.calls, second.m);
      }
    }
  }

  lemma AgendaParts(w: Work)
    ensures Agenda(w) == Handlings(w.batch) + Firings(w.due) + Servings(w.calls)
  {
  }

  // ------------------------------------------------------------ the report

  /** The events of the items that succeeded, in order. */
  ghost function Said(store: Store, lib: Library, maxEvents: nat, items: seq<Item>, m: Machine): seq<Event>
    requires AllHalt(lib) && Steady(store, m)
    decreases |items|
  {
    if items == [] then []
    else
      var i := InvokedFor(store, lib, items[0], m.tx);
      ItemSteady(store, lib, maxEvents, items[0], m);
      (if i.outcome.Ok? then i.events else [])
      + match TakeItem(store, lib, maxEvents, items[0], m)
        case Failure(_, _) => []
        case Success(m') => Said(store, lib, maxEvents, items[1..], m')
  }

  lemma ItemSays(store: Store, lib: Library, maxEvents: nat, item: Item, m: Machine)
    requires AllHalt(lib) && Steady(store, m) && TakeItem(store, lib, maxEvents, item, m).Success?
    ensures var m', i := TakeItem(store, lib, maxEvents, item, m).m, InvokedFor(store, lib, item, m.tx);
      && m'.events == m.events + (if i.outcome.Ok? then i.events else [])
      && m'.outbound == m.outbound && |m'.events| <= maxEvents + |m.events|
      && (i.outcome.Ok? ==> m'.tx == i.tx && |m'.events| <= maxEvents)
      && (i.outcome.Err? ==> item.Serving? && SameWork(m', m))
  {
    hide InvokeReducer, FromShelf, Rollback, Current, TopLevel;
    if item.Serving? { FailedCallUndone(store, lib, maxEvents, item.call, m); }
    assert m.events + [] == m.events;
  }

  lemma {:induction false} AgendaSays(store: Store, lib: Library, maxEvents: nat, items: seq<Item>, m: Machine)
    requires AllHalt(lib) && Steady(store, m) && TakeAll(store, lib, maxEvents, items, m).Success?
    ensures var m' := TakeAll(store, lib, maxEvents, items, m).m;
      m'.events == m.events + Said(store, lib, maxEvents, items, m) && m'.outbound == m.outbound
    decreases |items|
  {
    hide TakeItem, InvokedFor, Steady, AllHalt;
    if items != [] {
      ItemSteady(store, lib, maxEvents, items[0], m);
      ItemSays(store, lib, maxEvents, items[0], m);
      var m' := TakeItem(store, lib, maxEvents, items[0], m).m;
      AgendaSays(store, lib, maxEvents, items[1..], m');
      var i := InvokedFor(store, lib, items[0], m.tx);
      var said := if i.outcome.Ok? then i.events else [];
      assert m.events + said + Said(store, lib, maxEvents, items[1..], m')
             == m.events + (said + Said(store, lib, maxEvents, items[1..], m'));
    } else {
      assert m.events + [] == m.events;
    }
  }

  /** What the systems phase contributes in either mode. */
  ghost function SystemsOutput(store: Store, env: Env, parallel: bool, w: Work, m: Machine): Output
    requires AllTerminate(w.systems) && |w.declarations| == |w.systems|
  {
    if parallel then PlanOutput(store, env, w.systems, 0, Greedy(PrintsOf(store, w.declarations), 0), m)
    else SerialOutput(store, env, w.systems, m)
  }

  lemma SystemsGather(store: Store, env: Env, parallel: bool, w: Work, m: Machine)
    requires AllTerminate(w.systems) && |w.declarations| == |w.systems| && Systems(store, env, parallel, w, m).Success?
    ensures Gathered(Systems(store, env, parallel, w, m).m) == Then(Gathered(m), SystemsOutput(store, env, parallel, w, m))
  {
    hide Gathered, Then, RunPlan, Serial, PlanOutput, SerialOutput, Greedy;
    if parallel {
      PlanGathers(store, env, w.systems, 0, Greedy(PrintsOf(store, w.declarations), 0), m);
    } else {
      SerialGathers(store, env, w.systems, m);
    }
  }

  /** A committed tick reports exactly the events its successful reducers
      raised, in order, then the events and messages its systems were told had
      been taken, in order. */
  lemma TickReports(store: Store, env: Env, lib: Library, parallel: bool, w: Work)
    requires Runnable(lib, w) && RunTick(store, env, lib, parallel, w).Committed?
    ensures var e := RunTick(store, env, lib, parallel, w);
      && Steady(store, Begin())
      && var before := TakeAll(store, lib, env.maxEvents, Agenda(w), Begin());
      && before.Success?
      && Output(e.events, Posts(e.outbound))
         == Then(Output(Said(store, lib, env.maxEvents, Agenda(w), Begin()), []),
                 SystemsOutput(store, env, parallel, w, before.m))
  {
    hide Systems, Body, TakeAll, Steady, AllHalt, Agenda, CommitTo, SystemsOutput, Said;
    PhasesInOrder(store, env, lib, parallel, w);
    AgendaSays(store, lib, env.maxEvents, Agenda(w), Begin());
    var m := TakeAll(store, lib, env.maxEvents, Agenda(w), Begin()).m;
    SystemsGather(store, env, parallel, w, m);
    assert [] + Said(store, lib, env.maxEvents, Agenda(w), Begin()) == Said(store, lib, env.maxEvents, Agenda(w), Begin());
  }

  // ------------------------------------------------------------ the tables

  /** The transaction a committed tick ends with. */
  ghost function LastTx(store: Store, env: Env, lib: Library, parallel: bool, w: Work): Tx
    requires Runnable(lib, w) && Body(store, env, lib, parallel, w).0.Success?
  {
    Body(store, env, lib, parallel, w).0.m.tx
  }

  lemma CommittedFine(store: Store, env: Env, lib: Library, parallel: bool, w: Work)
    requires Runnable(lib, w) && RunTick(store, env, lib, parallel, w).Committed?
    ensures Body(store, env, lib, parallel, w).0.Success?
    ensures var tx := LastTx(store, env, lib, parallel, w);
      && Placed(tx.writes) && CommitTo(store, tx).Accepted?
      && RunTick(store, env, lib, parallel, w).store == CommitTo(store, tx).store
      && RunTick(store, env, lib, parallel, w).changes == CommitTo(store, tx).changes
  {
    hide Body, CommitTo, Placed;
    BodyFine(store, env, lib, parallel, w);
  }

  /** A committed tick leaves in every table what the tick would have read last:
      each existing row as `get` finds it on the final transaction, the pending
      inserts under the next ids, and nothing else. */
  lemma TickStores(store: Store, env: Env, lib: Library, parallel: bool, w: Work, name: string, n: nat)
    requires Runnable(lib, w) && SoundStore(store) && RunTick(store, env, lib, parallel, w).Committed? && name in store.names
    ensures Body(store, env, lib, parallel, w).0.Success?
    ensures var tx, e := LastTx(store, env, lib, parallel, w), RunTick(store, env, lib, parallel, w);
      var t := store.names[name];
      var hs := Handles(tx.writes.View(), Steps(tx.writes.View()), t);
      && (forall h :: h in hs <==> h in tx.writes.View() && tx.writes.View()[h].Insert? && h.table == t)
      && Rising(hs)
      && e.store.NextId(t) == store.NextId(t) + |hs|
      && e.store.RowAt(Key(t, Real(n)))
         == if n < store.NextId(t) then Read(store, tx, name, Real(n))
            else if n < store.NextId(t) + |hs| then Read(store, tx, name, hs[n - store.NextId(t)].row)
            else None
  {
    hide RunTick, CommitTo, Placed, SoundStore, LastTx, Steps, Handles, Read;
    CommittedFine(store, env, lib, parallel, w);
    var tx := LastTx(store, env, lib, parallel, w);
    CommitReads(store, tx, name, n);
    HandlesListed(tx.writes.View(), store.names[name]);
  }

  /** It keeps the invariants of the tables, and its change records are exactly
      the rows that changed, table by table, deletes before updates before
      inserts. */
  lemma TickKeeps(store: Store, env: Env, lib: Library, parallel: bool, w: Work)
    requires Runnable(lib, w) && SoundStore(store) && RunTick(store, env, lib, parallel, w).Committed?
    ensures var e := RunTick(store, env, lib, parallel, w);
      && SoundStore(e.store) && Later(store, e.store)
      && Records(store, e.store, e.changes) && ByTable(e.changes) && InSequence(e.changes)
  {
    hide RunTick, CommitTo, Placed, SoundStore, LastTx, Later, Records, ByTable, InSequence;
    CommittedFine(store, env, lib, parallel, w);
    CommitExact(store, LastTx(store, env, lib, parallel, w));
    CommitSequenced(store, LastTx(store, env, lib, parallel, w));
  }

  /** A tick whose phases succeed is committed exactly if its writes are
      acceptable: nothing it read can have changed. */
  lemma TickCommits(store: Store, env: Env, lib: Library, parallel: bool, w: Work)
    requires Runnable(lib, w) && SoundStore(store) && Body(store, env, lib, parallel, w).0.Success?
    ensures RunTick(store, env, lib, parallel, w).Committed?
            <==> Acceptable(store, LastTx(store, env, lib, parallel, w).writes.View())
  {
    hide Body, SoundStore, Later, Records, Acceptable, Check;
    BodyFine(store, env, lib, parallel, w);
    var m := Body(store, env, lib, parallel, w).0.m;
    ReadsHold(store, env, m);
    ValidateExact(store, m.tx);
    CheckExact(store, m.tx.writes.View());
    hide Validate, CommitTo, Fine;
    CommitExact(store, m.tx);
  }
}
