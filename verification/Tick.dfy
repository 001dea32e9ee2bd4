/** One tick as a value (`crates/nexum-execution/src/world.rs`,
    `tick_with_calls`): delivered messages, due events, client calls and
    systems on one transaction, then commit or nothing. */
module Tick {
  import opened Values
  import opened Transaction
  import opened Branching
  import opened Program
  import opened Runs
  import opened Groups
  import opened GroupEquivalence
  import opened TickPlan
  import opened SystemsPhase
  import opened Reducers
  import opened Effects
  import opened Soundness
  import opened ReadYourWrites
  import opened Storage
  import opened Validation
  import opened Apply
  import opened Commit
  import Schedule

  datatype Call = Call(requestId: nat, reducer: string, args: Args)
  datatype CallResult = CallResult(requestId: nat, outcome: Outcome)

  // --------------------------------------------------------------- phases

  /** An invocation that fails the tick when it fails. */
  function Counted(m: Machine, r: Invoked, maxEvents: nat): Result
  {
    var m' := m.(tx := r.tx);
    match r.outcome
    case Err(e) => Failure(e, m')
    case Ok(_) =>
      match AppendEvents(m.events, r.events, maxEvents)
      case None => Failure(Capacity, m')
      case Some(events) => Success(m'.(events := events))
  }

  /** Handler reducers of the delivered messages, in batch order. */
  function Deliver(store: Store, lib: Library, maxEvents: nat, batch: seq<Message>, m: Machine): Result
    requires AllHalt(lib)
    decreases |batch|
  {
    if batch == [] then Success(m)
    else
      match Counted(m, InvokeReducer(store, lib, batch[0].kind, batch[0].payload, m.tx), maxEvents)
      case Failure(e, left) => Failure(e, left)
      case Success(m') => Deliver(store, lib, maxEvents, batch[1..], m')
  }

  /** Due scheduled events; they name native reducers only. */
  function RunDue(store: Store, lib: Library, maxEvents: nat, due: seq<Schedule.Scheduled>, m: Machine): Result
    requires AllHalt(lib)
    decreases |due|
  {
    if due == [] then Success(m)
    else
      match Counted(m, FromShelf(store, lib.native, due[0].reducer, due[0].args, m.tx), maxEvents)
      case Failure(e, left) => Failure(e, left)
      case Success(m') => RunDue(store, lib, maxEvents, due[1..], m')
  }

  /** One client call: a failure is rolled back and answered, and the tick
      goes on. */
  function RunCall(store: Store, lib: Library, maxEvents: nat, call: Call, m: Machine): (r: (Result, CallResult))
    requires AllHalt(lib) && Current(store, m.tx.seen)
  {
    var i := InvokeReducer(store, lib, call.reducer, call.args, m.tx);
    var answer := CallResult(call.requestId, i.outcome);
    match i.outcome
    case Ok(_) => (Counted(m, i, maxEvents), answer)
    case Err(_) =>
      NamedAccrues(store, lib, call.reducer, call.args, m.tx);
      RollbackExact(store, m.tx, i.tx);
      (Success(m.(tx := Rollback(i.tx, TakeSnapshot(m.tx)))), answer)
  }

  lemma RunCallCurrent(store: Store, lib: Library, maxEvents: nat, call: Call, m: Machine)
    requires AllHalt(lib) && Current(store, m.tx.seen)
    ensures var r := RunCall(store, lib, maxEvents, call, m).0;
      r.Success? ==> Current(store, r.m.tx.seen) && r.m.outbound == m.outbound
  {
    hide InvokeReducer, Current, Rollback;
    NamedAccrues(store, lib, call.reducer, call.args, m.tx);
    RollbackExact(store, m.tx, InvokeReducer(store, lib, call.reducer, call.args, m.tx).tx);
  }

  /** All client calls in order, with one answer each. */
  function RunCalls(store: Store, lib: Library, maxEvents: nat, calls: seq<Call>, m: Machine)
    : (r: (Result, seq<CallResult>))
    requires AllHalt(lib) && Current(store, m.tx.seen)
    decreases |calls|
  {
    if calls == [] then (Success(m), [])
    else
      var (r, answer) := RunCall(store, lib, maxEvents, calls[0], m);
      match r
      case Failure(e, left) => (Failure(e, left), [answer])
      case Success(m') =>
        RunCallCurrent(store, lib, maxEvents, calls[0], m);
        var (rest, answers) := RunCalls(store, lib, maxEvents, calls[1..], m');
        (rest, [answer] + answers)
  }

  // ------------------------------------------------------- call guarantees

  /** One answer per call, in call order. */
  lemma {:induction false} CallsAnswered(store: Store, lib: Library, maxEvents: nat, calls: seq<Call>, m: Machine)
    requires AllHalt(lib) && Current(store, m.tx.seen)
    ensures var (r, answers) := RunCalls(store, lib, maxEvents, calls, m);
      && |answers| <= |calls| && (r.Success? ==> |answers| == |calls|)
      && (forall i :: 0 <= i < |answers| ==> answers[i].requestId == calls[i].requestId)
    decreases |calls|
  {
    hide InvokeReducer, Current, Rollback, Counted;
    if calls != [] {
      var (r, _) := RunCall(store, lib, maxEvents, calls[0], m);
      if r.Success? {
        RunCallCurrent(store, lib, maxEvents, calls[0], m);
        CallsAnswered(store, lib, maxEvents, calls[1..], r.m);
      }
    }
  }

  /** The calls that succeeded, and their answers. */
  ghost function Succeeded(calls: seq<Call>, answers: seq<CallResult>): seq<Call>
    requires |calls| == |answers|
  {
    if calls == [] then []
    else (if answers[0].outcome.Ok? then [calls[0]] else []) + Succeeded(calls[1..], answers[1..])
  }

  ghost function Positive(answers: seq<CallResult>): seq<CallResult>
  {
    if answers == [] then []
    else (if answers[0].outcome.Ok? then [answers[0]] else []) + Positive(answers[1..])
  }

  /** A failed call changes no pending write, handle, event or message. */
  lemma FailedCallUndone(store: Store, lib: Library, maxEvents: nat, call: Call, m: Machine)
    requires AllHalt(lib) && Current(store, m.tx.seen)
    ensures var (r, answer) := RunCall(store, lib, maxEvents, call, m);
      answer.outcome.Err? ==> r.Success? && SameWork(r.m, m) && r.m.tx.seen.rows == m.tx.seen.rows
  {
    hide InvokeReducer, Current, Rollback;
    NamedAccrues(store, lib, call.reducer, call.args, m.tx);
    RollbackExact(store, m.tx, InvokeReducer(store, lib, call.reducer, call.args, m.tx).tx);
  }

  lemma NamedEffects(store: Store, lib: Library, name: string, args: Args, a: Tx, b: Tx)
    requires AllHalt(lib) && SameEffects(a, b)
    ensures var x, y := InvokeReducer(store, lib, name, args, a), InvokeReducer(store, lib, name, args, b);
      x.outcome == y.outcome && x.events == y.events && SameEffects(x.tx, y.tx)
  {
    hide Invoke;
    if name in lib.native {
      InvokeEffects(store, lib.native[name](args), a, b, [], []);
    } else if name in lib.wasm {
      InvokeEffects(store, lib.wasm[name](args), a, b, [], []);
    }
  }

  lemma CallEffects(store: Store, lib: Library, maxEvents: nat, call: Call, m: Machine, n: Machine)
    requires AllHalt(lib) && Current(store, m.tx.seen) && Current(store, n.tx.seen) && SameWork(m, n)
    ensures var x, y := RunCall(store, lib, maxEvents, call, m), RunCall(store, lib, maxEvents, call, n);
      x.1 == y.1 && SameResult(x.0, y.0)
  {
    hide InvokeReducer, Current, Rollback;
    NamedEffects(store, lib, call.reducer, call.args, m.tx, n.tx);
    FailedCallUndone(store, lib, maxEvents, call, m);
    FailedCallUndone(store, lib, maxEvents, call, n);
  }

  /** Running only the calls that succeed does the same work. */
  lemma {:induction false} OnlySuccesses(store: Store, lib: Library, maxEvents: nat, calls: seq<Call>,
                                         m: Machine, n: Machine)
    requires AllHalt(lib) && Current(store, m.tx.seen) && Current(store, n.tx.seen) && SameWork(m, n)
    requires RunCalls(store, lib, maxEvents, calls, m).0.Success?
    ensures var (r, answers) := RunCalls(store, lib, maxEvents, calls, m);
      && |answers| == |calls|
      && var (s, positive) := RunCalls(store, lib, maxEvents, Succeeded(calls, answers), n);
      SameResult(r, s) && positive == Positive(answers)
    decreases |calls|
  {
    hide RunCall, Current, SameWork;
    CallsAnswered(store, lib, maxEvents, calls, m);
    if calls != [] {
      var call := calls[0];
      var (r, answer) := RunCall(store, lib, maxEvents, call, m);
      RunCallCurrent(store, lib, maxEvents, call, m);
      CallsAnswered(store, lib, maxEvents, calls[1..], r.m);
      var answers := RunCalls(store, lib, maxEvents, calls, m).1;
      assert answers[1..] == RunCalls(store, lib, maxEvents, calls[1..], r.m).1;
      var later := Succeeded(calls[1..], answers[1..]);
      if answer.outcome.Ok? {
        CallEffects(store, lib, maxEvents, call, m, n);
        RunCallCurrent(store, lib, maxEvents, call, n);
        OnlySuccesses(store, lib, maxEvents, calls[1..], r.m, RunCall(store, lib, maxEvents, call, n).0.m);
        assert ([call] + later)[1..] == later;
      } else {
        FailedCallUndone(store, lib, maxEvents, call, m);
        SameWorkChains(r.m, m, n);
        OnlySuccesses(store, lib, maxEvents, calls[1..], r.m, n);
        assert [] + later == later;
      }
    }
  }

  lemma SameWorkChains(a: Machine, b: Machine, c: Machine)
    requires SameWork(a, b) && SameWork(b, c)
    ensures SameWork(a, c)
  {
  }

  // ------------------------------------------------- what the phases keep

  /** The tick transaction between the phases before the systems. */
  ghost predicate Steady(store: Store, m: Machine)
  {
    Current(store, m.tx.seen) && TopLevel(m.tx) && m.outbound == []
  }

  ghost predicate SteadyResult(store: Store, r: Result)
  {
    r.Success? ==> Steady(store, r.m)
  }

  lemma {:induction false} InvokeTopLevel(store: Store, r: Reducer, tx: Tx, events: seq<Event>, h: seq<Reply>)
    requires Halts(r) && TopLevel(tx)
    ensures TopLevel(Invoke(store, r, tx, events, h).tx)
    decreases r.bound - |h|
  {
    hide Access, TopLevel;
    match r.act(h)
    case Return(_) =>
    case Throw(_) =>
    case Use(op) =>
      AccessTopLevel(store, tx, op);
      InvokeTopLevel(store, r, Access(store, tx, op).1, events, h + [Access(store, tx, op).0]);
    case Raise(e) =>
      if e.name == "" {
        InvokeTopLevel(store, r, tx, events, h + [Failed(InvalidArgument)]);
      } else {
        InvokeTopLevel(store, r, tx, events + [e], h + [Done]);
      }
  }

  lemma ShelfSteady(store: Store, s: Shelf, name: string, args: Args, m: Machine, maxEvents: nat)
    requires ShelfHalts(s) && Steady(store, m)
    ensures var i := FromShelf(store, s, name, args, m.tx);
      TopLevel(i.tx) && SteadyResult(store, Counted(m, i, maxEvents))
  {
    hide Invoke, Current, TopLevel;
    if name in s {
      InvokeTopLevel(store, s[name](args), m.tx, [], []);
      InvokeAccrues(store, s[name](args), m.tx, [], []);
    }
  }

  lemma {:induction false} DeliverSteady(store: Store, lib: Library, maxEvents: nat, batch: seq<Message>, m: Machine)
    requires AllHalt(lib) && Steady(store, m)
    ensures SteadyResult(store, Deliver(store, lib, maxEvents, batch, m))
    decreases |batch|
  {
    hide FromShelf, Counted, Steady, ShelfHalts;
    if batch != [] {
      var name, args := batch[0].kind, batch[0].payload;
      ShelfSteady(store, lib.native, name, args, m, maxEvents);
      ShelfSteady(store, lib.wasm, name, args, m, maxEvents);
      var r := Counted(m, InvokeReducer(store, lib, name, args, m.tx), maxEvents);
      if r.Success? { DeliverSteady(store, lib, maxEvents, batch[1..], r.m); }
    }
  }

  lemma {:induction false} DueSteady(store: Store, lib: Library, maxEvents: nat, due: seq<Schedule.Scheduled>, m: Machine)
    requires AllHalt(lib) && Steady(store, m)
    ensures SteadyResult(store, RunDue(store, lib, maxEvents, due, m))
    decreases |due|
  {
    hide FromShelf, Counted, Steady, ShelfHalts;
    if due != [] {
      ShelfSteady(store, lib.native, due[0].reducer, due[0].args, m, maxEvents);
      var r := Counted(m, FromShelf(store, lib.native, due[0].reducer, due[0].args, m.tx), maxEvents);
      if r.Success? { DueSteady(store, lib, maxEvents, due[1..], r.m); }
    }
  }

  lemma CallSteady(store: Store, lib: Library, maxEvents: nat, call: Call, m: Machine)
    requires AllHalt(lib) && Steady(store, m)
    ensures SteadyResult(store, RunCall(store, lib, maxEvents, call, m).0)
  {
    hide FromShelf, Current, TopLevel, ShelfHalts, Rollback, Formed;
    ShelfSteady(store, lib.native, call.reducer, call.args, m, maxEvents);
    ShelfSteady(store, lib.wasm, call.reducer, call.args, m, maxEvents);
    RunCallCurrent(store, lib, maxEvents, call, m);
    FailedCallUndone(store, lib, maxEvents, call, m);
    var r := RunCall(store, lib, maxEvents, call, m).0;
    if r.Success? && SameWork(r.m, m) { SameTopLevel(r.m.tx, m.tx); }
  }

  lemma SameTopLevel(a: Tx, b: Tx)
    requires SameEffects(a, b) && TopLevel(b)
    ensures TopLevel(a)
  {
  }

  lemma {:induction false} CallsSteady(store: Store, lib: Library, maxEvents: nat, calls: seq<Call>, m: Machine)
    requires AllHalt(lib) && Steady(store, m)
    ensures SteadyResult(store, RunCalls(store, lib, maxEvents, calls, m).0)
    decreases |calls|
  {
    hide RunCall, Current, TopLevel;
    if calls != [] {
      CallSteady(store, lib, maxEvents, calls[0], m);
      var r := RunCall(store, lib, maxEvents, calls[0], m).0;
      if r.Success? { CallsSteady(store, lib, maxEvents, calls[1..], r.m); }
    }
  }

  // ------------------------------------------------------------- the body

  /** Everything a tick runs besides its execution mode. */
  datatype Work = Work(
    batch: seq<Message>, due: seq<Schedule.Scheduled>, calls: seq<Call>,
    declarations: seq<Declaration>, systems: seq<Program>)

  ghost predicate Runnable(lib: Library, w: Work)
  {
    AllHalt(lib) && AllTerminate(w.systems) && |w.declarations| == |w.systems|
  }

  function Begin(): Machine { Machine(EmptyTx(), [], []) }

  lemma BeginSteady(store: Store)
    ensures Steady(store, Begin())
  {
  }

  /** The phases before the calls. */
  ghost function Prologue(store: Store, lib: Library, maxEvents: nat, w: Work): (r: Result)
    requires Runnable(lib, w)
    ensures SteadyResult(store, r)
  {
    BeginSteady(store);
    DeliverSteady(store, lib, maxEvents, w.batch, Begin());
    match Deliver(store, lib, maxEvents, w.batch, Begin())
    case Failure(e, left) => Failure(e, left)
    case Success(m) =>
      DueSteady(store, lib, maxEvents, w.due, m);
      RunDue(store, lib, maxEvents, w.due, m)
  }

  ghost function Systems(store: Store, env: Env, parallel: bool, w: Work, m: Machine): Result
    requires AllTerminate(w.systems) && |w.declarations| == |w.systems|
  {
    if parallel then Parallel(store, env, w.declarations, w.systems, m) else Serial(store, env, w.systems, m)
  }

  /** All phases: the final machine or the first error, and the answers so
      far. */
  ghost function Body(store: Store, env: Env, lib: Library, parallel: bool, w: Work): (Result, seq<CallResult>)
    requires Runnable(lib, w)
  {
    match Prologue(store, lib, env.maxEvents, w)
    case Failure(e, left) => (Failure(e, left), [])
    case Success(m) =>
      var (r, answers) := RunCalls(store, lib, env.maxEvents, w.calls, m);
      match r
      case Failure(e, left) => (Failure(e, left), answers)
      case Success(m') => (Systems(store, env, parallel, w, m'), answers)
  }

  // --------------------------------------------------------------- commit

  datatype Ending =
    | Committed(store: Store, changes: seq<Change>, events: seq<Event>, outbound: seq<Message>, answers: seq<CallResult>)
    | Aborted(error: Error)

  /** A tick whose phases all succeeded is committed. */
  function Conclude(store: Store, r: Result, answers: seq<CallResult>): Ending
  {
    match r
    case Failure(e, _) => Aborted(e)
    case Success(m) =>
      match CommitTo(store, m.tx)
      case Refused(e) => Aborted(e)
      case Accepted(after, changes) => Committed(after, changes, m.events, m.outbound, answers)
  }

  ghost function RunTick(store: Store, env: Env, lib: Library, parallel: bool, w: Work): Ending
    requires Runnable(lib, w)
  {
    var (r, answers) := Body(store, env, lib, parallel, w);
    Conclude(store, r, answers)
  }

  // -------------------------------------------------------- tick theorems

  lemma SystemsFine(store: Store, env: Env, parallel: bool, w: Work, m: Machine)
    requires AllTerminate(w.systems) && |w.declarations| == |w.systems| && Fine(store, env, m)
    ensures FineResult(store, env, Systems(store, env, parallel, w, m))
  {
    hide Serial, RunPlan, Fine, Greedy;
    if parallel {
      PlanFine(store, env, w.systems, 0, Greedy(PrintsOf(store, w.declarations), 0), m);
    } else {
      SerialFine(store, env, w.systems, m);
    }
  }

  lemma {:induction false} DeliverBounded(store: Store, lib: Library, maxEvents: nat, batch: seq<Message>, m: Machine)
    requires AllHalt(lib) && |m.events| <= maxEvents
    ensures var r := Deliver(store, lib, maxEvents, batch, m); r.Success? ==> |r.m.events| <= maxEvents
    decreases |batch|
  {
    hide InvokeReducer, AllHalt;
    if batch != [] {
      var r := Counted(m, InvokeReducer(store, lib, batch[0].kind, batch[0].payload, m.tx), maxEvents);
      if r.Success? { DeliverBounded(store, lib, maxEvents, batch[1..], r.m); }
    }
  }

  lemma {:induction false} DueBounded(store: Store, lib: Library, maxEvents: nat, due: seq<Schedule.Scheduled>, m: Machine)
    requires AllHalt(lib) && |m.events| <= maxEvents
    ensures var r := RunDue(store, lib, maxEvents, due, m); r.Success? ==> |r.m.events| <= maxEvents
    decreases |due|
  {
    hide FromShelf;
    if due != [] {
      var r := Counted(m, FromShelf(store, lib.native, due[0].reducer, due[0].args, m.tx), maxEvents);
      if r.Success? { DueBounded(store, lib, maxEvents, due[1..], r.m); }
    }
  }

  lemma {:induction false} CallsBounded(store: Store, lib: Library, maxEvents: nat, calls: seq<Call>, m: Machine)
    requires AllHalt(lib) && Current(store, m.tx.seen) && |m.events| <= maxEvents
    ensures var r := RunCalls(store, lib, maxEvents, calls, m).0; r.Success? ==> |r.m.events| <= maxEvents
    decreases |calls|
  {
    hide InvokeReducer, AllHalt, Current, Rollback;
    if calls != [] {
      RunCallCurrent(store, lib, maxEvents, calls[0], m);
      var r := RunCall(store, lib, maxEvents, calls[0], m).0;
      if r.Success? { CallsBounded(store, lib, maxEvents, calls[1..], r.m); }
    }
  }

  /** No phase before the systems exceeds the event budget. */
  lemma WorkBounded(store: Store, lib: Library, maxEvents: nat, w: Work)
    requires Runnable(lib, w)
    ensures var p := Prologue(store, lib, maxEvents, w);
      p.Success? ==>
        var r := RunCalls(store, lib, maxEvents, w.calls, p.m).0; r.Success? ==> |r.m.events| <= maxEvents
  {
    hide Deliver, RunDue, RunCalls, Current, TopLevel;
    BeginSteady(store);
    DeliverSteady(store, lib, maxEvents, w.batch, Begin());
    DeliverBounded(store, lib, maxEvents, w.batch, Begin());
    var d := Deliver(store, lib, maxEvents, w.batch, Begin());
    if d.Success? {
      DueSteady(store, lib, maxEvents, w.due, d.m);
      DueBounded(store, lib, maxEvents, w.due, d.m);
      var p := RunDue(store, lib, maxEvents, w.due, d.m);
      if p.Success? { CallsBounded(store, lib, maxEvents, w.calls, p.m); }
    }
  }

  lemma SteadyFine(store: Store, env: Env, m: Machine)
    requires Steady(store, m) && |m.events| <= env.maxEvents
    ensures Fine(store, env, m) && Sound(m)
  {
    TopLevelPlaced(m.tx, Key(0, Real(0)));
  }

  /** However a tick ends up, its transaction saw only the frozen store. */
  lemma BodyFine(store: Store, env: Env, lib: Library, parallel: bool, w: Work)
    requires Runnable(lib, w)
    ensures FineResult(store, env, Body(store, env, lib, parallel, w).0)
  {
    hide Systems, Prologue, RunCalls, Current, TopLevel, Fine;
    var p := Prologue(store, lib, env.maxEvents, w);
    if p.Success? {
      CallsSteady(store, lib, env.maxEvents, w.calls, p.m);
      var (r, _) := RunCalls(store, lib, env.maxEvents, w.calls, p.m);
      if r.Success? {
        WorkBounded(store, lib, env.maxEvents, w);
        SteadyFine(store, env, r.m);
        SystemsFine(store, env, parallel, w, r.m);
      }
    }
  }

  /** Validation of a tick never conflicts: only the writes can fail it. */
  lemma ReadsHold(store: Store, env: Env, m: Machine)
    requires Fine(store, env, m)
    ensures Validate(store, m.tx) == Check(store, m.tx.writes.View())
  {
    hide ListsOnce, Check, Placed;
  }

  lemma ConcludeSame(store: Store, env: Env, a: Result, b: Result, answers: seq<CallResult>)
    requires FineResult(store, env, a) && FineResult(store, env, b) && SameResult(a, b)
    ensures Conclude(store, a, answers) == Conclude(store, b, answers)
  {
    hide Fine, Validate;
    if a.Success? {
      ReadsHold(store, env, a.m);
      ReadsHold(store, env, b.m);
    }
  }

  lemma SystemsEffects(store: Store, env: Env, parallel: bool, w: Work, m: Machine, n: Machine)
    requires AllTerminate(w.systems) && |w.declarations| == |w.systems| && SameWork(m, n)
    ensures SameResult(Systems(store, env, parallel, w, m), Systems(store, env, parallel, w, n))
  {
    hide Serial, RunPlan, SameWork, Greedy;
    if parallel {
      PlanEffects(store, env, w.systems, 0, Greedy(PrintsOf(store, w.declarations), 0), m, n);
    } else {
      SerialEffects(store, env, w.systems, m, n);
    }
  }

  /** A committed tick answers every call in order; its events and messages are
      within the budgets, and every message is stamped and addressed. */
  lemma CommittedAnswers(store: Store, env: Env, lib: Library, parallel: bool, w: Work)
    requires Runnable(lib, w) && RunTick(store, env, lib, parallel, w).Committed?
    ensures var e := RunTick(store, env, lib, parallel, w);
      && |e.answers| == |w.calls| && Stamped(env, e.outbound)
      && |e.outbound| <= env.maxMessages && |e.events| <= env.maxEvents
      && forall i :: 0 <= i < |w.calls| ==> e.answers[i].requestId == w.calls[i].requestId
  {
    hide Systems, Prologue, RunCalls, Current, TopLevel, Validate;
    BodyFine(store, env, lib, parallel, w);
    CallsAnswered(store, lib, env.maxEvents, w.calls, Prologue(store, lib, env.maxEvents, w).m);
  }

  /** A committed tick is the tick that runs only the calls that succeed: the
      same stored tables, changes, events and messages, and the answers of
      those calls. */
  lemma OnlySuccessesCount(store: Store, env: Env, lib: Library, parallel: bool, w: Work)
    requires Runnable(lib, w) && RunTick(store, env, lib, parallel, w).Committed?
    ensures var e := RunTick(store, env, lib, parallel, w);
      && |e.answers| == |w.calls|
      && RunTick(store, env, lib, parallel, w.(calls := Succeeded(w.calls, e.answers)))
         == e.(answers := Positive(e.answers))
  {
    hide Systems, Prologue, RunCalls, Current, TopLevel, Validate, Fine, SameResult;
    CommittedAnswers(store, env, lib, parallel, w);
    var e := RunTick(store, env, lib, parallel, w);
    var fewer := w.(calls := Succeeded(w.calls, e.answers));
    SamePrologue(store, lib, env.maxEvents, w, fewer);
    var m := Prologue(store, lib, env.maxEvents, w).m;
    var (r, answers) := RunCalls(store, lib, env.maxEvents, w.calls, m);
    var (s, positive) := RunCalls(store, lib, env.maxEvents, fewer.calls, m);
    OnlySuccesses(store, lib, env.maxEvents, w.calls, m, m) by { assert SameWork(m, m); }
    assert s.Success? && SameWork(r.m, s.m) by { SameSuccess(r, s); }
    SystemsEffects(store, env, parallel, w, r.m, s.m);
    assert Systems(store, env, parallel, fewer, s.m) == Systems(store, env, parallel, w, s.m) by {
      SystemsIgnoreCalls(store, env, parallel, w, fewer, s.m);
    }
    BodyFine(store, env, lib, parallel, w);
    BodyFine(store, env, lib, parallel, fewer);
    ConcludeSame(store, env, Systems(store, env, parallel, w, r.m), Systems(store, env, parallel, w, s.m),
               positive);
  }

  lemma SameSuccess(a: Result, b: Result)
    requires SameResult(a, b) && a.Success?
    ensures b.Success? && SameWork(a.m, b.m)
  {
  }

  lemma SamePrologue(store: Store, lib: Library, maxEvents: nat, w: Work, v: Work)
    requires Runnable(lib, w) && Runnable(lib, v) && v == w.(calls := v.calls)
    ensures Prologue(store, lib, maxEvents, w) == Prologue(store, lib, maxEvents, v)
  {
  }

  lemma SystemsIgnoreCalls(store: Store, env: Env, parallel: bool, w: Work, v: Work, m: Machine)
    requires AllTerminate(w.systems) && |w.declarations| == |w.systems| && v == w.(calls := v.calls)
    ensures Systems(store, env, parallel, w, m) == Systems(store, env, parallel, v, m)
  {
  }

  /** What the parallel mode assumes of the systems of one tick. */
  ghost predicate Disjoint(store: Store, env: Env, w: Work, m: Machine)
    requires AllTerminate(w.systems) && |w.declarations| == |w.systems|
  {
    var fs := PrintsOf(store, w.declarations);
    && (forall d :: d in w.declarations ==> Known(store, d))
    && AllHonour(store, w.systems, fs)
    && Orderly(store, env, w.systems, 0, Greedy(fs, 0), m)
  }

  lemma AlikeSame(a: Result, b: Result)
    requires Alike(a, b)
    ensures SameResult(a, b)
  {
  }

  /** A whole tick ends alike in both execution modes. */
  lemma ModesAgree(store: Store, env: Env, lib: Library, w: Work)
    requires Runnable(lib, w)
    requires var p := Prologue(store, lib, env.maxEvents, w);
      p.Success? ==>
        var c := RunCalls(store, lib, env.maxEvents, w.calls, p.m).0;
        c.Success? ==> Disjoint(store, env, w, c.m)
    ensures RunTick(store, env, lib, true, w) == RunTick(store, env, lib, false, w)
  {
    hide Prologue, RunCalls, Current, TopLevel, Validate, Fine, SameResult, Alike, Parallel, Serial, Orderly, Greedy, Known;
    BodyFine(store, env, lib, true, w);
    BodyFine(store, env, lib, false, w);
    var p := Prologue(store, lib, env.maxEvents, w);
    if p.Success? {
      CallsSteady(store, lib, env.maxEvents, w.calls, p.m);
      var (c, answers) := RunCalls(store, lib, env.maxEvents, w.calls, p.m);
      if c.Success? {
        WorkBounded(store, lib, env.maxEvents, w);
        SteadyFine(store, env, c.m);
        ParallelIsSerial(store, env, w.declarations, w.systems, c.m);
        AlikeSame(Systems(store, env, true, w, c.m), Systems(store, env, false, w, c.m));
        ConcludeSame(store, env, Systems(store, env, true, w, c.m), Systems(store, env, false, w, c.m), answers);
      }
    }
  }
}
