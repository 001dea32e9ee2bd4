/** The partition (`crates/nexum-execution/src/world.rs`): gates, the tick
    counter, the schedule, and the tick itself. */
module Partition {
  import opened Values
  import opened Transaction
  import opened Program
  import opened Groups
  import opened TickPlan
  import opened SystemsPhase
  import opened Reducers
  import opened Effects
  import opened Soundness
  import opened Storage
  import opened Commit
  import opened Sorting
  import opened Tick
  import Schedule
  import Systems

  datatype Limits = Limits(
    maxCommands: nat, maxMessages: nat, maxCalls: nat, maxNameLen: nat, maxCallArgs: nat,
    maxEvents: nat, maxKindLen: nat, maxMessageArgs: nat)

  // ------------------------------------------------------- delivery order

  /** `(sent_tick, from, seq)`. */
  function Arrival(m: Message): Rank { Rank(m.sentTick, m.from, m.seqNo) }

  /** The messages one committed tick sent. */
  datatype Outbox = Outbox(env: Env, messages: seq<Message>)

  /** Where a delivered message comes from. */
  datatype Origin = Origin(box: nat, position: nat)

  /** A batch drawn from the outboxes of different committed ticks, no message
      twice. */
  ghost predicate Drawn(boxes: seq<Outbox>, batch: seq<Message>, origins: seq<Origin>)
  {
    && |origins| == |batch|
    && (forall b :: 0 <= b < |boxes| ==> Stamped(boxes[b].env, boxes[b].messages))
    && (forall b, c :: 0 <= b < c < |boxes| ==>
          boxes[b].env.partition != boxes[c].env.partition || boxes[b].env.tick != boxes[c].env.tick)
    && (forall i :: 0 <= i < |batch| ==>
          var o := origins[i];
          o.box < |boxes| && o.position < |boxes[o.box].messages| && batch[i] == boxes[o.box].messages[o.position])
    && (forall i, j :: 0 <= i < j < |origins| ==> origins[i] != origins[j])
  }

  lemma DrawnDistinct(boxes: seq<Outbox>, batch: seq<Message>, origins: seq<Origin>)
    requires Drawn(boxes, batch, origins)
    ensures Distinct(batch, Arrival)
  {
    forall i, j | 0 <= i < j < |batch|
      ensures Arrival(batch[i]) != Arrival(batch[j])
    {
      var o, q := origins[i], origins[j];
      assert Stamped(boxes[o.box].env, boxes[o.box].messages) && Stamped(boxes[q.box].env, boxes[q.box].messages);
    }
  }

  /** The delivery order does not depend on the order of arrival. */
  lemma ArrivalOrder(a: seq<Message>, b: seq<Message>)
    requires Distinct(a, Arrival) && Distinct(b, Arrival) && forall m :: m in a <==> m in b
    ensures StableSort(a, Arrival) == StableSort(b, Arrival)
  {
    hide StableSort, Below, Of;
    SameEntries(a, b, Arrival);
    forall r
      ensures Of(StableSort(a, Arrival), Arrival, r) == Of(StableSort(b, Arrival), Arrival, r)
    {
      assert Of(a, Arrival, r) == Of(StableSort(a, Arrival), Arrival, r);
      assert Of(b, Arrival, r) == Of(StableSort(b, Arrival), Arrival, r);
      assert Of(a, Arrival, r) == Of(b, Arrival, r);
    }
    OrderedUnique(StableSort(a, Arrival), StableSort(b, Arrival), Arrival);
  }

  /** Messages are handled by the tick they were sent in, then by sender, then
      by position. */
  lemma DeliveryOrder(delivered: seq<Message>, i: nat, j: nat)
    requires i < j < |delivered|
    ensures var batch := StableSort(delivered, Arrival);
      var a, b := batch[i], batch[j];
      && a in delivered && b in delivered
      && a.sentTick <= b.sentTick
      && (a.sentTick == b.sentTick ==> a.from <= b.from && (a.from == b.from ==> a.seqNo <= b.seqNo))
  {
    hide StableSort;
    var batch := StableSort(delivered, Arrival);
    assert !Below(Arrival(batch[j]), Arrival(batch[i]));
    assert batch[i] in batch && batch[j] in batch;
  }

  // ----------------------------------------------------------------- gates

  function DeliveryGate(partition: PartitionId, delivered: seq<Message>): Option<Error>
  {
    if exists i :: 0 <= i < |delivered| && delivered[i].to != partition then Some(InvalidArgument) else None
  }

  function CallGate(limits: Limits, calls: seq<Call>): Option<Error>
  {
    if exists i :: 0 <= i < |calls| && (|calls[i].reducer| > limits.maxNameLen || |calls[i].args| > limits.maxCallArgs)
    then Some(InvalidArgument) else None
  }

  /** The first gate that refuses a tick. */
  function Gate(limits: Limits, partition: PartitionId, tick: nat, frame: Systems.Frame,
                delivered: seq<Message>, calls: seq<Call>): Option<Error>
  {
    if frame.tick != tick then Some(InvalidArgument)
    else if |frame.commands| > limits.maxCommands then Some(InvalidArgument)
    else if |delivered| > limits.maxMessages then Some(Capacity)
    else if DeliveryGate(partition, delivered).Some? then DeliveryGate(partition, delivered)
    else if |calls| > limits.maxCalls then Some(Capacity)
    else CallGate(limits, calls)
  }

  /** Which ticks pass, and what each refusal means. */
  lemma GateExact(limits: Limits, partition: PartitionId, tick: nat, frame: Systems.Frame,
                  delivered: seq<Message>, calls: seq<Call>)
    ensures var gate := Gate(limits, partition, tick, frame, delivered, calls);
      var due := frame.tick == tick && |frame.commands| <= limits.maxCommands;
      var addressed := forall i :: 0 <= i < |delivered| ==> delivered[i].to == partition;
      var small := forall i :: 0 <= i < |calls| ==>
        |calls[i].reducer| <= limits.maxNameLen && |calls[i].args| <= limits.maxCallArgs;
      && (gate == None <==>
            due && |delivered| <= limits.maxMessages && addressed && |calls| <= limits.maxCalls && small)
      && (gate == Some(Capacity) <==>
            due && (|delivered| > limits.maxMessages || (addressed && |calls| > limits.maxCalls)))
      && (gate.Some? && gate != Some(Capacity) ==> gate == Some(InvalidArgument))
  {
  }

  /** The gates in order, each refusing at its first offence. */
  method CheckGates(limits: Limits, partition: PartitionId, tick: nat, frame: Systems.Frame,
                    delivered: seq<Message>, calls: seq<Call>) returns (error: Option<Error>)
    ensures error == Gate(limits, partition, tick, frame, delivered, calls)
  {
    if frame.tick != tick || |frame.commands| > limits.maxCommands {
      return Some(InvalidArgument);
    }
    if |delivered| > limits.maxMessages {
      return Some(Capacity);
    }
    for i := 0 to |delivered|
      invariant forall j :: 0 <= j < i ==> delivered[j].to == partition
    {
      if delivered[i].to != partition {
        return Some(InvalidArgument);
      }
    }
    if |calls| > limits.maxCalls {
      return Some(Capacity);
    }
    for i := 0 to |calls|
      invariant forall j :: 0 <= j < i ==> |calls[j].reducer| <= limits.maxNameLen
      invariant forall j :: 0 <= j < i ==> |calls[j].args| <= limits.maxCallArgs
    {
      if |calls[i].reducer| > limits.maxNameLen || |calls[i].args| > limits.maxCallArgs {
        return Some(InvalidArgument);
      }
    }
    error := None;
  }

  // ---------------------------------------------------------- phase loops

  method DeliverAll(store: Store, lib: Library, maxEvents: nat, batch: seq<Message>, m: Machine) returns (r: Result)
    requires AllHalt(lib)
    ensures r == Deliver(store, lib, maxEvents, batch, m)
  {
    hide Counted, InvokeReducer;
    var acc, i := m, 0;
    while i < |batch|
      invariant 0 <= i <= |batch|
      invariant Deliver(store, lib, maxEvents, batch, m) == Deliver(store, lib, maxEvents, batch[i..], acc)
    {
      var one := Counted(acc, InvokeReducer(store, lib, batch[i].kind, batch[i].payload, acc.tx), maxEvents);
      if one.Failure? {
        return one;
      }
      acc, i := one.m, i + 1;
    }
    r := Success(acc);
  }

  method RunAllDue(store: Store, lib: Library, maxEvents: nat, due: seq<Schedule.Scheduled>, m: Machine)
    returns (r: Result)
    requires AllHalt(lib)
    ensures r == RunDue(store, lib, maxEvents, due, m)
  {
    hide Counted, FromShelf;
    var acc, i := m, 0;
    while i < |due|
      invariant 0 <= i <= |due|
      invariant RunDue(store, lib, maxEvents, due, m) == RunDue(store, lib, maxEvents, due[i..], acc)
    {
      var one := Counted(acc, FromShelf(store, lib.native, due[i].reducer, due[i].args, acc.tx), maxEvents);
      if one.Failure? {
        return one;
      }
      acc, i := one.m, i + 1;
    }
    r := Success(acc);
  }

  /** One client call: snapshot, invoke, and roll back on failure. */
  method RunOneCall(store: Store, lib: Library, maxEvents: nat, call: Call, m: Machine)
    returns (r: Result, answer: CallResult)
    requires AllHalt(lib) && Current(store, m.tx.seen)
    ensures (r, answer) == RunCall(store, lib, maxEvents, call, m) && answer.requestId == call.requestId
    ensures answer.outcome.Err? ==> r.Success? && SameWork(r.m, m) && r.m.tx.seen.rows == m.tx.seen.rows
    ensures r.Failure? ==> answer.outcome.Ok? && r.error == Capacity
  {
    hide InvokeReducer, Rollback, Current, SameWork;
    var snapshot := TakeSnapshot(m.tx);
    var invoked := InvokeReducer(store, lib, call.reducer, call.args, m.tx);
    answer := CallResult(call.requestId, invoked.outcome);
    if invoked.outcome.Ok? {
      r := Counted(m, invoked, maxEvents);
    } else {
      NamedAccrues(store, lib, call.reducer, call.args, m.tx);
      RollbackExact(store, m.tx, invoked.tx);
      r := Success(m.(tx := Rollback(invoked.tx, snapshot)));
      FailedCallUndone(store, lib, maxEvents, call, m);
    }
  }

  method RunAllCalls(store: Store, lib: Library, maxEvents: nat, calls: seq<Call>, m: Machine)
    returns (r: Result, answers: seq<CallResult>)
    requires AllHalt(lib) && Current(store, m.tx.seen)
    ensures (r, answers) == RunCalls(store, lib, maxEvents, calls, m)
  {
    hide RunCall, Current;
    var acc, i := m, 0;
    answers := [];
    assert calls[0..] == calls;
    ghost var all := RunCalls(store, lib, maxEvents, calls, m);
    assert [] + all.1 == all.1;
    while i < |calls|
      invariant 0 <= i <= |calls| && Current(store, acc.tx.seen)
      invariant var (rest, more) := RunCalls(store, lib, maxEvents, calls[i..], acc);
        all.0 == rest && all.1 == answers + more
    {
      RunCallCurrent(store, lib, maxEvents, calls[i], acc);
      assert calls[i..][1..] == calls[i + 1..];
      var one, answer := RunOneCall(store, lib, maxEvents, calls[i], acc);
      answers := answers + [answer];
      if one.Failure? {
        return one, answers;
      }
      acc, i := one.m, i + 1;
    }
    assert calls[i..] == [] && answers + [] == answers;
    r := Success(acc);
  }

  // -------------------------------------------------------- the partition

  function Accesses(systems: seq<Systems.System>): seq<Declaration>
  {
    seq(|systems|, i requires 0 <= i < |systems| => systems[i].access)
  }

  function Bodies(systems: seq<Systems.System>, tick: nat, frame: Systems.Frame): seq<Program>
  {
    seq(|systems|, i requires 0 <= i < |systems| => systems[i].body(tick, frame))
  }

  ghost predicate AllEnd(systems: seq<Systems.System>)
  {
    forall s, t, f :: s in systems ==> Terminates(s.body(t, f))
  }

  /** What a tick runs, from the partition's parts and its arguments. */
  ghost function Planned(lib: Library, tick: nat, events: seq<Schedule.Scheduled>, systems: seq<Systems.System>,
                         frame: Systems.Frame, delivered: seq<Message>, calls: seq<Call>): (w: Work)
    requires AllHalt(lib) && AllEnd(systems)
    ensures Runnable(lib, w)
  {
    Work(StableSort(delivered, Arrival), Schedule.Taken(events, tick), calls,
         Accesses(systems), Bodies(systems, tick, frame))
  }

  /** A tick works on all messages delivered, in delivery order, on exactly the
      events due by then, in the order they fall due, on all calls, and on every
      system as it is for this tick and frame. */
  lemma PlannedExactly(lib: Library, tick: nat, events: seq<Schedule.Scheduled>, systems: seq<Systems.System>,
                       frame: Systems.Frame, delivered: seq<Message>, calls: seq<Call>)
    requires AllHalt(lib) && AllEnd(systems)
    ensures var w := Planned(lib, tick, events, systems, frame, delivered, calls);
      && |w.batch| == |delivered| && (forall m :: m in w.batch <==> m in delivered)
      && (forall i, j :: 0 <= i < j < |w.batch| ==> !Below(Arrival(w.batch[j]), Arrival(w.batch[i])))
      && (forall e :: e in w.due <==> e in events && e.atTick <= tick)
      && w.calls == calls && |w.systems| == |w.declarations| == |systems|
      && forall i :: 0 <= i < |systems| ==> w.systems[i] == systems[i].body(tick, frame) && w.declarations[i] == systems[i].access
  {
    hide StableSort, Below, Arrival, Schedule.Taken, AllHalt, AllEnd;
    Schedule.DueExactly(events, tick);
  }

  /** How a tick ends, gates included. */
  ghost function TickEnding(limits: Limits, store: Store, env: Env, lib: Library, parallel: bool,
                            events: seq<Schedule.Scheduled>, systems: seq<Systems.System>, frame: Systems.Frame,
                            delivered: seq<Message>, calls: seq<Call>): Ending
    requires AllHalt(lib) && AllEnd(systems)
  {
    match Gate(limits, env.partition, env.tick, frame, delivered, calls)
    case Some(e) => Aborted(e)
    case None => RunTick(store, env, lib, parallel, Planned(lib, env.tick, events, systems, frame, delivered, calls))
  }

  /** What a committed tick may say: one answer per call, events and messages
      within the limits, and every message stamped and addressed. */
  ghost predicate InBounds(limits: Limits, id: PartitionId, tick: nat, known: seq<PartitionId>, calls: seq<Call>, e: Ending)
    requires e.Committed?
  {
    && |e.answers| == |calls| && (forall i :: 0 <= i < |calls| ==> e.answers[i].requestId == calls[i].requestId)
    && |e.events| <= limits.maxEvents && |e.outbound| <= limits.maxMessages
    && forall i :: 0 <= i < |e.outbound| ==>
         var m := e.outbound[i];
         && m.from == id && m.sentTick == tick && m.seqNo == i && m.to in known && m.to != id
         && 0 < |m.kind| <= limits.maxKindLen && |m.payload| <= limits.maxMessageArgs
  }

  lemma EndsInBounds(limits: Limits, id: PartitionId, tick: nat, known: seq<PartitionId>, store: Store, env: Env,
                     lib: Library, parallel: bool, w: Work)
    requires Runnable(lib, w) && RunTick(store, env, lib, parallel, w).Committed?
    requires env == Env(id, known, tick, limits.maxEvents, limits.maxMessages, limits.maxKindLen, limits.maxMessageArgs)
    ensures InBounds(limits, id, tick, known, w.calls, RunTick(store, env, lib, parallel, w))
  {
    hide RunTick, Runnable;
    CommittedAnswers(store, env, lib, parallel, w);
  }

  /** A tick ends the same in whatever order the messages arrived and the
      systems were registered. */
  lemma OrdersDoNotMatter(limits: Limits, store: Store, env: Env, lib: Library, parallel: bool,
                          events: seq<Schedule.Scheduled>, ds: seq<Systems.System>, es: seq<Systems.System>,
                          frame: Systems.Frame, a: seq<Message>, b: seq<Message>, calls: seq<Call>)
    requires AllHalt(lib) && AllEnd(ds)
    requires Systems.Unique(ds) && Systems.Unique(es) && forall x :: x in ds <==> x in es
    requires Distinct(a, Arrival) && Distinct(b, Arrival) && forall m :: m in a <==> m in b
    ensures AllEnd(Systems.AllRegistered(ds)) && AllEnd(Systems.AllRegistered(es))
    ensures TickEnding(limits, store, env, lib, parallel, events, Systems.AllRegistered(ds), frame, a, calls)
            == TickEnding(limits, store, env, lib, parallel, events, Systems.AllRegistered(es), frame, b, calls)
  {
    hide StableSort, RunTick, AllHalt, Terminates, Systems.AllRegistered, Systems.Unique, CallGate, Distinct, Schedule.Taken;
    Systems.AllInOrder(ds);
    Systems.RegistrationOrder(ds, es);
    ArrivalOrder(a, b);
    assert |a| == |StableSort(a, Arrival)| == |StableSort(b, Arrival)| == |b|;
    SameGate(env.partition, a, b);
  }

  lemma SameGate(partition: PartitionId, a: seq<Message>, b: seq<Message>)
    requires forall m :: m in a <==> m in b
    ensures DeliveryGate(partition, a) == DeliveryGate(partition, b)
  {
    forall i | 0 <= i < |a|
      ensures exists j :: 0 <= j < |b| && b[j].to == a[i].to
    {
      assert a[i] in b;
    }
    forall i | 0 <= i < |b|
      ensures exists j :: 0 <= j < |a| && a[j].to == b[i].to
    {
      assert b[i] in a;
    }
  }

  class Partition {
    const id: PartitionId
    const limits: Limits
    const parallel: bool
    const lib: Library
    const schedule: Schedule.Schedule
    const registry: Systems.SystemRegistry
    const tables: TableStore
    var known: seq<PartitionId>
    var tick: nat

    constructor (id: PartitionId, limits: Limits, parallel: bool, lib: Library, store: Store,
                 maxScheduled: nat)
      requires AllHalt(lib) && SoundStore(store)
      ensures Valid() && fresh(schedule) && fresh(registry) && fresh(tables)
      ensures tick == 0 && tables.store == store && known == [] && schedule.events == [] && registry.systems == []
    {
      this.id, this.limits, this.parallel, this.lib := id, limits, parallel, lib;
      tick, known := 0, [];
      tables := new TableStore(store);
      schedule := new Schedule.Schedule(maxScheduled);
      registry := new Systems.SystemRegistry();
    }

    /** Sorted, without duplicates, and without the partition itself. */
    method SetKnown(ids: seq<PartitionId>)
      modifies this`known
      ensures forall i, j :: 0 <= i < j < |known| ==> known[i] < known[j]
      ensures forall p :: p in known <==> p in ids && p != id
    {
      hide StableSort;
      var rank := (p: PartitionId) => Rank(p, 0, 0);
      var sorted := StableSort(ids, rank);
      assert forall i, j :: 0 <= i < j < |sorted| ==> !Below(rank(sorted[j]), rank(sorted[i]));
      var distinct: seq<PartitionId> := [];
      for i := 0 to |sorted|
        invariant forall p :: p in distinct <==> p in sorted[..i]
        invariant forall a, b :: 0 <= a < b < |distinct| ==> distinct[a] < distinct[b]
        invariant distinct != [] ==> i > 0 && distinct[|distinct| - 1] == sorted[i - 1]
        invariant i > 0 ==> distinct != []
      {
        assert sorted[..i + 1] == sorted[..i] + [sorted[i]];
        if distinct == [] || distinct[|distinct| - 1] != sorted[i] {
          distinct := distinct + [sorted[i]];
        }
      }
      assert sorted[..|sorted|] == sorted;
      var others: seq<PartitionId> := [];
      for i := 0 to |distinct|
        invariant forall p :: p in others <==> p in distinct[..i] && p != id
        invariant forall a, b :: 0 <= a < b < |others| ==> others[a] < others[b]
      {
        assert distinct[..i + 1] == distinct[..i] + [distinct[i]];
        if distinct[i] != id {
          forall a | 0 <= a < |others|
            ensures others[a] < distinct[i]
          {
            assert others[a] in distinct[..i];
          }
          others := others + [distinct[i]];
        }
      }
      assert distinct[..|distinct|] == distinct;
      known := others;
    }

    ghost predicate Valid()
      reads this, schedule, registry, tables
    {
      schedule.Valid() && registry.Valid() && tables.Valid() && AllHalt(lib) && AllEnd(registry.systems)
    }

    /** The constants of the tick that comes next. */
    ghost function NextEnv(): Env
      reads this
    {
      Env(id, known, tick, limits.maxEvents, limits.maxMessages, limits.maxKindLen, limits.maxMessageArgs)
    }

    /** A refused tick changes nothing at all. Any other advances the counter
        and consumes the due events; only a committed one changes the store. */
    method TickWithCalls(frame: Systems.Frame, delivered: seq<Message>, calls: seq<Call>,
                         orders: (nat, nat) -> seq<nat>)
      returns (e: Ending)
      requires Valid() && forall g, n :: Fills(orders(g, n), n)
      modifies this, schedule, tables
      ensures Valid()
      ensures e == TickEnding(limits, old(tables.store), old(NextEnv()), lib, parallel, old(schedule.events),
                              old(registry.systems), frame, delivered, calls)
      ensures if Gate(limits, id, old(tick), frame, delivered, calls).Some? then
          tick == old(tick) && tables.store == old(tables.store) && unchanged(schedule)
        else
          && tick == old(tick) + 1
          && schedule.events == Schedule.Later(old(schedule.events), old(tick))
          && schedule.ran == old(schedule.ran) + [old(tick)]
          && tables.store == if e.Committed? then e.store else old(tables.store)
      ensures Later(old(tables.store), tables.store)
      ensures e.Committed? ==> InBounds(limits, id, old(tick), old(known), calls, e)
    {
      hide Gate, Known, RunPlan, Greedy, Deliver, RunDue, RunCalls, Serial, CommitTo, Current, TopLevel, StableSort,
           Schedule.Taken, Schedule.Later, Fills, Terminates, AllHalt, AllEnd, SoundStore, Later, InBounds;
      LaterSelf(tables.store);
      var gate := CheckGates(limits, id, tick, frame, delivered, calls);
      if gate.Some? {
        return Aborted(gate.value);
      }
      var now := tick;
      tick := tick + 1;
      var batch := StableSort(delivered, Arrival);
      var due := schedule.TakeDue(now);
      var env := Env(id, known, now, limits.maxEvents, limits.maxMessages, limits.maxKindLen, limits.maxMessageArgs);
      var w := Work(batch, due, calls, Accesses(registry.systems), Bodies(registry.systems, now, frame));
      assert w == Planned(lib, now, old(schedule.events), registry.systems, frame, delivered, calls);
      var r, answers := RunBody(tables.store, env, lib, parallel, w, orders);
      if r.Failure? {
        return Aborted(r.error);
      }
      var verdict := tables.Commit(r.m.tx);
      match verdict {
        case Refused(error) => e := Aborted(error);
        case Accepted(after, changes) =>
          e := Committed(after, changes, r.m.events, r.m.outbound, answers);
          EndsInBounds(limits, id, now, known, old(tables.store), env, lib, parallel, w);
      }
    }
  }

  /** All phases of a tick on one transaction. */
  method RunBody(store: Store, env: Env, lib: Library, parallel: bool, w: Work, orders: (nat, nat) -> seq<nat>)
    returns (r: Result, answers: seq<CallResult>)
    requires Runnable(lib, w) && forall g, n :: Fills(orders(g, n), n)
    ensures (r, answers) == Body(store, env, lib, parallel, w)
  {
    hide Known, RunPlan, Greedy, Deliver, RunDue, RunCalls, Serial, Current, TopLevel, Fills, Parallel, AllHalt, AllTerminate;
    answers := [];
    BeginSteady(store);
    DeliverSteady(store, lib, env.maxEvents, w.batch, Begin());
    r := DeliverAll(store, lib, env.maxEvents, w.batch, Begin());
    if r.Failure? {
      return;
    }
    DueSteady(store, lib, env.maxEvents, w.due, r.m);
    r := RunAllDue(store, lib, env.maxEvents, w.due, r.m);
    if r.Failure? {
      return;
    }
    r, answers := RunAllCalls(store, lib, env.maxEvents, w.calls, r.m);
    if r.Failure? {
      return;
    }
    r := RunSystems(store, env, parallel, w.declarations, w.systems, r.m, orders);
  }
}
