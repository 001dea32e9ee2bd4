/** Systems and reducers as deterministic programs over a tick's machine
    (`crates/nexum-execution/src/context.rs`, `parallel.rs`). A program is a
    strategy: it picks its next action from the replies it has received, so it
    can observe everything an execution context returns and nothing else. */
module Program {
  import opened Values
  import opened Transaction

  type PartitionId = nat

  datatype Event = Event(name: string, payload: Value)

  type Args = map<string, Value>

  datatype Message = Message(
    from: PartitionId, to: PartitionId, sentTick: nat, seqNo: nat, kind: string, payload: Args)

  /** The tick constants an execution context carries. */
  datatype Env = Env(
    partition: PartitionId, known: seq<PartitionId>, tick: nat,
    maxEvents: nat, maxMessages: nat, maxKindLen: nat, maxArgs: nat)

  /** What a running program changes. */
  datatype Machine = Machine(tx: Tx, events: seq<Event>, outbound: seq<Message>)

  datatype Action =
    | Run(op: Op)
    | Emit(event: Event)
    | Report(events: seq<Event>)
    | SendTo(to: PartitionId, kind: string, payload: Args)
    | Finish(value: Value)
    | Fail(error: Error)

  predicate Continues(a: Action) { !a.Finish? && !a.Fail? }

  /** A strategy that takes at most `bound` actions. */
  datatype Program = Program(act: seq<Reply> -> Action, bound: nat)

  ghost predicate Terminates(p: Program)
  {
    forall h: seq<Reply> :: |h| >= p.bound ==> !Continues(p.act(h))
  }

  /** `append_events`: all of them within the budget, or none. */
  function AppendEvents(events: seq<Event>, more: seq<Event>, max: nat): Option<seq<Event>>
  {
    if |events| + |more| > max then None else Some(events + more)
  }

  /** The argument checks of `send_to`. */
  predicate SendValid(env: Env, to: PartitionId, kind: string, payload: Args)
  {
    && to != env.partition && to in env.known
    && kind != "" && |kind| <= env.maxKindLen && |payload| <= env.maxArgs
  }

  /** One action of a running program. */
  function Step(store: Store, env: Env, m: Machine, a: Action): (Reply, Machine)
    requires Continues(a)
  {
    match a
    case Run(op) =>
      var (reply, tx) := Access(store, m.tx, op);
      (reply, m.(tx := tx))
    case Emit(e) =>
      if e.name == "" then (Failed(InvalidArgument), m) else Appended(m, [e], env.maxEvents)
    case Report(es) => Appended(m, es, env.maxEvents)
    case SendTo(to, kind, payload) =>
      if !SendValid(env, to, kind, payload) then (Failed(InvalidArgument), m)
      else if |m.outbound| >= env.maxMessages then (Failed(Capacity), m)
      else
        var msg := Message(env.partition, to, env.tick, |m.outbound|, kind, payload);
        (Done, m.(outbound := m.outbound + [msg]))
  }

  function Appended(m: Machine, es: seq<Event>, max: nat): (Reply, Machine)
  {
    match AppendEvents(m.events, es, max)
    case None => (Failed(Capacity), m)
    case Some(events) => (Done, m.(events := events))
  }

  datatype Outcome = Ok(value: Value) | Err(error: Error)

  /** Runs a program from the replies `h` on. */
  function Execute(store: Store, env: Env, p: Program, m: Machine, h: seq<Reply>): (Outcome, Machine)
    requires Terminates(p)
    decreases p.bound - |h|
  {
    var a := p.act(h);
    match a
    case Finish(v) => (Ok(v), m)
    case Fail(e) => (Err(e), m)
    case _ =>
      var (reply, m') := Step(store, env, m, a);
      Execute(store, env, p, m', h + [reply])
  }
}
