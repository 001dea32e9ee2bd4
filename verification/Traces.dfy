/** What a tick reports (`crates/nexum-execution/src/context.rs`, `parallel.rs`,
    `world.rs`): every event and message that a program was told had been taken
    is in the tick's output, once and in order, and nothing else is. */
module Traces {
  import opened Values
  import opened Transaction
  import opened Program
  import opened Runs
  import opened Groups
  import opened TickPlan
  import opened SystemsPhase
  import opened Reducers

  /** A message without its stamps. */
  datatype Post = Post(to: PartitionId, kind: string, payload: Args)

  datatype Output = Output(events: seq<Event>, posts: seq<Post>)

  const NOTHING := Output([], [])

  function Then(a: Output, b: Output): Output { Output(a.events + b.events, a.posts + b.posts) }

  function PostOf(m: Message): Post { Post(m.to, m.kind, m.payload) }

  function Posts(ms: seq<Message>): (ps: seq<Post>)
    ensures |ps| == |ms| && forall i :: 0 <= i < |ms| ==> ps[i] == PostOf(ms[i])
  {
    seq(|ms|, i requires 0 <= i < |ms| => PostOf(ms[i]))
  }

  /** The output gathered so far. */
  function Gathered(m: Machine): Output { Output(m.events, Posts(m.outbound)) }

  lemma ThenJoins(a: Output, b: Output, c: Output)
    ensures Then(Then(a, b), c) == Then(a, Then(b, c)) && Then(a, NOTHING) == a && Then(NOTHING, a) == a
  {
    assert a.events + b.events + c.events == a.events + (b.events + c.events);
    assert a.posts + b.posts + c.posts == a.posts + (b.posts + c.posts);
  }

  // ------------------------------------------------------------- programs

  /** What an action contributes when the reply says it was taken. */
  function Contributes(a: Action, r: Reply): Output
  {
    if !r.Done? then NOTHING
    else
      match a
      case Emit(e) => Output([e], [])
      case Report(es) => Output(es, [])
      case SendTo(to, kind, payload) => Output([], [Post(to, kind, payload)])
      case _ => NOTHING
  }

  /** Emitting and sending are taken exactly when they are well formed and
      within budget, and contribute exactly what was given. */
  lemma StepGathers(store: Store, env: Env, m: Machine, a: Action)
    requires Continues(a)
    ensures var (r, m') := Step(store, env, m, a);
      && Gathered(m') == Then(Gathered(m), Contributes(a, r))
      && (a.Emit? ==> (r.Done? <==> a.event.name != "" && |m.events| < env.maxEvents))
      && (a.Report? ==> (r.Done? <==> |m.events| + |a.events| <= env.maxEvents))
      && (a.SendTo? ==>
            (r.Done? <==> SendValid(env, a.to, a.kind, a.payload) && |m.outbound| < env.maxMessages))
      && (!a.Run? && !r.Done? ==> r == Failed(InvalidArgument) || r == Failed(Capacity))
      && (!a.Run? ==> m'.tx == m.tx)
  {
    hide Access;
    var (r, m') := Step(store, env, m, a);
    assert Gathered(m).events + [] == Gathered(m).events;
    assert Gathered(m).posts + [] == Gathered(m).posts;
    if a.SendTo? && r.Done? {
      assert Posts(m'.outbound) == Posts(m.outbound) + [Post(a.to, a.kind, a.payload)];
    }
  }

  /** Everything a program was told had been taken, in order. */
  function Emitted(store: Store, env: Env, p: Program, m: Machine, h: seq<Reply>): Output
    requires Terminates(p)
    decreases p.bound - |h|
  {
    var a := p.act(h);
    if !Continues(a) then NOTHING
    else
      var (r, m') := Step(store, env, m, a);
      Then(Contributes(a, r), Emitted(store, env, p, m', h + [r]))
  }

  lemma {:induction false} ExecuteGathers(store: Store, env: Env, p: Program, m: Machine, h: seq<Reply>)
    requires Terminates(p)
    ensures Gathered(Execute(store, env, p, m, h).1) == Then(Gathered(m), Emitted(store, env, p, m, h))
    decreases p.bound - |h|
  {
    hide Step, Gathered, Then, Contributes;
    var a := p.act(h);
    if Continues(a) {
      var (r, m') := Step(store, env, m, a);
      StepGathers(store, env, m, a);
      ExecuteGathers(store, env, p, m', h + [r]);
      ThenJoins(Gathered(m), Contributes(a, r), Emitted(store, env, p, m', h + [r]));
    } else {
      ThenJoins(Gathered(m), NOTHING, NOTHING);
    }
  }

  // -------------------------------------------------------------- systems

  function SerialOutput(store: Store, env: Env, ps: seq<Program>, m: Machine): Output
    requires AllTerminate(ps)
    decreases |ps|
  {
    if ps == [] then NOTHING
    else Then(Emitted(store, env, ps[0], m, []),
              SerialOutput(store, env, ps[1..], Execute(store, env, ps[0], m, []).1))
  }

  lemma {:induction false} SerialGathers(store: Store, env: Env, ps: seq<Program>, m: Machine)
    requires AllTerminate(ps) && Serial(store, env, ps, m).Success?
    ensures Gathered(Serial(store, env, ps, m).m) == Then(Gathered(m), SerialOutput(store, env, ps, m))
    decreases |ps|
  {
    hide Execute, Terminates, Gathered, Then, Emitted;
    if ps != [] {
      var m' := Execute(store, env, ps[0], m, []).1;
      ExecuteGathers(store, env, ps[0], m, []);
      SerialGathers(store, env, ps[1..], m');
      ThenJoins(Gathered(m), Emitted(store, env, ps[0], m, []), SerialOutput(store, env, ps[1..], m'));
    } else {
      ThenJoins(Gathered(m), NOTHING, NOTHING);
    }
  }

  /** The members of a group, each on its own branch, in slot order. */
  function GroupOutput(store: Store, env: Env, ps: seq<Program>, parent: Tx): Output
    requires AllTerminate(ps)
    decreases |ps|
  {
    if ps == [] then NOTHING
    else Then(Emitted(store, env, ps[0], FreshMachine(parent), []), GroupOutput(store, env, ps[1..], parent))
  }

  lemma MergeGathers(env: Env, acc: Machine, child: Machine, snapshot: set<Key>, siblings: set<Key>)
    requires MergeOne(env, acc, child, snapshot, siblings).Success?
    ensures Gathered(MergeOne(env, acc, child, snapshot, siblings).m) == Then(Gathered(acc), Gathered(child))
  {
    hide Overlaps, Absorb;
    assert Posts(Renumber(acc.outbound + child.outbound)) == Posts(acc.outbound) + Posts(child.outbound);
  }

  lemma {:induction false} MergeAllGathers(store: Store, env: Env, ps: seq<Program>, parent: Tx, acc: Machine,
                                           snapshot: set<Key>, siblings: set<Key>)
    requires AllTerminate(ps)
    requires MergeAll(env, Machines(Children(store, env, ps, parent)), acc, snapshot, siblings).Success?
    ensures Gathered(MergeAll(env, Machines(Children(store, env, ps, parent)), acc, snapshot, siblings).m)
            == Then(Gathered(acc), GroupOutput(store, env, ps, parent))
    decreases |ps|
  {
    hide Execute, Terminates, Gathered, Then, Emitted, MergeOne, FreshKeys;
    if ps != [] {
      var cs := Children(store, env, ps, parent);
      var child := RunSlot(store, env, ps[0], parent).1;
      assert cs[1..] == Children(store, env, ps[1..], parent);
      assert Machines(cs)[1..] == Machines(Children(store, env, ps[1..], parent));
      ExecuteGathers(store, env, ps[0], FreshMachine(parent), []);
      MergeGathers(env, acc, child, snapshot, siblings);
      var m := MergeOne(env, acc, child, snapshot, siblings).m;
      MergeAllGathers(store, env, ps[1..], parent, m, snapshot, siblings + FreshKeys(child.tx, snapshot));
      FreshGathered(parent);
      ThenJoins(Emitted(store, env, ps[0], FreshMachine(parent), []), NOTHING, NOTHING);
      ThenJoins(Gathered(acc), Gathered(child), GroupOutput(store, env, ps[1..], parent));
    } else {
      ThenJoins(Gathered(acc), NOTHING, NOTHING);
    }
  }

  lemma FreshGathered(parent: Tx)
    ensures Gathered(FreshMachine(parent)) == NOTHING
  {
  }

  /** The systems of a plan: one alone on the tick machine, several on branches
      of its transaction. */
  ghost function PlanOutput(store: Store, env: Env, ps: seq<Program>, from: nat, ends: seq<nat>, m: Machine): Output
    requires AllTerminate(ps) && from <= |ps|
    decreases |ends|
  {
    if ends == [] || !(from < ends[0] <= |ps|) then NOTHING
    else
      var group := ps[from..ends[0]];
      var r := RunGroup(store, env, group, m);
      Then(if |group| == 1 then SerialOutput(store, env, group, m) else GroupOutput(store, env, group, m.tx),
           if r.Success? then PlanOutput(store, env, ps, ends[0], ends[1..], r.m) else NOTHING)
  }

  lemma {:induction false} PlanGathers(store: Store, env: Env, ps: seq<Program>, from: nat, ends: seq<nat>, m: Machine)
    requires AllTerminate(ps) && from <= |ps| && RunPlan(store, env, ps, from, ends, m).Success?
    ensures Gathered(RunPlan(store, env, ps, from, ends, m).m) == Then(Gathered(m), PlanOutput(store, env, ps, from, ends, m))
    decreases |ends|
  {
    hide Terminates, Gathered, Then, Serial, MergeAll, SerialOutput, GroupOutput;
    if ends != [] && from < ends[0] <= |ps| {
      var group := ps[from..ends[0]];
      var r := RunGroup(store, env, group, m);
      var first := if |group| == 1 then SerialOutput(store, env, group, m) else GroupOutput(store, env, group, m.tx);
      if |group| == 1 {
        SerialGathers(store, env, group, m);
      } else {
        MergeAllGathers(store, env, group, m.tx, m, m.tx.writes.View().Keys, {});
      }
      PlanGathers(store, env, ps, ends[0], ends[1..], r.m);
      ThenJoins(Gathered(m), first, PlanOutput(store, env, ps, ends[0], ends[1..], r.m));
    } else {
      ThenJoins(Gathered(m), NOTHING, NOTHING);
    }
  }

  // ------------------------------------------------------------- reducers

  /** The events a reducer raises under a name, in order. */
  function Raised(store: Store, r: Reducer, tx: Tx, h: seq<Reply>): seq<Event>
    requires Halts(r)
    decreases r.bound - |h|
  {
    match r.act(h)
    case Return(_) => []
    case Throw(_) => []
    case Use(op) => Raised(store, r, Access(store, tx, op).1, h + [Access(store, tx, op).0])
    case Raise(e) =>
      if e.name == "" then Raised(store, r, tx, h + [Failed(InvalidArgument)])
      else [e] + Raised(store, r, tx, h + [Done])
  }

  lemma {:induction false} InvokeRaises(store: Store, r: Reducer, tx: Tx, events: seq<Event>, h: seq<Reply>)
    requires Halts(r)
    ensures Invoke(store, r, tx, events, h).events == events + Raised(store, r, tx, h)
    decreases r.bound - |h|
  {
    hide Access;
    match r.act(h)
    case Return(_) => assert events + [] == events;
    case Throw(_) => assert events + [] == events;
    case Use(op) => InvokeRaises(store, r, Access(store, tx, op).1, events, h + [Access(store, tx, op).0]);
    case Raise(e) =>
      if e.name == "" {
        InvokeRaises(store, r, tx, events, h + [Failed(InvalidArgument)]);
      } else {
        InvokeRaises(store, r, tx, events + [e], h + [Done]);
        assert events + [e] + Raised(store, r, tx, h + [Done]) == events + ([e] + Raised(store, r, tx, h + [Done]));
      }
  }

  /** A native reducer hides a WASM one of the same name; a name in neither
      registry is not found and changes nothing. */
  lemma NativeFirst(store: Store, lib: Library, wasm: Shelf, name: string, args: Args, tx: Tx)
    requires AllHalt(lib) && ShelfHalts(wasm)
    ensures name in lib.native ==> InvokeReducer(store, lib, name, args, tx) == InvokeReducer(store, lib.(wasm := wasm), name, args, tx)
    ensures name in lib.native ==> InvokeReducer(store, lib, name, args, tx) == Invoke(store, lib.native[name](args), tx, [], [])
    ensures name !in lib.native && name in lib.wasm ==>
      InvokeReducer(store, lib, name, args, tx) == Invoke(store, lib.wasm[name](args), tx, [], [])
    ensures name !in lib.native && name !in lib.wasm ==>
      InvokeReducer(store, lib, name, args, tx) == Invoked(Err(NotFound), tx, [])
  {
  }
}
