/** What a tick computes does not depend on what it has observed: replies,
    writes and handles follow from the pending writes and counters alone. */
module Effects {
  import opened Values
  import opened Transaction
  import opened Branching
  import opened Program
  import opened Runs
  import opened Groups
  import opened GroupEquivalence
  import opened TickPlan
  import opened SystemsPhase
  import opened Reducers

  ghost predicate SameEffects(a: Tx, b: Tx)
  {
    a.writes == b.writes && a.provisional == b.provisional
  }

  ghost predicate SameWork(m: Machine, n: Machine)
  {
    SameEffects(m.tx, n.tx) && m.events == n.events && m.outbound == n.outbound
  }

  /** Both succeed with the same work, or both fail with the same error. */
  ghost predicate SameResult(a: Result, b: Result)
  {
    match (a, b)
    case (Success(m), Success(n)) => SameWork(m, n)
    case (Failure(e, _), Failure(f, _)) => e == f
    case _ => false
  }

  lemma AccessEffects(store: Store, a: Tx, b: Tx, op: Op)
    requires SameEffects(a, b)
    ensures Access(store, a, op).0 == Access(store, b, op).0
    ensures SameEffects(Access(store, a, op).1, Access(store, b, op).1)
  {
    hide ScanRows, LookupOwners, PendingEntries;
  }

  lemma {:induction false} InvokeEffects(store: Store, r: Reducer, a: Tx, b: Tx, events: seq<Event>, h: seq<Reply>)
    requires Halts(r) && SameEffects(a, b)
    ensures var x, y := Invoke(store, r, a, events, h), Invoke(store, r, b, events, h);
      x.outcome == y.outcome && x.events == y.events && SameEffects(x.tx, y.tx)
    decreases r.bound - |h|
  {
    hide Access, SameEffects;
    match r.act(h)
    case Return(_) =>
    case Throw(_) =>
    case Use(op) =>
      AccessEffects(store, a, b, op);
      InvokeEffects(store, r, Access(store, a, op).1, Access(store, b, op).1, events, h + [Access(store, a, op).0]);
    case Raise(e) =>
      if e.name == "" {
        InvokeEffects(store, r, a, b, events, h + [Failed(InvalidArgument)]);
      } else {
        InvokeEffects(store, r, a, b, events + [e], h + [Done]);
      }
  }

  lemma {:induction false} ExecuteEffects(store: Store, env: Env, p: Program, m: Machine, n: Machine, h: seq<Reply>)
    requires Terminates(p) && SameWork(m, n)
    ensures var x, y := Execute(store, env, p, m, h), Execute(store, env, p, n, h);
      x.0 == y.0 && SameWork(x.1, y.1)
    decreases p.bound - |h|
  {
    hide Access, SameEffects;
    var a := p.act(h);
    if Continues(a) {
      if a.Run? { AccessEffects(store, m.tx, n.tx, a.op); }
      var (r, m') := Step(store, env, m, a);
      ExecuteEffects(store, env, p, m', Step(store, env, n, a).1, h + [r]);
    }
  }

  lemma {:induction false} SerialEffects(store: Store, env: Env, ps: seq<Program>, m: Machine, n: Machine)
    requires AllTerminate(ps) && SameWork(m, n)
    ensures SameResult(Serial(store, env, ps, m), Serial(store, env, ps, n))
    decreases |ps|
  {
    hide Execute, Terminates, SameWork;
    if ps != [] {
      ExecuteEffects(store, env, ps[0], m, n, []);
      if Execute(store, env, ps[0], m, []).0.Ok? {
        SerialEffects(store, env, ps[1..], Execute(store, env, ps[0], m, []).1, Execute(store, env, ps[0], n, []).1);
      }
    }
  }

  lemma MergeOneEffects(env: Env, m: Machine, n: Machine, child: Machine, snapshot: set<Key>, siblings: set<Key>)
    requires SameWork(m, n)
    ensures SameResult(MergeOne(env, m, child, snapshot, siblings), MergeOne(env, n, child, snapshot, siblings))
  {
    hide Overlaps, Folded, AbsorbCounters, Renumber;
  }

  lemma {:induction false} MergeEffects(env: Env, children: seq<Machine>, m: Machine, n: Machine,
                                        snapshot: set<Key>, siblings: set<Key>)
    requires SameWork(m, n)
    ensures SameResult(MergeAll(env, children, m, snapshot, siblings), MergeAll(env, children, n, snapshot, siblings))
    decreases |children|
  {
    hide MergeOne, FreshKeys, SameWork;
    if children != [] {
      MergeOneEffects(env, m, n, children[0], snapshot, siblings);
      var r := MergeOne(env, m, children[0], snapshot, siblings);
      if r.Success? {
        MergeEffects(env, children[1..], r.m, MergeOne(env, n, children[0], snapshot, siblings).m, snapshot,
                     siblings + FreshKeys(children[0].tx, snapshot));
      }
    }
  }

  lemma GroupEffects(store: Store, env: Env, ps: seq<Program>, m: Machine, n: Machine)
    requires AllTerminate(ps) && SameWork(m, n)
    ensures SameResult(Group(store, env, ps, m), Group(store, env, ps, n))
  {
    hide Execute, Terminates, MergeAll;
    assert FreshMachine(m.tx) == FreshMachine(n.tx);
    assert Children(store, env, ps, m.tx) == Children(store, env, ps, n.tx);
    MergeEffects(env, Machines(Children(store, env, ps, m.tx)), m, n, m.tx.writes.View().Keys, {});
  }

  lemma {:induction false} PlanEffects(store: Store, env: Env, ps: seq<Program>, from: nat, ends: seq<nat>,
                                       m: Machine, n: Machine)
    requires AllTerminate(ps) && from <= |ps| && SameWork(m, n)
    ensures SameResult(RunPlan(store, env, ps, from, ends, m), RunPlan(store, env, ps, from, ends, n))
    decreases |ends|
  {
    hide Terminates, Group, Serial, SameWork;
    if ends != [] && from < ends[0] <= |ps| {
      var group := ps[from..ends[0]];
      if |group| == 1 {
        SerialEffects(store, env, group, m, n);
      } else {
        GroupEffects(store, env, group, m, n);
      }
      var r := RunGroup(store, env, group, m);
      if r.Success? {
        PlanEffects(store, env, ps, ends[0], ends[1..], r.m, RunGroup(store, env, group, n).m);
      }
    }
  }
}
