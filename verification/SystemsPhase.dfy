/** The systems phase of a tick (`crates/nexum-execution/src/world.rs`): the
    serial reference loop, and the parallel walk over the tick plan. */
module SystemsPhase {
  import opened Values
  import opened Transaction
  import opened Branching
  import opened Program
  import opened Runs
  import opened Groups
  import opened GroupEquivalence
  import opened TickPlan

  // ------------------------------------------------------------- the walk

  /** One group of the plan: a singleton runs on the tick transaction itself. */
  ghost function RunGroup(store: Store, env: Env, ps: seq<Program>, m: Machine): Result
    requires AllTerminate(ps)
  {
    if |ps| == 1 then Serial(store, env, ps, m) else Group(store, env, ps, m)
  }

  /** The groups from system `from` on, given by their ends. */
  ghost function RunPlan(store: Store, env: Env, ps: seq<Program>, from: nat, ends: seq<nat>, m: Machine): Result
    requires AllTerminate(ps) && from <= |ps|
    decreases |ends|
  {
    if ends == [] || !(from < ends[0] <= |ps|) then Success(m)
    else
      match RunGroup(store, env, ps[from..ends[0]], m)
      case Failure(e, left) => Failure(e, left)
      case Success(m') => RunPlan(store, env, ps, ends[0], ends[1..], m')
  }

  // ------------------------------------------------------------- pieces

  lemma {:induction false} SerialSplits(store: Store, env: Env, a: seq<Program>, b: seq<Program>, m: Machine)
    requires AllTerminate(a) && AllTerminate(b) && AllTerminate(a + b)
    ensures var first := Serial(store, env, a, m);
      Serial(store, env, a + b, m) == if first.Success? then Serial(store, env, b, first.m) else first
    decreases |a|
  {
    hide Execute, Terminates;
    if a == [] {
      assert a + b == b;
    } else {
      assert (a + b)[1..] == a[1..] + b;
      var (o, m') := Execute(store, env, a[0], m, []);
      if o.Ok? { SerialSplits(store, env, a[1..], b, m'); }
    }
  }

  lemma {:induction false} SerialSame(store: Store, env: Env, ps: seq<Program>, a: Machine, b: Machine)
    requires AllTerminate(ps) && SameMachine(a, b)
    ensures Alike(Serial(store, env, ps, a), Serial(store, env, ps, b))
    decreases |ps|
  {
    hide Execute, Terminates, SameMachine;
    if ps != [] {
      RunSame(store, env, ps[0], a, b, []);
      if Execute(store, env, ps[0], a, []).0.Ok? {
        SerialSame(store, env, ps[1..], Execute(store, env, ps[0], a, []).1, Execute(store, env, ps[0], b, []).1);
      }
    }
  }

  lemma {:induction false} SerialSound(store: Store, env: Env, ps: seq<Program>, m: Machine)
    requires AllTerminate(ps) && Sound(m)
    ensures var r := Serial(store, env, ps, m); r.Success? ==> Sound(r.m)
    decreases |ps|
  {
    hide Execute, Terminates, Sound;
    if ps != [] {
      RunSound(store, env, ps[0], m, []);
      if Execute(store, env, ps[0], m, []).0.Ok? {
        SerialSound(store, env, ps[1..], Execute(store, env, ps[0], m, []).1);
      }
    }
  }

  lemma MachineSame(m: Machine)
    ensures SameMachine(m, m)
  {
  }

  lemma SameSound(a: Machine, b: Machine)
    requires SameMachine(a, b) && Sound(b)
    ensures Sound(a)
  {
  }

  lemma AlikeChains(a: Result, b: Result, c: Result)
    requires Alike(a, b) && Alike(b, c)
    ensures Alike(a, c)
  {
  }

  // --------------------------------------------------------- equivalence

  /** Every declared system honours its footprint. */
  ghost predicate AllHonour(store: Store, ps: seq<Program>, fs: Prints)
  {
    |ps| == |fs| && forall i :: 0 <= i < |ps| && fs[i].Some? ==> Honours(store, fs[i].value, ps[i])
  }

  /** The members of a concurrent group are tidy and fit the budgets in turn. */
  ghost predicate GroupOrderly(store: Store, env: Env, ps: seq<Program>, m: Machine)
    requires AllTerminate(ps)
  {
    |ps| > 1 ==>
      && TidyMembers(store, env, ps, m.tx, m.tx.writes.own)
      && FitInTurn(env, m, Children(store, env, ps, m.tx))
  }

  /** So are all groups the walk reaches. */
  ghost predicate Orderly(store: Store, env: Env, ps: seq<Program>, from: nat, ends: seq<nat>, m: Machine)
    requires AllTerminate(ps) && from <= |ps|
    decreases |ends|
  {
    ends != [] && from < ends[0] <= |ps| ==>
      var group := ps[from..ends[0]];
      && GroupOrderly(store, env, group, m)
      && var r := RunGroup(store, env, group, m);
      r.Success? ==> Orderly(store, env, ps, ends[0], ends[1..], r.m)
  }

  /** One group of the plan ends like the serial loop over its members. */
  lemma GroupAgrees(store: Store, env: Env, ps: seq<Program>, fs: Prints, a: nat, b: nat, m: Machine)
    requires AllTerminate(ps) && AllHonour(store, ps, fs) && a < b <= |ps| && GroupOk(fs, a, b)
    requires Sound(m) && GroupOrderly(store, env, ps[a..b], m)
    ensures Alike(RunGroup(store, env, ps[a..b], m), Serial(store, env, ps[a..b], m))
  {
    hide Execute, Terminates, Honours, TidyMembers, FitInTurn, Sound, Serial, Group, Interferes;
    var group := ps[a..b];
    if |group| > 1 {
      var prints := seq(b - a, i requires 0 <= i < b - a => fs[a + i].value);
      assert forall i :: 0 <= i < |group| ==> Honours(store, prints[i], group[i]);
      assert PairwiseFree(prints);
      DeclaredGroup(store, env, group, prints, m);
    }
  }

  /** The parallel systems phase over any plan whose groups may run together
      ends like the serial one: the same transaction, events and messages, or
      the same first error. */
  lemma {:induction false} PhaseAgrees(store: Store, env: Env, ps: seq<Program>, fs: Prints, from: nat,
                                       ends: seq<nat>, m: Machine)
    requires AllTerminate(ps) && AllHonour(store, ps, fs)
    requires |ps| == |fs| && from <= |ps| && Partition(fs, from, ends)
    requires Sound(m) && Orderly(store, env, ps, from, ends, m)
    ensures Alike(RunPlan(store, env, ps, from, ends, m), Serial(store, env, ps[from..], m))
    decreases |ends|
  {
    hide Execute, Terminates, AllHonour, GroupOk, GroupOrderly, Sound, RunGroup, SameMachine;
    if ends != [] {
      var e := ends[0];
      var group, rest := ps[from..e], ps[e..];
      assert ps[from..] == group + rest;
      GroupAgrees(store, env, ps, fs, from, e, m);
      SerialSplits(store, env, group, rest, m);
      var r, s := RunGroup(store, env, group, m), Serial(store, env, group, m);
      if r.Success? {
        SerialSound(store, env, group, m);
        SameSound(r.m, s.m);
        PhaseAgrees(store, env, ps, fs, e, ends[1..], r.m);
        SerialSame(store, env, rest, r.m, s.m);
        AlikeChains(RunPlan(store, env, ps, e, ends[1..], r.m), Serial(store, env, rest, r.m),
                    Serial(store, env, rest, s.m));
      }
    } else {
      SerialSame(store, env, [], m, m) by { MachineSame(m); }
    }
  }

  // ----------------------------------------------------------- execution

  /** Every slot of a group of `n` completes. */
  ghost predicate Fills(order: seq<nat>, n: nat)
  {
    (forall i :: 0 <= i < n ==> i in order) && (forall s :: s in order ==> s < n)
  }

  lemma ListsCut(from: nat, ends: seq<nat>, fs: Prints)
    requires ends != [] && from <= |fs| && Partition(fs, from, ends)
    ensures Lists(from, ends) == [Range(from, ends[0])] + Lists(ends[0], ends[1..])
    ensures Partition(fs, ends[0], ends[1..]) && from < ends[0] <= |fs|
  {
  }

  /** The parallel branch: walk the groups of the plan. `orders` is the order
      in which the slots of each group happen to complete. */
  method RunGroups(store: Store, env: Env, ps: seq<Program>, ghost fs: Prints, ghost ends: seq<nat>,
                   groups: seq<seq<nat>>, m: Machine, orders: (nat, nat) -> seq<nat>)
    returns (r: Result)
    requires AllTerminate(ps) && |ps| == |fs| && Partition(fs, 0, ends) && groups == Lists(0, ends)
    requires forall g, n :: Fills(orders(g, n), n)
    ensures r == RunPlan(store, env, ps, 0, ends, m)
  {
    hide Execute, Terminates, GroupOk, Group, Partition, Lists;
    var acc := m;
    ghost var from: nat := 0;
    ghost var rest := ends;
    assert groups[0..] == groups;
    InOrder(fs, 0, ends);
    for g := 0 to |groups|
      invariant from <= |ps| && Partition(fs, from, rest) && groups[g..] == Lists(from, rest)
      invariant |rest| == |groups| - g
      invariant RunPlan(store, env, ps, 0, ends, m) == RunPlan(store, env, ps, from, rest, acc)
    {
      ListsCut(from, rest, fs);
      var group := groups[g];
      assert group == groups[g..][0];
      assert groups[g + 1..] == groups[g..][1..];
      var members := seq(|group|, i requires 0 <= i < |group| && group[i] < |ps| => ps[group[i]]);
      assert members == ps[from..rest[0]];
      var outcome: Result;
      if |group| == 1 {
        var (o, m') := Execute(store, env, members[0], acc, []);
        outcome := if o.Ok? then Success(m') else Failure(o.error, m');
        assert outcome == Serial(store, env, members, acc) by {
          assert o.Ok? ==> Serial(store, env, members[1..], m') == Success(m');
        }
      } else {
        assert Fills(orders(g, |group|), |members|);
        outcome := ExecuteGroup(store, env, members, acc, orders(g, |group|));
      }
      assert outcome == RunGroup(store, env, members, acc);
      if outcome.Failure? {
        return outcome;
      }
      acc := outcome.m;
      from, rest := rest[0], rest[1..];
    }
    r := Success(acc);
  }

  /** What the parallel systems phase computes. */
  ghost function Parallel(store: Store, env: Env, ds: seq<Declaration>, ps: seq<Program>, m: Machine): Result
    requires AllTerminate(ps) && |ds| == |ps|
  {
    if forall d :: d in ds ==> Known(store, d) then RunPlan(store, env, ps, 0, Greedy(PrintsOf(store, ds), 0), m)
    else Failure(InvalidArgument, m)
  }

  /** The systems phase in either mode. */
  method RunSystems(store: Store, env: Env, parallel: bool, ds: seq<Declaration>, ps: seq<Program>, m: Machine,
                    orders: (nat, nat) -> seq<nat>)
    returns (r: Result)
    requires AllTerminate(ps) && |ds| == |ps|
    requires forall g, n :: Fills(orders(g, n), n)
    ensures r == if parallel then Parallel(store, env, ds, ps, m) else Serial(store, env, ps, m)
  {
    hide Execute, Terminates, Group, RunPlan, Greedy, Lists, Known, Fills;
    if parallel {
      var plan := Build(store, ds);
      if plan.None? {
        return Failure(InvalidArgument, m);
      }
      ghost var fs := PrintsOf(store, ds);
      r := RunGroups(store, env, ps, fs, Greedy(fs, 0), plan.value, m, orders);
    } else {
      var acc, i := m, 0;
      while i < |ps|
        invariant 0 <= i <= |ps| && Serial(store, env, ps, m) == Serial(store, env, ps[i..], acc)
      {
        var (o, m') := Execute(store, env, ps[i], acc, []);
        if o.Err? {
          return Failure(o.error, m');
        }
        acc, i := m', i + 1;
      }
      r := Success(acc);
    }
  }

  /** Serial and parallel execution of the systems phase agree for systems
      that honour what they declare, tidily and within the budgets. */
  lemma ParallelIsSerial(store: Store, env: Env, ds: seq<Declaration>, ps: seq<Program>, m: Machine)
    requires AllTerminate(ps) && |ds| == |ps| && forall d :: d in ds ==> Known(store, d)
    requires AllHonour(store, ps, PrintsOf(store, ds)) && Sound(m)
    requires Orderly(store, env, ps, 0, Greedy(PrintsOf(store, ds), 0), m)
    ensures Alike(Parallel(store, env, ds, ps, m), Serial(store, env, ps, m))
  {
    hide Execute, Terminates, Group, RunPlan, Lists, Known, Orderly, AllHonour;
    assert ps[0..] == ps;
    PhaseAgrees(store, env, ps, PrintsOf(store, ds), 0, Greedy(PrintsOf(store, ds), 0), m);
  }
}
