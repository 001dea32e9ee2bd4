/** The worker threads of a group (`crates/nexum-execution/src/parallel.rs`):
    slots are dealt round-robin to the threads, each thread runs its slots one
    operation at a time on private branches, and results land by slot. */
module Workers {
  import opened Values
  import opened Transaction
  import opened Program
  import opened Runs
  import opened Groups
  import opened GroupEquivalence
  import opened CheckedGroups

  /** A thread is between slots, or inside the program of one slot, with the
      slots it still has to do. */
  datatype Thread =
    | Between(todo: seq<nat>)
    | Inside(slot: nat, m: Machine, h: seq<Reply>, todo: seq<nat>)

  datatype Pool = Pool(threads: seq<Thread>, results: seq<Option<(Outcome, Machine)>>)

  /** `workers.max(1).min(members)`. */
  function ThreadCount(workers: nat, members: nat): nat
  {
    var w := if workers < 1 then 1 else workers;
    if w < members then w else members
  }

  /** The slots `first, first + stride, ...` below `members`. */
  function RoundRobin(first: nat, stride: nat, members: nat): seq<nat>
    requires stride > 0
    decreases members - first
  {
    if first >= members then [] else [first] + RoundRobin(first + stride, stride, members)
  }

  lemma {:induction false} RoundRobinHas(first: nat, stride: nat, members: nat, k: nat)
    requires stride > 0 && first + k * stride < members
    ensures first + k * stride in RoundRobin(first, stride, members)
    decreases k
  {
    assert k * stride >= 0;
    if k > 0 {
      assert (k - 1) * stride == k * stride - stride;
      RoundRobinHas(first + stride, stride, members, k - 1);
    }
  }

  lemma {:induction false} RoundRobinBelow(first: nat, stride: nat, members: nat)
    requires stride > 0
    ensures forall s :: s in RoundRobin(first, stride, members) ==> s < members
    decreases members - first
  {
    if first < members { RoundRobinBelow(first + stride, stride, members); }
  }

  ghost predicate Start(pool: Pool, ps: seq<Program>, workers: nat)
  {
    var n := ThreadCount(workers, |ps|);
    && |pool.threads| == n
    && (forall t :: 0 <= t < n ==> pool.threads[t] == Between(RoundRobin(t, n, |ps|)))
    && |pool.results| == |ps| && (forall s :: 0 <= s < |ps| ==> pool.results[s] == None)
  }

  /** One scheduling step: thread `t` begins a slot, runs one operation, or
      stores a finished result. */
  ghost predicate Advance(store: Store, env: Env, ps: seq<Program>, parent: Tx, pool: Pool, t: nat, pool': Pool)
  {
    && t < |pool.threads|
    && match pool.threads[t]
       case Between(todo) =>
         && todo != []
         && pool' == pool.(threads := pool.threads[t := Inside(todo[0], FreshMachine(parent), [], todo[1..])])
       case Inside(slot, m, h, todo) =>
         && slot < |ps| && slot < |pool.results|
         && var a := ps[slot].act(h);
         if Continues(a) then
           var (r, m') := Step(store, env, m, a);
           pool' == pool.(threads := pool.threads[t := Inside(slot, m', h + [r], todo)])
         else
           pool' == Pool(pool.threads[t := Between(todo)],
                         pool.results[slot := Some((if a.Finish? then Ok(a.value) else Err(a.error), m))])
  }

  ghost predicate Finished(pool: Pool)
  {
    forall t :: 0 <= t < |pool.threads| ==> pool.threads[t] == Between([])
  }

  /** The slots a thread still owes. */
  function Owed(th: Thread): seq<nat>
  {
    match th
    case Between(todo) => todo
    case Inside(slot, _, _, todo) => [slot] + todo
  }

  /** What is left of a running program leads to its slot's result. */
  ghost predicate ThreadInv(store: Store, env: Env, ps: seq<Program>, parent: Tx, th: Thread)
    requires AllTerminate(ps)
  {
    && (forall s :: s in Owed(th) ==> s < |ps|)
    && (th.Inside? ==> th.slot < |ps|)
    && (th.Inside? ==> Execute(store, env, ps[th.slot], th.m, th.h) == RunSlot(store, env, ps[th.slot], parent))
  }

  ghost predicate Covered(pool: Pool, s: nat)
  {
    (s < |pool.results| && pool.results[s].Some?)
    || exists t :: 0 <= t < |pool.threads| && s in Owed(pool.threads[t])
  }

  ghost predicate Inv(store: Store, env: Env, ps: seq<Program>, parent: Tx, pool: Pool)
    requires AllTerminate(ps)
  {
    && |pool.results| == |ps|
    && (forall s :: 0 <= s < |ps| ==> Covered(pool, s))
    && (forall s :: 0 <= s < |ps| && pool.results[s].Some? ==>
          pool.results[s].value == RunSlot(store, env, ps[s], parent))
    && (forall t :: 0 <= t < |pool.threads| ==> ThreadInv(store, env, ps, parent, pool.threads[t]))
  }

  lemma StartInv(store: Store, env: Env, ps: seq<Program>, parent: Tx, pool: Pool, workers: nat)
    requires AllTerminate(ps) && Start(pool, ps, workers)
    ensures Inv(store, env, ps, parent, pool)
  {
    hide Execute, RunSlot;
    var n := |pool.threads|;
    forall t | 0 <= t < n
      ensures ThreadInv(store, env, ps, parent, pool.threads[t])
    {
      RoundRobinBelow(t, n, |ps|);
    }
    forall s | 0 <= s < |ps|
      ensures Covered(pool, s)
    {
      assert s == s % n + (s / n) * n;
      RoundRobinHas(s % n, n, |ps|, s / n);
      assert s in Owed(pool.threads[s % n]);
    }
  }

  lemma AdvanceCovers(store: Store, env: Env, ps: seq<Program>, parent: Tx, pool: Pool, t: nat, pool': Pool, s: nat)
    requires Advance(store, env, ps, parent, pool, t, pool') && Covered(pool, s)
    ensures Covered(pool', s)
  {
    hide Step;
    if s < |pool.results| && pool.results[s].Some? {
    } else {
      var u :| 0 <= u < |pool.threads| && s in Owed(pool.threads[u]);
      assert pool'.threads[u] == pool.threads[u] || u == t;
      if u == t && s !in Owed(pool'.threads[t]) {
        assert pool.threads[t].Inside? && s == pool.threads[t].slot;
      } else {
        assert s in Owed(pool'.threads[u]);
      }
    }
  }

  lemma AdvanceThread(store: Store, env: Env, ps: seq<Program>, parent: Tx, pool: Pool, t: nat, pool': Pool)
    requires AllTerminate(ps) && Advance(store, env, ps, parent, pool, t, pool')
    requires ThreadInv(store, env, ps, parent, pool.threads[t])
    ensures ThreadInv(store, env, ps, parent, pool'.threads[t])
    ensures forall s :: 0 <= s < |pool.results| && pool'.results[s] != pool.results[s] ==>
      s < |ps| && pool'.results[s] == Some(RunSlot(store, env, ps[s], parent))
  {
    hide Step;
    var th := pool.threads[t];
    if th.Between? {
      assert th.todo[0] in Owed(th);
      assert [th.todo[0]] + th.todo[1..] == th.todo;
      assert pool'.threads[t].slot < |ps|;
    } else {
      assert forall s :: s in th.todo ==> s in Owed(th);
      assert th.slot in Owed(th);
    }
  }

  lemma AdvanceInv(store: Store, env: Env, ps: seq<Program>, parent: Tx, pool: Pool, t: nat, pool': Pool)
    requires AllTerminate(ps) && Inv(store, env, ps, parent, pool)
    requires Advance(store, env, ps, parent, pool, t, pool')
    ensures Inv(store, env, ps, parent, pool')
  {
    hide Execute, RunSlot, Step, ThreadInv;
    AdvanceThread(store, env, ps, parent, pool, t, pool');
    forall s | 0 <= s < |ps|
      ensures Covered(pool', s)
    {
      AdvanceCovers(store, env, ps, parent, pool, t, pool', s);
    }
  }

  ghost predicate Schedule(store: Store, env: Env, ps: seq<Program>, parent: Tx, pools: seq<Pool>, order: seq<nat>)
  {
    && |pools| == |order| + 1
    && forall i :: 0 <= i < |order| ==> Advance(store, env, ps, parent, pools[i], order[i], pools[i + 1])
  }

  lemma {:induction false} ScheduleInv(store: Store, env: Env, ps: seq<Program>, parent: Tx, workers: nat,
                                       pools: seq<Pool>, order: seq<nat>)
    requires AllTerminate(ps) && Schedule(store, env, ps, parent, pools, order) && Start(pools[0], ps, workers)
    ensures Inv(store, env, ps, parent, pools[|order|])
    decreases |order|
  {
    hide Inv, Advance, Start;
    if order == [] {
      StartInv(store, env, ps, parent, pools[0], workers);
    } else {
      var k := |order| - 1;
      ScheduleInv(store, env, ps, parent, workers, pools[..k + 1], order[..k]);
      AdvanceInv(store, env, ps, parent, pools[k], order[k], pools[k + 1]);
    }
  }

  /** Whatever the number of workers and the interleaving of their operations,
      a finished pool holds in every slot the result of running that member
      alone on a branch. */
  lemma ResultsBySlot(store: Store, env: Env, ps: seq<Program>, parent: Tx, workers: nat,
                      pools: seq<Pool>, order: seq<nat>)
    requires AllTerminate(ps) && Schedule(store, env, ps, parent, pools, order) && Start(pools[0], ps, workers)
    requires Finished(pools[|order|])
    ensures |pools[|order|].results| == |ps|
    ensures forall s :: 0 <= s < |ps| ==> pools[|order|].results[s] == Some(Children(store, env, ps, parent)[s])
  {
    hide Execute, RunSlot, Advance, Start, ThreadInv;
    ScheduleInv(store, env, ps, parent, workers, pools, order);
    var pool := pools[|order|];
    forall s | 0 <= s < |ps|
      ensures pool.results[s].Some?
    {
      assert Covered(pool, s);
    }
  }

  // ------------------------------------------------------ after the join

  /** The first failure among the stored results, in slot order. */
  function SlotError(results: seq<Option<(Outcome, Machine)>>): Option<Error>
  {
    if results == [] then None
    else if results[0].Some? && results[0].value.0.Err? then Some(results[0].value.0.error)
    else SlotError(results[1..])
  }

  /** The merge loop over the stored results; a missing one fails it. */
  function MergeSlots(env: Env, results: seq<Option<(Outcome, Machine)>>, acc: Machine, snapshot: set<Key>,
                      siblings: set<Key>): Result
    decreases |results|
  {
    if results == [] then Success(acc)
    else if results[0].None? then Failure(Internal, acc)
    else
      var child := results[0].value.1;
      match MergeOne(env, acc, child, snapshot, siblings)
      case Failure(e, m) => Failure(e, m)
      case Success(m) => MergeSlots(env, results[1..], m, snapshot, siblings + FreshKeys(child.tx, snapshot))
  }

  /** What the group reports once its threads have joined. */
  function Joined(env: Env, pool: Pool, m: Machine): Result
  {
    match SlotError(pool.results)
    case Some(e) => Failure(e, m)
    case None => MergeSlots(env, pool.results, m, m.tx.writes.View().Keys, {})
  }

  ghost predicate Filled(results: seq<Option<(Outcome, Machine)>>, cs: seq<(Outcome, Machine)>)
  {
    |results| == |cs| && forall s :: 0 <= s < |cs| ==> results[s] == Some(cs[s])
  }

  lemma {:induction false} FilledError(results: seq<Option<(Outcome, Machine)>>, cs: seq<(Outcome, Machine)>)
    requires Filled(results, cs)
    ensures SlotError(results) == FirstError(cs)
  {
    if cs != [] { FilledError(results[1..], cs[1..]); }
  }

  lemma {:induction false} FilledMerge(env: Env, results: seq<Option<(Outcome, Machine)>>, cs: seq<(Outcome, Machine)>,
                                       acc: Machine, snapshot: set<Key>, siblings: set<Key>)
    requires Filled(results, cs)
    ensures MergeSlots(env, results, acc, snapshot, siblings) == MergeAll(env, Machines(cs), acc, snapshot, siblings)
    decreases |cs|
  {
    hide MergeOne, FreshKeys;
    if cs != [] {
      assert Machines(cs)[1..] == Machines(cs[1..]);
      var merged := MergeOne(env, acc, cs[0].1, snapshot, siblings);
      if merged.Success? {
        FilledMerge(env, results[1..], cs[1..], merged.m, snapshot, siblings + FreshKeys(cs[0].1.tx, snapshot));
      }
    }
  }

  /** A finished run of the pool, from its start. */
  ghost predicate FinishedRun(store: Store, env: Env, ps: seq<Program>, parent: Tx, workers: nat,
                              pools: seq<Pool>, order: seq<nat>)
  {
    Schedule(store, env, ps, parent, pools, order) && Start(pools[0], ps, workers) && Finished(pools[|order|])
  }

  /** Every finished run of every number of workers reports the same. */
  lemma JoinedIsGroup(store: Store, env: Env, ps: seq<Program>, m: Machine, workers: nat, pools: seq<Pool>, order: seq<nat>)
    requires AllTerminate(ps) && FinishedRun(store, env, ps, m.tx, workers, pools, order)
    ensures Joined(env, pools[|order|], m) == Group(store, env, ps, m)
  {
    hide Start, Finished, Advance, Execute, RunSlot, MergeAll, MergeSlots, FirstError, SlotError, Terminates;
    ResultsBySlot(store, env, ps, m.tx, workers, pools, order);
    var results, cs := pools[|order|].results, Children(store, env, ps, m.tx);
    assert Filled(results, cs);
    FilledError(results, cs);
    FilledMerge(env, results, cs, m, m.tx.writes.View().Keys, {});
  }

  /** Workers and interleaving do not matter, and neither does running in
      parallel: for declared members the joined pool is the serial loop. */
  lemma DeclaredWorkers(store: Store, env: Env, ps: seq<Program>, fs: seq<Footprint>, m: Machine, workers: nat,
                        pools: seq<Pool>, order: seq<nat>)
    requires DeclaredMembers(store, env, ps, fs, m.tx, m.tx.writes.own) && Sound(m)
    requires FitInTurn(env, m, Children(store, env, ps, m.tx))
    requires FinishedRun(store, env, ps, m.tx, workers, pools, order)
    ensures Alike(Joined(env, pools[|order|], m), Serial(store, env, ps, m))
  {
    hide FinishedRun, Joined, Group, Serial, FitInTurn, Sound, Alike;
    assert AllTerminate(ps);
    JoinedIsGroup(store, env, ps, m, workers, pools, order);
    DeclaredGroup(store, env, ps, fs, m);
  }

  /** The same for arbitrary self-contained members, when the join succeeds. */
  lemma SelfContainedWorkers(store: Store, env: Env, ps: seq<Program>, m: Machine, workers: nat,
                             pools: seq<Pool>, order: seq<nat>)
    requires AllTerminate(ps) && Sound(m) && FinishedRun(store, env, ps, m.tx, workers, pools, order)
    requires forall i :: 0 <= i < |ps| ==> SelfContainedMember(store, env, ps[i], m.tx)
    ensures Joined(env, pools[|order|], m).Success? ==> Alike(Joined(env, pools[|order|], m), Serial(store, env, ps, m))
  {
    hide FinishedRun, Joined, Group, Serial, Sound, Alike, SelfContainedMember, Terminates;
    JoinedIsGroup(store, env, ps, m, workers, pools, order);
    SelfContainedGroup(store, env, ps, m);
  }

  // ------------------------------------------------------------- progress

  /** Steps the slots still to be begun can take at most. */
  function Ahead(ps: seq<Program>, todo: seq<nat>): nat
  {
    if todo == [] then 0
    else (if todo[0] < |ps| then ps[todo[0]].bound else 0) + 2 + Ahead(ps, todo[1..])
  }

  function ThreadWork(ps: seq<Program>, th: Thread): nat
  {
    match th
    case Between(todo) => Ahead(ps, todo)
    case Inside(slot, _, h, todo) =>
      1 + (if slot < |ps| && |h| <= ps[slot].bound then ps[slot].bound - |h| else 0) + Ahead(ps, todo)
  }

  function Work(ps: seq<Program>, threads: seq<Thread>): nat
  {
    if threads == [] then 0 else ThreadWork(ps, threads[0]) + Work(ps, threads[1..])
  }

  lemma {:induction false} WorkUpdate(ps: seq<Program>, threads: seq<Thread>, t: nat, th: Thread)
    requires t < |threads|
    ensures Work(ps, threads[t := th]) == Work(ps, threads) - ThreadWork(ps, threads[t]) + ThreadWork(ps, th)
    decreases t
  {
    hide ThreadWork;
    if t > 0 {
      WorkUpdate(ps, threads[1..], t - 1, th);
      assert threads[t := th][1..] == threads[1..][t - 1 := th];
    }
  }

  lemma AdvanceWorks(store: Store, env: Env, ps: seq<Program>, parent: Tx, pool: Pool, t: nat, pool': Pool)
    requires AllTerminate(ps) && Advance(store, env, ps, parent, pool, t, pool')
    ensures Work(ps, pool'.threads) < Work(ps, pool.threads)
  {
    hide Step;
    WorkUpdate(ps, pool.threads, t, pool'.threads[t]);
    assert pool'.threads == pool.threads[t := pool'.threads[t]];
    var th := pool.threads[t];
    if th.Inside? && Continues(ps[th.slot].act(th.h)) {
      assert |th.h| < ps[th.slot].bound;
    }
  }

  /** No schedule is longer than the work dealt out at the start. */
  lemma {:induction false} ScheduleEnds(store: Store, env: Env, ps: seq<Program>, parent: Tx, pools: seq<Pool>, order: seq<nat>)
    requires AllTerminate(ps) && Schedule(store, env, ps, parent, pools, order)
    ensures |order| + Work(ps, pools[|order|].threads) <= Work(ps, pools[0].threads)
    decreases |order|
  {
    hide Advance, Work;
    if order != [] {
      var k := |order| - 1;
      ScheduleEnds(store, env, ps, parent, pools[..k + 1], order[..k]);
      AdvanceWorks(store, env, ps, parent, pools[k], order[k], pools[k + 1]);
    }
  }

  /** A pool that is not finished can always advance: with `ScheduleEnds`,
      every schedule that is carried on as long as possible finishes. */
  lemma PoolAdvances(store: Store, env: Env, ps: seq<Program>, parent: Tx, workers: nat, pools: seq<Pool>, order: seq<nat>)
    requires AllTerminate(ps) && Schedule(store, env, ps, parent, pools, order) && Start(pools[0], ps, workers)
    requires !Finished(pools[|order|])
    ensures exists t, pool' :: Advance(store, env, ps, parent, pools[|order|], t, pool')
  {
    hide Execute, RunSlot, Step, Start;
    ScheduleInv(store, env, ps, parent, workers, pools, order);
    var pool := pools[|order|];
    var t: nat :| t < |pool.threads| && pool.threads[t] != Between([]);
    var th := pool.threads[t];
    assert ThreadInv(store, env, ps, parent, th);
    var pool';
    if th.Between? {
      pool' := pool.(threads := pool.threads[t := Inside(th.todo[0], FreshMachine(parent), [], th.todo[1..])]);
    } else {
      var a := ps[th.slot].act(th.h);
      if Continues(a) {
        var (r, m') := Step(store, env, th.m, a);
        pool' := pool.(threads := pool.threads[t := Inside(th.slot, m', th.h + [r], th.todo)]);
      } else {
        pool' := Pool(pool.threads[t := Between(th.todo)],
                      pool.results[th.slot := Some((if a.Finish? then Ok(a.value) else Err(a.error), th.m))]);
      }
    }
    assert Advance(store, env, ps, parent, pool, t, pool');
  }
}
