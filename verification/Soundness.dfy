/** What every phase of a tick keeps, in either execution mode: observations
    match the frozen store, pending inserts are at handles and updates at real
    rows, and events and messages are within the budgets, each message with its
    sender, its tick and its position, addressed to another known partition, and within
    the limits on kind and arguments. */
module Soundness {
  import opened Values
  import opened Transaction
  import opened Branching
  import opened Program
  import opened Runs
  import opened Groups
  import opened GroupEquivalence
  import opened TickPlan
  import opened SystemsPhase
  import opened Reducers
  import opened ReadYourWrites

  ghost predicate Stamped(env: Env, ms: seq<Message>)
  {
    forall i :: 0 <= i < |ms| ==>
      && ms[i].from == env.partition && ms[i].sentTick == env.tick && ms[i].seqNo == i
      && ms[i].to in env.known && ms[i].to != env.partition
      && 0 < |ms[i].kind| <= env.maxKindLen && |ms[i].payload| <= env.maxArgs
  }

  ghost predicate Fine(store: Store, env: Env, m: Machine)
  {
    && Current(store, m.tx.seen) && Placed(m.tx.writes)
    && Stamped(env, m.outbound) && |m.outbound| <= env.maxMessages && |m.events| <= env.maxEvents
  }

  ghost predicate FineResult(store: Store, env: Env, r: Result)
  {
    r.Success? ==> Fine(store, env, r.m)
  }

  lemma StepFine(store: Store, env: Env, m: Machine, a: Action)
    requires Continues(a) && Fine(store, env, m)
    ensures Fine(store, env, Step(store, env, m, a).1)
  {
    hide Access, Current, Placed;
    if a.Run? {
      AccessAccrues(store, m.tx, a.op);
      AccessPlaced(store, m.tx, a.op);
    }
  }

  lemma {:induction false} ExecuteFine(store: Store, env: Env, p: Program, m: Machine, h: seq<Reply>)
    requires Terminates(p) && Fine(store, env, m)
    ensures Fine(store, env, Execute(store, env, p, m, h).1)
    decreases p.bound - |h|
  {
    hide Step, Fine;
    var a := p.act(h);
    if Continues(a) {
      StepFine(store, env, m, a);
      var (r, m') := Step(store, env, m, a);
      ExecuteFine(store, env, p, m', h + [r]);
    }
  }

  lemma {:induction false} SerialFine(store: Store, env: Env, ps: seq<Program>, m: Machine)
    requires AllTerminate(ps) && Fine(store, env, m)
    ensures FineResult(store, env, Serial(store, env, ps, m))
    decreases |ps|
  {
    hide Execute, Terminates, Fine;
    if ps != [] {
      ExecuteFine(store, env, ps[0], m, []);
      if Execute(store, env, ps[0], m, []).0.Ok? {
        SerialFine(store, env, ps[1..], Execute(store, env, ps[0], m, []).1);
      }
    }
  }

  // --------------------------------------------------------------- groups

  lemma {:induction false} NewKeysOnce(order: seq<Key>, keys: set<Key>, known: set<Key>)
    requires ListsOnce(order, keys)
    ensures ListsOnce(NewKeys(order, known), keys - known)
    decreases |order|
  {
    if order != [] {
      var k, rest := order[0], order[1..];
      assert order == [k] + rest;
      assert ListsOnce(rest, keys - {k});
      NewKeysOnce(rest, keys - {k}, known);
      assert k !in NewKeys(rest, known);
    }
  }

  lemma AbsorbCurrent(store: Store, parent: ReadSet, child: ReadSet)
    requires Current(store, parent) && Current(store, child)
    ensures Current(store, AbsorbReads(parent, child))
  {
    NewKeysOnce(child.order, child.rows.Keys, parent.rows.Keys);
    ConcatOnce(parent.order, NewKeys(child.order, parent.rows.Keys), parent.rows.Keys, child.rows.Keys - parent.rows.Keys);
    assert (parent.rows + child.rows).Keys == parent.rows.Keys + (child.rows.Keys - parent.rows.Keys);
  }

  lemma ConcatOnce(a: seq<Key>, b: seq<Key>, x: set<Key>, y: set<Key>)
    requires ListsOnce(a, x) && ListsOnce(b, y) && x !! y
    ensures ListsOnce(a + b, x + y)
  {
    forall i, j | 0 <= i < j < |a + b|
      ensures (a + b)[i] != (a + b)[j]
    {
      assert i < |a| <= j ==> a[i] in x && b[j - |a|] in y;
    }
  }

  lemma MergeOneFine(store: Store, env: Env, acc: Machine, child: Machine, snapshot: set<Key>, siblings: set<Key>)
    requires Fine(store, env, acc) && Fine(store, env, child)
    ensures FineResult(store, env, MergeOne(env, acc, child, snapshot, siblings))
  {
    hide Overlaps, Current, Placed, Folded, AbsorbCounters;
    AbsorbCurrent(store, acc.tx.seen, child.tx.seen);
    AbsorbPlaced(acc.tx.writes, child.tx.writes);
  }

  lemma AbsorbPlaced(parent: WriteSet, child: WriteSet)
    requires Placed(parent) && Placed(child)
    ensures Placed(AbsorbWrites(parent, child.own))
  {
  }

  lemma {:induction false} MergeFine(store: Store, env: Env, children: seq<Machine>, acc: Machine,
                                     snapshot: set<Key>, siblings: set<Key>)
    requires Fine(store, env, acc) && forall i :: 0 <= i < |children| ==> Fine(store, env, children[i])
    ensures FineResult(store, env, MergeAll(env, children, acc, snapshot, siblings))
    decreases |children|
  {
    hide MergeOne, FreshKeys, Fine;
    if children != [] {
      MergeOneFine(store, env, acc, children[0], snapshot, siblings);
      var r := MergeOne(env, acc, children[0], snapshot, siblings);
      if r.Success? {
        MergeFine(store, env, children[1..], r.m, snapshot, siblings + FreshKeys(children[0].tx, snapshot));
      }
    }
  }

  lemma BranchFine(store: Store, env: Env, parent: Tx)
    requires Placed(parent.writes)
    ensures Fine(store, env, FreshMachine(parent))
  {
  }

  lemma GroupFine(store: Store, env: Env, ps: seq<Program>, m: Machine)
    requires AllTerminate(ps) && Fine(store, env, m)
    ensures FineResult(store, env, Group(store, env, ps, m))
  {
    hide Execute, Terminates, MergeAll, Placed;
    var cs := Children(store, env, ps, m.tx);
    forall i | 0 <= i < |cs|
      ensures Fine(store, env, Machines(cs)[i])
    {
      BranchFine(store, env, m.tx);
      ExecuteFine(store, env, ps[i], FreshMachine(m.tx), []);
    }
    MergeFine(store, env, Machines(cs), m, m.tx.writes.View().Keys, {});
  }

  lemma {:induction false} PlanFine(store: Store, env: Env, ps: seq<Program>, from: nat, ends: seq<nat>, m: Machine)
    requires AllTerminate(ps) && from <= |ps| && Fine(store, env, m)
    ensures FineResult(store, env, RunPlan(store, env, ps, from, ends, m))
    decreases |ends|
  {
    hide Terminates, Group, Serial, Fine;
    if ends != [] && from < ends[0] <= |ps| {
      var group := ps[from..ends[0]];
      if |group| == 1 {
        SerialFine(store, env, group, m);
      } else {
        GroupFine(store, env, group, m);
      }
      var r := RunGroup(store, env, group, m);
      if r.Success? {
        PlanFine(store, env, ps, ends[0], ends[1..], r.m);
      }
    }
  }
}
