/** Whole program runs on a branch against the same runs on the serial tick
    transaction (`crates/nexum-execution/src/parallel.rs`). */
module Runs {
  import opened Values
  import opened Transaction
  import opened Branching
  import opened Program

  /** `seq` numbers rewritten to positions, as the merge does. */
  function Renumber(ms: seq<Message>): (r: seq<Message>)
    ensures |r| == |ms|
    ensures forall i :: 0 <= i < |ms| ==> r[i] == ms[i].(seqNo := i)
  {
    seq(|ms|, i requires 0 <= i < |ms| => ms[i].(seqNo := i))
  }

  /** Every message carries its position. */
  ghost predicate Numbered(ms: seq<Message>)
  {
    forall i :: 0 <= i < |ms| ==> ms[i].seqNo == i
  }

  function FreshMachine(parent: Tx): Machine
  {
    Machine(parent.Branch(), [], [])
  }

  /** The serial machine `s` is the one at `start` plus everything the child
      machine `c` has done. */
  ghost predicate Together(start: Machine, parent: Tx, s: Machine, c: Machine)
  {
    && Paired(start.tx, parent, s.tx, c.tx)
    && s.events == start.events + c.events
    && s.outbound == Renumber(start.outbound + c.outbound)
  }

  /** The two sides refuse an event or a message for capacity together. */
  predicate BudgetBlind(env: Env, start: Machine, c: Machine, a: Action)
  {
    match a
    case Emit(e) => e.name != "" ==> RefusalAgrees(|start.events|, |c.events| + 1, env.maxEvents)
    case Report(es) => RefusalAgrees(|start.events|, |c.events| + |es|, env.maxEvents)
    case SendTo(to, kind, payload) =>
      SendValid(env, to, kind, payload) ==> RefusalAgrees(|start.outbound|, |c.outbound| + 1, env.maxMessages)
    case _ => true
  }

  predicate RefusalAgrees(before: nat, own: nat, max: nat)
  {
    own <= max <==> before + own <= max
  }

  /** An action that cannot tell the child from the serial machine. */
  ghost predicate ActionClear(store: Store, env: Env, start: Machine, parent: Tx, c: Machine, a: Action)
  {
    && BudgetBlind(env, start, c, a)
    && (a.Run? ==>
          && Blind(store, start.tx, parent, a.op)
          && Tidy(store, c.tx, a.op) && Settled(store, start.tx.writes.own, c.tx, a.op))
  }

  /** Every action of the child's run from replies `h` on is clear. */
  ghost predicate Clear(store: Store, env: Env, p: Program, start: Machine, parent: Tx, c: Machine, h: seq<Reply>)
    requires Terminates(p)
    decreases p.bound - |h|
  {
    var a := p.act(h);
    Continues(a) ==>
      && ActionClear(store, env, start, parent, c, a)
      && var (r, c') := Step(store, env, c, a);
      Clear(store, env, p, start, parent, c', h + [r])
  }

  lemma StepPairs(store: Store, env: Env, start: Machine, parent: Tx, s: Machine, c: Machine, a: Action)
    requires Together(start, parent, s, c) && Continues(a)
    requires ActionClear(store, env, start, parent, c, a)
    ensures Step(store, env, s, a).0 == Step(store, env, c, a).0
    ensures Together(start, parent, Step(store, env, s, a).1, Step(store, env, c, a).1)
  {
    hide Paired, Blind, Tidy, Settled, Access;
    match a
    case Run(op) => AccessPairs(store, start.tx, parent, s.tx, c.tx, op);
    case SendTo(to, kind, payload) =>
      var msg := Message(env.partition, to, env.tick, |c.outbound|, kind, payload);
      assert start.outbound + (c.outbound + [msg]) == (start.outbound + c.outbound) + [msg];
    case Emit(e) => assert start.events + (c.events + [e]) == (start.events + c.events) + [e];
    case Report(es) => assert start.events + (c.events + es) == (start.events + c.events) + es;
    case _ =>
  }

  /** A clear run has the same outcome on both sides, and the serial machine
      ends as its start absorbing the child. */
  lemma {:induction false} RunPairs(store: Store, env: Env, p: Program, start: Machine, parent: Tx,
                                    s: Machine, c: Machine, h: seq<Reply>)
    requires Terminates(p) && Together(start, parent, s, c)
    requires Clear(store, env, p, start, parent, c, h)
    ensures Execute(store, env, p, s, h).0 == Execute(store, env, p, c, h).0
    ensures Together(start, parent, Execute(store, env, p, s, h).1, Execute(store, env, p, c, h).1)
    decreases p.bound - |h|
  {
    hide Together, ActionClear, Step;
    var a := p.act(h);
    if Continues(a) {
      StepPairs(store, env, start, parent, s, c, a);
      var (r, c') := Step(store, env, c, a);
      RunPairs(store, env, p, start, parent, Step(store, env, s, a).1, c', h + [r]);
    }
  }

  // ------------------------------------------------------- single machine

  ghost predicate SameMachine(a: Machine, b: Machine)
  {
    Same(a.tx, b.tx) && a.events == b.events && a.outbound == b.outbound
  }

  /** Runs do not depend on the order of earlier reads. */
  lemma {:induction false} RunSame(store: Store, env: Env, p: Program, a: Machine, b: Machine, h: seq<Reply>)
    requires Terminates(p) && SameMachine(a, b)
    ensures Execute(store, env, p, a, h).0 == Execute(store, env, p, b, h).0
    ensures SameMachine(Execute(store, env, p, a, h).1, Execute(store, env, p, b, h).1)
    decreases p.bound - |h|
  {
    hide Access, Same;
    var x := p.act(h);
    if Continues(x) {
      if x.Run? { AccessSame(store, a.tx, b.tx, x.op); }
      var (r, a') := Step(store, env, a, x);
      RunSame(store, env, p, a', Step(store, env, b, x).1, h + [r]);
    }
  }

  ghost predicate Sound(m: Machine)
  {
    TopLevel(m.tx) && Numbered(m.outbound)
  }

  /** A run on the tick machine keeps it sound and never takes anything out of
      its buffers. */
  lemma {:induction false} RunSound(store: Store, env: Env, p: Program, m: Machine, h: seq<Reply>)
    requires Terminates(p) && Sound(m)
    ensures Sound(Execute(store, env, p, m, h).1)
    decreases p.bound - |h|
  {
    hide Access, TopLevel;
    var x := p.act(h);
    if Continues(x) {
      if x.Run? { AccessTopLevel(store, m.tx, x.op); }
      var (r, m') := Step(store, env, m, x);
      RunSound(store, env, p, m', h + [r]);
    }
  }

  lemma {:induction false} BuffersGrow(store: Store, env: Env, p: Program, m: Machine, h: seq<Reply>)
    requires Terminates(p)
    ensures m.events <= Execute(store, env, p, m, h).1.events
    ensures m.outbound <= Execute(store, env, p, m, h).1.outbound
    decreases p.bound - |h|
  {
    hide Access;
    var x := p.act(h);
    if Continues(x) {
      var (r, m') := Step(store, env, m, x);
      BuffersGrow(store, env, p, m', h + [r]);
    }
  }
}
