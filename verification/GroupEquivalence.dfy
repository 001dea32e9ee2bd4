/** The concurrent group against the serial loop
    (`crates/nexum-execution/src/parallel.rs`): a member whose run is clear of
    its siblings merges to the serial machine, and so does a whole group of
    members that keep to their declared, conflict-free tables. */
module GroupEquivalence {
  import opened Values
  import opened Transaction
  import opened Branching
  import opened Program
  import opened Runs
  import opened Groups

  // ---------------------------------------------------- merging one member

  /** Everything a child produced fits the budgets next to what is there. */
  predicate Fits(env: Env, acc: Machine, child: Machine)
  {
    |acc.events| + |child.events| <= env.maxEvents && |acc.outbound| + |child.outbound| <= env.maxMessages
  }

  function Merged(acc: Machine, child: Machine): Machine
  {
    Machine(Absorb(acc.tx, child.tx), acc.events + child.events, Renumber(acc.outbound + child.outbound))
  }

  /** The state of the merge loop at a slot: the machine merged so far, over
      the tick transaction the group started from. */
  ghost predicate Merging(acc: Machine, parent: Tx)
  {
    Sound(acc) && TopLevel(parent) && Grown(acc.tx.provisional, parent.provisional)
  }

  /** A member whose branch run is clear does on the merged machine what it did
      on its branch, and ends where the merge puts it. */
  lemma ClearMember(store: Store, env: Env, p: Program, acc: Machine, parent: Tx)
    requires Terminates(p) && Merging(acc, parent)
    requires Clear(store, env, p, acc, parent, FreshMachine(parent), [])
    ensures var child := RunSlot(store, env, p, parent);
      && Execute(store, env, p, acc, []).0 == child.0
      && SameMachine(Execute(store, env, p, acc, []).1, Merged(acc, child.1))
      && Merging(Merged(acc, child.1), parent)
  {
    hide Clear, Execute, Paired;
    BranchPairs(acc.tx, parent);
    assert Renumber(acc.outbound + []) == acc.outbound;
    RunPairs(store, env, p, acc, parent, acc, FreshMachine(parent), []);
    PairedMerges(acc.tx, parent, Execute(store, env, p, acc, []).1.tx, RunSlot(store, env, p, parent).1.tx);
  }

  lemma PairedMerges(serial: Tx, parent: Tx, s: Tx, c: Tx)
    requires Paired(serial, parent, s, c)
    ensures Same(s, Absorb(serial, c)) && TopLevel(Absorb(serial, c))
    ensures Grown(Absorb(serial, c).provisional, parent.provisional)
  {
  }

  // --------------------------------------------------------------- budget

  /** If the finished child fits, every refusal on the way agreed. */
  lemma FitsAgrees(store: Store, env: Env, p: Program, start: Machine, c: Machine, h: seq<Reply>, a: Action)
    requires Terminates(p) && a == p.act(h) && Continues(a)
    requires Fits(env, start, Execute(store, env, p, c, h).1)
    ensures BudgetBlind(env, start, c, a)
  {
    var (r, c') := Step(store, env, c, a);
    BuffersGrow(store, env, p, c', h + [r]);
    BuffersGrow(store, env, p, c, h);
  }

  // ------------------------------------------------------ declared access

  datatype Footprint = Footprint(readTables: set<TableId>, writeTables: set<TableId>)

  predicate Writes(op: Op) { op.InsertRow? || op.UpdateRow? || op.DeleteRow? }

  predicate Within(store: Store, f: Footprint, op: Op)
  {
    op.table in store.names ==>
      var t := store.names[op.table];
      t in f.writeTables || (t in f.readTables && !Writes(op))
  }

  /** The program touches only tables of its footprint, whatever replies it
      gets. */
  ghost predicate Honours(store: Store, f: Footprint, p: Program)
  {
    forall h: seq<Reply> :: p.act(h).Run? ==> Within(store, f, p.act(h).op)
  }

  predicate Interferes(f: Footprint, g: Footprint)
  {
    || f.writeTables * g.readTables != {}
    || f.writeTables * g.writeTables != {}
    || f.readTables * g.writeTables != {}
  }

  /** Every operation of the child's run is tidy, and every lookup settled
      against the writes pending when the member's turn comes. */
  ghost predicate TidyRun(store: Store, env: Env, p: Program, before: Writes, c: Machine, h: seq<Reply>)
    requires Terminates(p)
    decreases p.bound - |h|
  {
    var a := p.act(h);
    Continues(a) ==>
      && (a.Run? ==> Tidy(store, c.tx, a.op) && Settled(store, before, c.tx, a.op))
      && var (r, c') := Step(store, env, c, a);
      TidyRun(store, env, p, before, c', h + [r])
  }

  /** Two transactions agree on the tables of a footprint. */
  ghost predicate AgreesOn(serial: Tx, parent: Tx, f: Footprint)
  {
    && (forall t :: t in f.readTables || t in f.writeTables ==>
          TableAgrees(serial.writes.own, parent.writes.own, t))
    && (forall t :: t in f.writeTables ==>
          CounterOf(serial.provisional, t) == CounterOf(parent.provisional, t))
  }

  lemma {:induction false} HonouredClear(store: Store, env: Env, p: Program, f: Footprint, start: Machine,
                                         parent: Tx, c: Machine, h: seq<Reply>)
    requires Terminates(p) && Honours(store, f, p) && AgreesOn(start.tx, parent, f)
    requires TidyRun(store, env, p, start.tx.writes.own, c, h) && Fits(env, start, Execute(store, env, p, c, h).1)
    ensures Clear(store, env, p, start, parent, c, h)
    decreases p.bound - |h|
  {
    hide Differs, Access, Tidy, Settled, Fits, BudgetBlind;
    var a := p.act(h);
    if Continues(a) {
      FitsAgrees(store, env, p, start, c, h, a);
      var (r, c') := Step(store, env, c, a);
      HonouredClear(store, env, p, f, start, parent, c', h + [r]);
    }
  }

  /** Where a child of `parent` with footprint `f` can have left traces. */
  ghost predicate Traces(f: Footprint, parent: Tx, c: Tx)
  {
    && c.writes.base == parent.writes.own
    && (forall k :: k in c.writes.own ==> k.table in f.writeTables)
    && (forall k :: k in c.seen.rows ==> k.table in f.readTables || k.table in f.writeTables)
    && (forall t :: t in c.seen.tables ==> t in f.readTables || t in f.writeTables)
    && (forall t :: t !in f.writeTables ==> CounterOf(c.provisional, t) == CounterOf(parent.provisional, t))
  }

  lemma AccessTraces(store: Store, f: Footprint, parent: Tx, c: Tx, op: Op)
    requires Traces(f, parent, c) && Within(store, f, op)
    ensures Traces(f, parent, Access(store, c, op).1)
  {
    hide Access, Traces, Within;
    if Writes(op) {
      WriteTraces(store, f, parent, c, op);
    } else {
      ReadTraces(store, f, parent, c, op);
    }
  }

  lemma WriteTraces(store: Store, f: Footprint, parent: Tx, c: Tx, op: Op)
    requires Traces(f, parent, c) && Within(store, f, op) && Writes(op)
    ensures Traces(f, parent, Access(store, c, op).1)
  {
  }

  lemma ReadTraces(store: Store, f: Footprint, parent: Tx, c: Tx, op: Op)
    requires Traces(f, parent, c) && Within(store, f, op) && !Writes(op)
    ensures Traces(f, parent, Access(store, c, op).1)
  {
    hide ScanRows, LookupOwners, PendingEntries;
  }

  lemma {:induction false} RunTraces(store: Store, env: Env, p: Program, f: Footprint, parent: Tx,
                                     c: Machine, h: seq<Reply>)
    requires Terminates(p) && Honours(store, f, p) && Traces(f, parent, c.tx)
    ensures Traces(f, parent, Execute(store, env, p, c, h).1.tx)
    decreases p.bound - |h|
  {
    hide Traces, Access;
    var a := p.act(h);
    if Continues(a) {
      if a.Run? { AccessTraces(store, f, parent, c.tx, a.op); }
      var (r, c') := Step(store, env, c, a);
      RunTraces(store, env, p, f, parent, c', h + [r]);
    }
  }

  // -------------------------------------------------- declared: one slot

  function Tables(f: Footprint): set<TableId> { f.readTables + f.writeTables }

  /** So far only the tables `done` were written: there alone do the merged
      transaction and the parent differ. */
  ghost predicate Confined(acc: Tx, parent: Tx, siblings: set<Key>, done: set<TableId>)
  {
    && (forall k :: Differs(acc.writes.own, parent.writes.own, k) ==> k.table in done)
    && (forall t :: t !in done ==> CounterOf(acc.provisional, t) == CounterOf(parent.provisional, t))
    && (forall k :: k in siblings ==> k.table in done)
  }

  lemma ConfinedAgrees(acc: Tx, parent: Tx, siblings: set<Key>, done: set<TableId>, f: Footprint)
    requires Confined(acc, parent, siblings, done) && Tables(f) !! done
    ensures AgreesOn(acc, parent, f)
  {
  }

  /** Absorbing a child of a disjoint footprint passes every overlap check and
      stays confined. */
  lemma MergeConfined(acc: Tx, parent: Tx, child: Tx, siblings: set<Key>, done: set<TableId>, f: Footprint)
    requires Confined(acc, parent, siblings, done) && Traces(f, parent, child) && Tables(f) !! done
    requires TopLevel(parent)
    ensures var snapshot := parent.writes.View().Keys;
      && !Overlaps(child, snapshot, siblings)
      && Confined(Absorb(acc, child), parent, siblings + FreshKeys(child, snapshot), done + f.writeTables)
  {
    assert parent.writes.View() == parent.writes.own;
    forall k | k in FreshKeys(child, parent.writes.View().Keys)
      ensures k in child.writes.own
    {
    }
    assert !Overlaps(child, parent.writes.View().Keys, siblings);
    AbsorbConfined(acc, parent, child, siblings, done, f);
  }

  lemma AbsorbConfined(acc: Tx, parent: Tx, child: Tx, siblings: set<Key>, done: set<TableId>, f: Footprint)
    requires Confined(acc, parent, siblings, done) && Traces(f, parent, child)
    ensures var m, d := Absorb(acc, child), done + f.writeTables;
      && (forall k :: Differs(m.writes.own, parent.writes.own, k) ==> k.table in d)
      && (forall t :: t !in d ==> CounterOf(m.provisional, t) == CounterOf(parent.provisional, t))
  {
    var m, d := Absorb(acc, child), done + f.writeTables;
    forall k | Differs(m.writes.own, parent.writes.own, k)
      ensures k.table in d
    {
      if k !in child.writes.own { assert Differs(acc.writes.own, parent.writes.own, k); }
    }
  }

  // ------------------------------------------------ declared: whole group

  ghost predicate PairwiseFree(fs: seq<Footprint>)
  {
    forall i, j :: 0 <= i < j < |fs| ==> !Interferes(fs[i], fs[j])
  }

  /** Every child up to the first failing one fits the budgets in turn. */
  predicate FitInTurn(env: Env, acc: Machine, cs: seq<(Outcome, Machine)>)
    decreases |cs|
  {
    cs == [] || (Fits(env, acc, cs[0].1) && (cs[0].0.Ok? ==> FitInTurn(env, Merged(acc, cs[0].1), cs[1..])))
  }

  /** The group and the serial loop end alike. */
  ghost predicate Alike(a: Result, b: Result)
  {
    match (a, b)
    case (Success(m), Success(n)) => SameMachine(m, n)
    case (Failure(e, _), Failure(f, _)) => e == f
    case _ => false
  }

  /** Members that honour pairwise conflict-free footprints. */
  ghost predicate KeepApart(store: Store, ps: seq<Program>, fs: seq<Footprint>)
  {
    && |ps| == |fs| && AllTerminate(ps) && PairwiseFree(fs)
    && (forall i :: 0 <= i < |ps| ==> Honours(store, fs[i], ps[i]))
  }

  /** The same, tidily. */
  ghost predicate DeclaredMembers(store: Store, env: Env, ps: seq<Program>, fs: seq<Footprint>, parent: Tx,
                                  before: Writes)
  {
    KeepApart(store, ps, fs) && TidyMembers(store, env, ps, parent, before)
  }

  /** Every member up to the first failing one runs tidily on its branch.
      `before` is what is pending when its turn comes: the writes at the
      group's start with those of the earlier members' branches folded in. */
  ghost predicate TidyMembers(store: Store, env: Env, ps: seq<Program>, parent: Tx, before: Writes)
    requires AllTerminate(ps)
    decreases |ps|
  {
    ps != [] ==>
      && TidyRun(store, env, ps[0], before, FreshMachine(parent), [])
      && var child := RunSlot(store, env, ps[0], parent);
      child.0.Ok? ==> TidyMembers(store, env, ps[1..], parent, Folded(before, child.1.tx.writes.own))
  }

  /** What remains of a group, merged or run serially. */
  function MergeRest(store: Store, env: Env, ps: seq<Program>, parent: Tx, acc: Machine, siblings: set<Key>): Result
    requires AllTerminate(ps)
  {
    var cs := Children(store, env, ps, parent);
    match FirstError(cs)
    case Some(e) => Failure(e, acc)
    case None => MergeAll(env, Machines(cs), acc, parent.writes.View().Keys, siblings)
  }

  lemma RestOfChildren(store: Store, env: Env, ps: seq<Program>, parent: Tx)
    requires AllTerminate(ps) && ps != []
    ensures var cs := Children(store, env, ps, parent);
      && cs[0] == RunSlot(store, env, ps[0], parent)
      && cs[1..] == Children(store, env, ps[1..], parent)
      && Machines(cs)[0] == cs[0].1
      && Machines(cs)[1..] == Machines(cs[1..])
  {
    hide RunSlot;
    var cs := Children(store, env, ps, parent);
    assert Machines(cs)[1..] == Machines(cs[1..]);
  }

  /** One slot peeled off the merge. */
  lemma MergeRestStep(store: Store, env: Env, ps: seq<Program>, parent: Tx, acc: Machine, siblings: set<Key>)
    requires AllTerminate(ps) && ps != []
    requires Children(store, env, ps, parent)[0].0.Ok?
    requires var child := RunSlot(store, env, ps[0], parent).1;
      && !Overlaps(child.tx, parent.writes.View().Keys, siblings) && Fits(env, acc, child)
    ensures var child := RunSlot(store, env, ps[0], parent).1;
      var rest := MergeRest(store, env, ps[1..], parent, Merged(acc, child),
                            siblings + FreshKeys(child.tx, parent.writes.View().Keys));
      var all := MergeRest(store, env, ps, parent, acc, siblings);
      (rest.Success? <==> all.Success?) && (rest.Success? ==> rest == all) && (rest.Failure? ==> rest.error == all.error)
  {
    hide RunSlot, Overlaps, FreshKeys, Absorb;
    RestOfChildren(store, env, ps, parent);
  }

  lemma {:induction false} DeclaredRest(store: Store, env: Env, ps: seq<Program>, fs: seq<Footprint>, parent: Tx,
                                        acc: Machine, s: Machine, siblings: set<Key>, done: set<TableId>)
    requires DeclaredMembers(store, env, ps, fs, parent, acc.tx.writes.own)
    requires forall i :: 0 <= i < |fs| ==> Tables(fs[i]) !! done
    requires Merging(acc, parent) && SameMachine(acc, s) && Confined(acc.tx, parent, siblings, done)
    requires FitInTurn(env, acc, Children(store, env, ps, parent))
    ensures Alike(MergeRest(store, env, ps, parent, acc, siblings), Serial(store, env, ps, s))
    decreases |ps|
  {
    hide Confined, Overlaps, FreshKeys, Merged, Execute, Honours, TidyRun, Clear, Fits, Merging, SameMachine, Terminates;
    if ps != [] {
      var p, f := ps[0], fs[0];
      RestOfChildren(store, env, ps, parent);
      DeclaredSlot(store, env, p, f, parent, acc, s, siblings, done);
      var child := RunSlot(store, env, p, parent);
      if child.0.Ok? {
        MergeRestStep(store, env, ps, parent, acc, siblings);
        RestMembers(store, env, ps, fs, parent, acc.tx.writes.own, done);
        MergedWrites(acc, child.1);
        DeclaredRest(store, env, ps[1..], fs[1..], parent, Merged(acc, child.1), Execute(store, env, p, s, []).1,
                     siblings + FreshKeys(child.1.tx, parent.writes.View().Keys), done + f.writeTables);
        assert FirstError(Children(store, env, ps, parent)) == FirstError(Children(store, env, ps[1..], parent));
      }
    }
  }

  lemma MergedWrites(acc: Machine, child: Machine)
    ensures Merged(acc, child).tx.writes.own == Folded(acc.tx.writes.own, child.tx.writes.own)
  {
  }

  lemma RestMembers(store: Store, env: Env, ps: seq<Program>, fs: seq<Footprint>, parent: Tx, before: Writes,
                    done: set<TableId>)
    requires DeclaredMembers(store, env, ps, fs, parent, before) && ps != []
    requires RunSlot(store, env, ps[0], parent).0.Ok?
    requires forall i :: 0 <= i < |fs| ==> Tables(fs[i]) !! done
    ensures DeclaredMembers(store, env, ps[1..], fs[1..], parent,
                            Folded(before, RunSlot(store, env, ps[0], parent).1.tx.writes.own))
    ensures forall i :: 0 <= i < |fs[1..]| ==> Tables(fs[1..][i]) !! done + fs[0].writeTables
  {
    hide Honours, TidyRun, Terminates;
    RestApart(store, ps, fs, done);
  }

  lemma RestApart(store: Store, ps: seq<Program>, fs: seq<Footprint>, done: set<TableId>)
    requires KeepApart(store, ps, fs) && ps != [] && forall i :: 0 <= i < |fs| ==> Tables(fs[i]) !! done
    ensures KeepApart(store, ps[1..], fs[1..])
    ensures forall i :: 0 <= i < |fs[1..]| ==> Tables(fs[1..][i]) !! done + fs[0].writeTables
  {
    hide Honours, Terminates;
    forall i | 0 <= i < |fs[1..]|
      ensures Tables(fs[1..][i]) !! done + fs[0].writeTables
    {
      var f, g := fs[0], fs[i + 1];
      assert !Interferes(f, g) && Tables(g) !! done;
      forall t | t in Tables(g)
        ensures t !in f.writeTables
      {
        assert t !in f.writeTables * g.readTables && t !in f.writeTables * g.writeTables;
      }
    }
  }

  /** One declared member: its branch outcome is the serial one, and its merge
      leads to the serial machine. */
  lemma DeclaredSlot(store: Store, env: Env, p: Program, f: Footprint, parent: Tx,
                     acc: Machine, s: Machine, siblings: set<Key>, done: set<TableId>)
    requires Terminates(p) && Honours(store, f, p)
    requires TidyRun(store, env, p, acc.tx.writes.own, FreshMachine(parent), [])
    requires Tables(f) !! done && Merging(acc, parent) && SameMachine(acc, s)
    requires Confined(acc.tx, parent, siblings, done)
    requires Fits(env, acc, RunSlot(store, env, p, parent).1)
    ensures var child := RunSlot(store, env, p, parent);
      var snapshot := parent.writes.View().Keys;
      && Execute(store, env, p, s, []).0 == child.0
      && SameMachine(Merged(acc, child.1), Execute(store, env, p, s, []).1)
      && Merging(Merged(acc, child.1), parent)
      && !Overlaps(child.1.tx, snapshot, siblings)
      && Confined(Merged(acc, child.1).tx, parent, siblings + FreshKeys(child.1.tx, snapshot), done + f.writeTables)
  {
    hide Execute, TidyRun, Clear, Honours, Overlaps, FreshKeys, Absorb, Confined;
    ConfinedAgrees(acc.tx, parent, siblings, done, f);
    HonouredClear(store, env, p, f, acc, parent, FreshMachine(parent), []);
    ClearMember(store, env, p, acc, parent);
    RunSame(store, env, p, acc, s, []);
    BranchTraces(f, parent);
    RunTraces(store, env, p, f, parent, FreshMachine(parent), []);
    MergeConfined(acc.tx, parent, RunSlot(store, env, p, parent).1.tx, siblings, done, f);
  }

  lemma BranchTraces(f: Footprint, parent: Tx)
    requires TopLevel(parent)
    ensures Traces(f, parent, parent.Branch())
  {
    assert Folded(map[], parent.writes.own) == parent.writes.own;
  }

  /** A group of members that honour pairwise conflict-free footprints, are
      tidy, and fit the budgets, ends exactly like the serial loop: the same
      transaction, events and messages, or the same first error. */
  lemma DeclaredGroup(store: Store, env: Env, ps: seq<Program>, fs: seq<Footprint>, m: Machine)
    requires DeclaredMembers(store, env, ps, fs, m.tx, m.tx.writes.own) && Sound(m)
    requires FitInTurn(env, m, Children(store, env, ps, m.tx))
    ensures Alike(Group(store, env, ps, m), Serial(store, env, ps, m))
  {
    hide DeclaredMembers, FitInTurn, TopLevel, Numbered;
    assert Confined(m.tx, m.tx, {}, {});
    DeclaredRest(store, env, ps, fs, m.tx, m, m, {}, {});
  }

  // ---------------------------------------------------------- over budget

  /** A merge succeeds exactly if the child passes the checks and fits. */
  lemma MergeOneExact(env: Env, acc: Machine, child: Machine, snapshot: set<Key>, siblings: set<Key>)
    requires !Overlaps(child.tx, snapshot, siblings)
    ensures var r := MergeOne(env, acc, child, snapshot, siblings);
      && (r.Success? <==> Fits(env, acc, child))
      && (r.Success? ==> r.m == Merged(acc, child))
      && (r.Failure? ==> r.error == Capacity)
  {
    hide Overlaps, Absorb, FreshKeys;
  }

  lemma {:induction false} BudgetRest(store: Store, env: Env, ps: seq<Program>, fs: seq<Footprint>, parent: Tx,
                                      acc: Machine, siblings: set<Key>, done: set<TableId>)
    requires KeepApart(store, ps, fs) && (forall i :: 0 <= i < |fs| ==> Tables(fs[i]) !! done)
    requires TopLevel(parent) && Confined(acc.tx, parent, siblings, done)
    requires FirstError(Children(store, env, ps, parent)) == None
    ensures var r := MergeRest(store, env, ps, parent, acc, siblings);
      && (r.Success? <==> FitInTurn(env, acc, Children(store, env, ps, parent)))
      && (r.Failure? ==> r.error == Capacity)
    decreases |ps|
  {
    hide Confined, Overlaps, FreshKeys, Execute, Honours, Terminates, TopLevel, MergeOne, Fits, Absorb;
    if ps != [] {
      var p, f, snapshot := ps[0], fs[0], parent.writes.View().Keys;
      RestOfChildren(store, env, ps, parent);
      var child := RunSlot(store, env, p, parent).1;
      BranchTraces(f, parent);
      RunTraces(store, env, p, f, parent, FreshMachine(parent), []);
      MergeConfined(acc.tx, parent, child.tx, siblings, done, f);
      MergeOneExact(env, acc, child, snapshot, siblings);
      RestApart(store, ps, fs, done);
      if Fits(env, acc, child) {
        BudgetRest(store, env, ps[1..], fs[1..], parent, Merged(acc, child),
                   siblings + FreshKeys(child.tx, snapshot), done + f.writeTables);
        MergeRestStep(store, env, ps, parent, acc, siblings);
      }
    }
  }

  /** Members that keep apart and succeed on their branches are merged exactly
      if their events and messages fit the budgets together; otherwise the
      group fails for lack of capacity. */
  lemma BudgetExact(store: Store, env: Env, ps: seq<Program>, fs: seq<Footprint>, m: Machine)
    requires KeepApart(store, ps, fs) && Sound(m) && FirstError(Children(store, env, ps, m.tx)) == None
    ensures var r := Group(store, env, ps, m);
      && (r.Success? <==> FitInTurn(env, m, Children(store, env, ps, m.tx)))
      && (r.Failure? ==> r.error == Capacity)
  {
    hide Honours, PairwiseFree, FitInTurn, TopLevel, Numbered, Terminates;
    assert Confined(m.tx, m.tx, {}, {});
    BudgetRest(store, env, ps, fs, m.tx, m, {}, {});
  }

  /** Without any assumption on budgets: a declared group that succeeds has
      left the serial result. */
  lemma DeclaredSuccess(store: Store, env: Env, ps: seq<Program>, fs: seq<Footprint>, m: Machine)
    requires DeclaredMembers(store, env, ps, fs, m.tx, m.tx.writes.own) && Sound(m)
    requires Group(store, env, ps, m).Success?
    ensures Alike(Group(store, env, ps, m), Serial(store, env, ps, m))
  {
    hide FitInTurn, Sound, Serial, Alike, MergeAll, KeepApart, TidyMembers;
    BudgetExact(store, env, ps, fs, m);
    DeclaredGroup(store, env, ps, fs, m);
  }
}
