/** Five ways a parallel group ends differently from the serial loop, each a
    concrete input. The first four have members that keep to disjoint declared
    tables: the write set's delete of a rewritten inherited insert
    (`crates/nexum-tx/src/write_set.rs`), a listing of pending writes that still
    shows a deleted insert and budgets that each child has to itself
    (`crates/nexum-execution/src/context.rs`), and the insert-dependent index
    lookup (`crates/nexum-tx/src/transaction.rs`). In the fifth both members
    insert into one table, and handle allocation leaves no trace for the overlap
    check. They show that the conditions of `DeclaredGroup` and `CheckedGroup`
    cannot be dropped. */
module Divergence {
  import opened Values
  import opened Transaction
  import opened Branching
  import opened Program
  import opened Runs
  import opened Groups
  import opened GroupEquivalence
  import opened CheckedGroups

  /** Runs a fixed list of actions and finishes. */
  function Script(actions: seq<Action>): Program
  {
    Program((h: seq<Reply>) => if |h| < |actions| then actions[|h|] else Finish(Bool(true)), |actions|)
  }

  const ENV := Env(0, [], 0, 10, 10, 10, 10)
  const EVENT := Event("found", Bool(true))

  function TwoTables(rows: map<Key, (Row, Version)>): Store
  {
    Store(map["a" := 0, "b" := 1], rows, map[], map[], (t, row) => true, (t, index, key) => true,
          (t, index, key, row) => row == key, (t, row) => {})
  }

  lemma ScriptStep(store: Store, env: Env, actions: seq<Action>, m: Machine, h: seq<Reply>)
    requires |h| < |actions| && Continues(actions[|h|])
    ensures Terminates(Script(actions))
    ensures var (r, m') := Step(store, env, m, actions[|h|]);
      Execute(store, env, Script(actions), m, h) == Execute(store, env, Script(actions), m', h + [r])
  {
  }

  lemma ScriptEnd(store: Store, env: Env, actions: seq<Action>, m: Machine, h: seq<Reply>)
    requires |h| == |actions|
    ensures Terminates(Script(actions))
    ensures Execute(store, env, Script(actions), m, h) == (Ok(Bool(true)), m)
  {
  }

  // ------------------------------------------- a deleted row comes back

  const HANDLE := Key(0, Provisional(0))

  function InsertedMachine(): Machine
  {
    Machine(Tx(ReadSet(map[], [], map[]), WriteSet(map[], map[HANDLE := Insert([])]), map[0 := 1]), [], [])
  }

  const REWRITE := [Run(UpdateRow("a", Provisional(0), [Bool(true)])), Run(DeleteRow("a", Provisional(0)))]

  lemma RewriteSerial()
    ensures Terminates(Script(REWRITE))
    ensures var (o, m) := Execute(TwoTables(map[]), ENV, Script(REWRITE), InsertedMachine(), []);
      o.Ok? && HANDLE !in m.tx.writes.own
  {
    var store, m := TwoTables(map[]), InsertedMachine();
    ScriptStep(store, ENV, REWRITE, m, []);
    var (r1, m1) := Step(store, ENV, m, REWRITE[0]);
    assert m1.tx.writes.own == map[HANDLE := Insert([Bool(true)])];
    ScriptStep(store, ENV, REWRITE, m1, [r1]);
    var (r2, m2) := Step(store, ENV, m1, REWRITE[1]);
    assert HANDLE !in m2.tx.writes.own;
    ScriptEnd(store, ENV, REWRITE, m2, [r1] + [r2]);
  }

  lemma RewriteBranch()
    ensures Terminates(Script(REWRITE))
    ensures var (o, c) := RunSlot(TwoTables(map[]), ENV, Script(REWRITE), InsertedMachine().tx);
      o.Ok? && c.tx.writes == InsertedMachine().tx.Branch().writes && c.tx.seen.rows == map[] && c.tx.seen.tables == map[]
      && c.events == [] && c.outbound == []
  {
    var store, c := TwoTables(map[]), FreshMachine(InsertedMachine().tx);
    assert c.tx.writes.base == map[HANDLE := Insert([])];
    ScriptStep(store, ENV, REWRITE, c, []);
    var (r1, c1) := Step(store, ENV, c, REWRITE[0]);
    assert c1.tx.writes.own == map[HANDLE := Insert([Bool(true)])];
    ScriptStep(store, ENV, REWRITE, c1, [r1]);
    var (r2, c2) := Step(store, ENV, c1, REWRITE[1]);
    assert c2.tx.writes.own == map[];
    ScriptEnd(store, ENV, REWRITE, c2, [r1] + [r2]);
  }

  /** A member that rewrites and then deletes an inherited insert: serially the
      row is gone, in a group it survives. Both members honour disjoint
      footprints. */
  lemma DeletedRowSurvives()
    ensures var store, ps := TwoTables(map[]), [Script([]), Script(REWRITE)];
      var fs := [Footprint({}, {1}), Footprint({}, {0})];
      && AllTerminate(ps) && PairwiseFree(fs) && Sound(InsertedMachine())
      && Honours(store, fs[0], ps[0]) && Honours(store, fs[1], ps[1])
      && Group(store, ENV, ps, InsertedMachine()).Success? && Serial(store, ENV, ps, InsertedMachine()).Success?
      && HANDLE in Group(store, ENV, ps, InsertedMachine()).m.tx.writes.own
      && HANDLE !in Serial(store, ENV, ps, InsertedMachine()).m.tx.writes.own
  {
    var store, m := TwoTables(map[]), InsertedMachine();
    hide Execute, MergeOne, Step, Terminates, Serial, Group;
    ScriptEnd(store, ENV, [], m, []);
    ScriptEnd(store, ENV, [], FreshMachine(m.tx), []);
    RewriteSerial();
    RewriteBranch();
    RewriteMerge();
    SerialPair(store, ENV, Script([]), Script(REWRITE), m);
    GroupPair(store, ENV, Script([]), Script(REWRITE), m);
  }

  lemma RewriteMerge()
    requires Terminates(Script([])) && Terminates(Script(REWRITE))
    ensures var store, m := TwoTables(map[]), InsertedMachine();
      var c, d := RunSlot(store, ENV, Script([]), m.tx).1, RunSlot(store, ENV, Script(REWRITE), m.tx).1;
      var snapshot := m.tx.writes.View().Keys;
      var first := MergeOne(ENV, m, c, snapshot, {});
      && first.Success?
      && var second := MergeOne(ENV, first.m, d, snapshot, FreshKeys(c.tx, snapshot));
      second.Success? && HANDLE in second.m.tx.writes.own
  {
    var store, m := TwoTables(map[]), InsertedMachine();
    ScriptEnd(store, ENV, [], FreshMachine(m.tx), []);
    RewriteBranch();
    var c, d := RunSlot(store, ENV, Script([]), m.tx).1, RunSlot(store, ENV, Script(REWRITE), m.tx).1;
    hide Execute, RunSlot;
    var snapshot := m.tx.writes.View().Keys;
    EmptyMerge(ENV, m, m.tx, c, snapshot, {});
    EmptyMerge(ENV, MergeOne(ENV, m, c, snapshot, {}).m, m.tx, d, snapshot, FreshKeys(c.tx, snapshot));
  }

  /** Merging a child that wrote and recorded nothing. */
  lemma EmptyMerge(env: Env, acc: Machine, parent: Tx, c: Machine, snapshot: set<Key>, siblings: set<Key>)
    requires c.tx.writes == parent.Branch().writes && TopLevel(parent) && snapshot == parent.writes.View().Keys
    requires c.tx.seen.rows == map[] && c.tx.seen.tables == map[] && c.events == [] && c.outbound == []
    requires |acc.events| <= env.maxEvents && |acc.outbound| <= env.maxMessages
    ensures var r := MergeOne(env, acc, c, snapshot, siblings);
      r.Success? && r.m.tx.writes == acc.tx.writes && |r.m.events| == |acc.events| && |r.m.outbound| == |acc.outbound|
  {
    assert Folded(map[], parent.writes.own) == parent.writes.own;
    assert c.tx.writes.View() == parent.writes.View();
    assert FreshKeys(c.tx, snapshot) == {};
    assert Folded(acc.tx.writes.own, map[]) == acc.tx.writes.own;
  }

  // ------------------------------------------- a deleted row is still listed

  /** Deletes a row that is a pending insert, lists the pending writes, and
      emits an event when the list is not empty. */
  function Watcher(): Program
  {
    Program((h: seq<Reply>) =>
      if |h| == 0 then Run(DeleteRow("a", Provisional(0)))
      else if |h| == 1 then Run(Pending("a"))
      else if |h| == 2 && h[1] != Entries(map[]) then Emit(EVENT)
      else Finish(Bool(true)), 3)
  }

  lemma WatcherTerminates()
    ensures Terminates(Watcher())
  {
  }

  lemma WatcherTail(m: Machine, r1: Reply, t1: Tx, r2: Reply, t2: Tx)
    requires Terminates(Watcher()) && m.events == []
    requires (r1, t1) == Access(TwoTables(map[]), m.tx, DeleteRow("a", Provisional(0)))
    requires (r2, t2) == Access(TwoTables(map[]), t1, Pending("a"))
    ensures Execute(TwoTables(map[]), ENV, Watcher(), m, [])
            == (Ok(Bool(true)), Machine(t2, if r2 == Entries(map[]) then [] else [EVENT], m.outbound))
  {
    hide Access, Terminates;
    var store, p, n := TwoTables(map[]), Watcher(), m.(tx := t2);
    assert [] + [r1] == [r1];
    assert Execute(store, ENV, p, m, []) == Execute(store, ENV, p, m.(tx := t1), [] + [r1]);
    assert Execute(store, ENV, p, m.(tx := t1), [r1]) == Execute(store, ENV, p, n, [r1] + [r2]);
    var h := [r1] + [r2];
    if r2 != Entries(map[]) {
      var done := n.(events := [EVENT]);
      assert n.events + [EVENT] == [EVENT];
      assert Step(store, ENV, n, Emit(EVENT)) == (Done, done);
      assert Execute(store, ENV, p, n, h) == Execute(store, ENV, p, done, h + [Done]);
      assert |h + [Done]| == 3 && p.act(h + [Done]).Finish?;
      assert Execute(store, ENV, p, done, h + [Done]) == (Ok(Bool(true)), done);
    }
  }

  lemma WatcherSerial()
    ensures Terminates(Watcher())
    ensures var (o, m) := Execute(TwoTables(map[]), ENV, Watcher(), InsertedMachine(), []);
      o.Ok? && m.events == []
  {
    WatcherTerminates();
    var store, tx := TwoTables(map[]), InsertedMachine().tx;
    var (r1, t1) := Access(store, tx, DeleteRow("a", Provisional(0)));
    assert t1.writes.View() == map[];
    var (r2, t2) := Access(store, t1, Pending("a"));
    assert r2 == Entries(map[]);
    WatcherTail(InsertedMachine(), r1, t1, r2, t2);
  }

  lemma WatcherBranch()
    ensures Terminates(Watcher())
    ensures var (o, c) := RunSlot(TwoTables(map[]), ENV, Watcher(), InsertedMachine().tx);
      && o.Ok? && c.events == [EVENT] && c.outbound == []
      && c.tx.writes == WriteSet(map[HANDLE := Insert([])], map[HANDLE := WriteEntry.Delete])
      && c.tx.seen.rows == map[] && c.tx.seen.tables == map[]
  {
    WatcherTerminates();
    var store, c := TwoTables(map[]), FreshMachine(InsertedMachine().tx);
    assert c.tx.writes.base == map[HANDLE := Insert([])];
    var (r1, t1) := Access(store, c.tx, DeleteRow("a", Provisional(0)));
    assert t1.writes.own == map[HANDLE := WriteEntry.Delete];
    var (r2, t2) := Access(store, t1, Pending("a"));
    assert HANDLE in PendingEntries(t1.writes.View(), 0);
    WatcherTail(c, r1, t1, r2, t2);
  }

  /** A member that deletes an inherited insert and lists the pending writes:
      serially the list is empty, in a group it shows the deleted row, and the
      member reports it. Both members honour disjoint footprints. */
  lemma DeletedRowListed()
    ensures var store, ps := TwoTables(map[]), [Script([]), Watcher()];
      var fs := [Footprint({}, {1}), Footprint({}, {0})];
      && AllTerminate(ps) && PairwiseFree(fs) && Sound(InsertedMachine())
      && Honours(store, fs[0], ps[0]) && Honours(store, fs[1], ps[1])
      && Group(store, ENV, ps, InsertedMachine()).Success? && Serial(store, ENV, ps, InsertedMachine()).Success?
      && Group(store, ENV, ps, InsertedMachine()).m.events == [EVENT]
      && Serial(store, ENV, ps, InsertedMachine()).m.events == []
  {
    var store, m := TwoTables(map[]), InsertedMachine();
    hide Execute, MergeOne, Step, Terminates, Serial, Group;
    ScriptEnd(store, ENV, [], m, []);
    ScriptEnd(store, ENV, [], FreshMachine(m.tx), []);
    WatcherSerial();
    WatcherBranch();
    WatcherMerge();
    SerialPair(store, ENV, Script([]), Watcher(), m);
    GroupPair(store, ENV, Script([]), Watcher(), m);
  }

  lemma WatcherMerge()
    requires Terminates(Script([])) && Terminates(Watcher())
    ensures var store, m := TwoTables(map[]), InsertedMachine();
      var c, d := RunSlot(store, ENV, Script([]), m.tx).1, RunSlot(store, ENV, Watcher(), m.tx).1;
      var snapshot := m.tx.writes.View().Keys;
      var first := MergeOne(ENV, m, c, snapshot, {});
      && first.Success?
      && var second := MergeOne(ENV, first.m, d, snapshot, FreshKeys(c.tx, snapshot));
      second.Success? && second.m.events == [EVENT]
  {
    var store, m := TwoTables(map[]), InsertedMachine();
    ScriptEnd(store, ENV, [], FreshMachine(m.tx), []);
    WatcherBranch();
    var c, d := RunSlot(store, ENV, Script([]), m.tx).1, RunSlot(store, ENV, Watcher(), m.tx).1;
    hide Execute, RunSlot, Folded, Absorb;
    var snapshot := m.tx.writes.View().Keys;
    EmptyMerge(ENV, m, m.tx, c, snapshot, {});
    hide MergeOne;
    assert snapshot == {HANDLE};
    EventMerge(MergeOne(ENV, m, c, snapshot, {}).m, d, snapshot, FreshKeys(c.tx, snapshot));
  }

  lemma EventMerge(acc: Machine, d: Machine, snapshot: set<Key>, siblings: set<Key>)
    requires acc.events == [] && |acc.outbound| == 0 && d.events == [EVENT] && d.outbound == []
    requires d.tx.writes.View().Keys <= snapshot && d.tx.seen.rows == map[] && d.tx.seen.tables == map[]
    ensures MergeOne(ENV, acc, d, snapshot, siblings).Success? && MergeOne(ENV, acc, d, snapshot, siblings).m.events == [EVENT]
  {
    assert FreshKeys(d.tx, snapshot) == {};
    assert acc.events + [EVENT] == [EVENT];
  }

  // ----------------------------- a lookup depends on another table's insert

  const MOVED := Key(1, Real(0))
  const ADD := [Run(InsertRow("a", []))]

  function OneRow(): Store { TwoTables(map[MOVED := ([Bool(false)], 1)]) }

  function EmptyMachine(): Machine { Machine(EmptyTx(), [], []) }

  /** Moves a row onto an index key, looks the key up, and emits an event when
      the lookup finds it. */
  function Finder(): Program
  {
    Program((h: seq<Reply>) =>
      if |h| == 0 then Run(UpdateRow("b", Real(0), [Bool(true)]))
      else if |h| == 1 then Run(Lookup("b", "index", [Bool(true)]))
      else if |h| == 2 && h[1] != Owners({}) then Emit(EVENT)
      else Finish(Bool(true)), 3)
  }

  /** The two operations of the finder, with and without an insert pending in
      the other table. */
  lemma FinderReplies(tx: Tx)
    requires tx.writes.View() == map[] || tx.writes.View() == map[HANDLE := Insert([])]
    requires tx.writes.own == tx.writes.View() && tx.writes.base == map[]
    ensures var store := OneRow();
      var (r1, t1) := Access(store, tx, UpdateRow("b", Real(0), [Bool(true)]));
      var (r2, t2) := Access(store, t1, Lookup("b", "index", [Bool(true)]));
      && r2 == Owners(if tx.writes.own == map[] then {} else {MOVED})
      && t2.writes == WriteSet(map[], tx.writes.own[MOVED := Update([Bool(true)])])
      && t2.seen.rows == tx.seen.rows[MOVED := Some(1)]
      && t2.seen.tables == tx.seen.tables[1 := 0]
      && t2.provisional == tx.provisional
  {
    var store := OneRow();
    var (r1, t1) := Access(store, tx, UpdateRow("b", Real(0), [Bool(true)]));
    assert t1.writes == WriteSet(map[], tx.writes.own[MOVED := Update([Bool(true)])]);
    var w := t1.writes;
    assert w.View() == w.own;
    assert CommittedOwners(store, w.View(), 1, "index", [Bool(true)]) == {};
    assert PendingOwners(store, w.View(), 1, "index", [Bool(true)]) == {MOVED};
    if tx.writes.own == map[] {
      assert !w.HasAnyInsert();
    } else {
      assert HANDLE in w.own && w.own[HANDLE].Insert?;
    }
  }

  lemma FinderRun(m: Machine)
    requires m.tx.writes.View() == map[] || m.tx.writes.View() == map[HANDLE := Insert([])]
    requires m.tx.writes.own == m.tx.writes.View() && m.tx.writes.base == map[] && m.events == []
    ensures Terminates(Finder())
    ensures var (o, n) := Execute(OneRow(), ENV, Finder(), m, []);
      && o.Ok?
      && n.events == (if m.tx.writes.own == map[] then [] else [EVENT])
      && n.outbound == m.outbound
      && n.tx.writes == WriteSet(map[], m.tx.writes.own[MOVED := Update([Bool(true)])])
      && n.tx.seen.rows == m.tx.seen.rows[MOVED := Some(1)]
      && n.tx.seen.tables == m.tx.seen.tables[1 := 0]
  {
    hide Access, Terminates;
    assert Terminates(Finder()) by { FinderTerminates(); }
    FinderReplies(m.tx);
    var (r1, t1) := Access(OneRow(), m.tx, UpdateRow("b", Real(0), [Bool(true)]));
    var (r2, t2) := Access(OneRow(), t1, Lookup("b", "index", [Bool(true)]));
    FinderTail(m, r1, t1, r2, t2);
  }

  lemma FinderTerminates()
    ensures Terminates(Finder())
  {
  }

  lemma FinderTail(m: Machine, r1: Reply, t1: Tx, r2: Reply, t2: Tx)
    requires Terminates(Finder()) && m.events == []
    requires (r1, t1) == Access(OneRow(), m.tx, UpdateRow("b", Real(0), [Bool(true)]))
    requires (r2, t2) == Access(OneRow(), t1, Lookup("b", "index", [Bool(true)]))
    ensures Execute(OneRow(), ENV, Finder(), m, [])
            == (Ok(Bool(true)), Machine(t2, if r2 == Owners({}) then [] else [EVENT], m.outbound))
  {
    hide Access, Terminates;
    var store, p, n := OneRow(), Finder(), m.(tx := t2);
    assert [] + [r1] == [r1];
    assert Execute(store, ENV, p, m, []) == Execute(store, ENV, p, m.(tx := t1), [] + [r1]);
    assert Execute(store, ENV, p, m.(tx := t1), [r1]) == Execute(store, ENV, p, n, [r1] + [r2]);
    var h := [r1] + [r2];
    if r2 != Owners({}) {
      var done := n.(events := [EVENT]);
      assert n.events + [EVENT] == [EVENT];
      assert Step(store, ENV, n, Emit(EVENT)) == (Done, done);
      assert Execute(store, ENV, p, n, h) == Execute(store, ENV, p, done, h + [Done]);
      assert |h + [Done]| == 3 && p.act(h + [Done]).Finish?;
      assert Execute(store, ENV, p, done, h + [Done]) == (Ok(Bool(true)), done);
    }
  }

  lemma AddRun(m: Machine)
    requires m.tx.writes.own == map[] && m.tx.writes.base == map[] && m.tx.provisional == map[]
    ensures Terminates(Script(ADD))
    ensures Execute(OneRow(), ENV, Script(ADD), m, [])
            == (Ok(Bool(true)), m.(tx := m.tx.(writes := WriteSet(map[], map[HANDLE := Insert([])]), provisional := map[0 := 1])))
  {
    ScriptStep(OneRow(), ENV, ADD, m, []);
    var (r, m') := Step(OneRow(), ENV, m, ADD[0]);
    ScriptEnd(OneRow(), ENV, ADD, m', [r]);
  }

  /** Members with disjoint, honoured footprints whose serial run emits an
      event that the group does not emit. */
  lemma LookupDependsOnSibling()
    ensures var store, ps := OneRow(), [Script(ADD), Finder()];
      var fs := [Footprint({}, {0}), Footprint({}, {1})];
      && AllTerminate(ps) && PairwiseFree(fs) && Sound(EmptyMachine())
      && Honours(store, fs[0], ps[0]) && Honours(store, fs[1], ps[1])
      && Group(store, ENV, ps, EmptyMachine()).Success? && Serial(store, ENV, ps, EmptyMachine()).Success?
      && Group(store, ENV, ps, EmptyMachine()).m.events == []
      && Serial(store, ENV, ps, EmptyMachine()).m.events == [EVENT]
  {
    hide Execute, MergeOne, Step, Terminates, Serial, Group;
    var store, m := OneRow(), EmptyMachine();
    AddRun(m);
    FinderRun(Execute(store, ENV, Script(ADD), m, []).1);
    SerialPair(store, ENV, Script(ADD), Finder(), m);
    EmptyBranch();
    AddRun(FreshMachine(m.tx));
    FinderRun(FreshMachine(m.tx));
    GroupPair(store, ENV, Script(ADD), Finder(), m);
    LookupMerge(RunSlot(store, ENV, Script(ADD), m.tx).1, RunSlot(store, ENV, Finder(), m.tx).1);
  }

  lemma EmptyBranch()
    ensures EmptyTx().Branch() == EmptyTx()
  {
    assert Folded(map[], map[]) == map[];
  }

  lemma LookupMerge(c: Machine, d: Machine)
    requires c.events == [] && d.events == [] && c.outbound == [] && d.outbound == []
    requires c.tx.writes == WriteSet(map[], map[HANDLE := Insert([])])
    requires c.tx.seen.rows == map[] && c.tx.seen.tables == map[]
    requires d.tx.writes == WriteSet(map[], map[MOVED := Update([Bool(true)])])
    requires d.tx.seen.rows == map[MOVED := Some(1)] && d.tx.seen.tables == map[1 := 0]
    ensures var m := EmptyMachine();
      var snapshot := m.tx.writes.View().Keys;
      var first := MergeOne(ENV, m, c, snapshot, {});
      && first.Success?
      && var second := MergeOne(ENV, first.m, d, snapshot, FreshKeys(c.tx, snapshot));
      second.Success? && second.m.events == []
  {
    var snapshot := EmptyMachine().tx.writes.View().Keys;
    assert snapshot == {};
    assert FreshKeys(c.tx, snapshot) == {HANDLE};
    assert FreshKeys(d.tx, snapshot) == {MOVED};
    assert {MOVED} * {HANDLE} == {};
    assert d.tx.seen.rows.Keys == {MOVED};
  }

  // ---------------------------------------- a budget is spent per child

  const ONE_EVENT := Env(0, [], 0, 1, 10, 10, 10)
  const REPORT := [Emit(EVENT)]

  lemma ReportRun(m: Machine)
    requires |m.events| <= 1
    ensures Terminates(Script(REPORT))
    ensures Execute(OneRow(), ONE_EVENT, Script(REPORT), m, [])
            == (Ok(Bool(true)), if m.events == [] then m.(events := [EVENT]) else m)
  {
    ScriptStep(OneRow(), ONE_EVENT, REPORT, m, []);
    var (r, m') := Step(OneRow(), ONE_EVENT, m, REPORT[0]);
    assert [] + [EVENT] == [EVENT];
    assert m' == if m.events == [] then m.(events := [EVENT]) else m;
    ScriptEnd(OneRow(), ONE_EVENT, REPORT, m', [r]);
  }

  /** Two members that touch no table and report one event each, where one
      event is allowed: serially the second is refused its event and goes on,
      the group fails. */
  lemma BudgetPerChild()
    ensures var store, ps := OneRow(), [Script(REPORT), Script(REPORT)];
      var fs := [Footprint({}, {}), Footprint({}, {})];
      && KeepApart(store, ps, fs) && Sound(EmptyMachine())
      && Serial(store, ONE_EVENT, ps, EmptyMachine()).Success?
      && Group(store, ONE_EVENT, ps, EmptyMachine()).Failure?
  {
    hide Execute, MergeOne, Step, Terminates, Serial, Group;
    var store, m := OneRow(), EmptyMachine();
    ReportRun(m);
    ReportRun(m.(events := [EVENT]));
    SerialPair(store, ONE_EVENT, Script(REPORT), Script(REPORT), m);
    EmptyBranch();
    GroupPair(store, ONE_EVENT, Script(REPORT), Script(REPORT), m);
    ReportMerge(RunSlot(store, ONE_EVENT, Script(REPORT), m.tx).1);
  }

  lemma ReportMerge(c: Machine)
    requires c == EmptyMachine().(events := [EVENT])
    ensures var m := EmptyMachine();
      var snapshot := m.tx.writes.View().Keys;
      var first := MergeOne(ONE_EVENT, m, c, snapshot, {});
      && first.Success?
      && MergeOne(ONE_EVENT, first.m, c, snapshot, FreshKeys(c.tx, snapshot)).Failure?
  {
    assert FreshKeys(c.tx, EmptyMachine().tx.writes.View().Keys) == {};
    assert [] + [EVENT] == [EVENT];
  }

  // -------------------------------------- handles leave no trace behind

  const ADD_AND_DROP := [Run(InsertRow("a", [])), Run(DeleteRow("a", Provisional(0)))]

  lemma DropRun(m: Machine)
    requires m.tx.writes.own == map[] && m.tx.writes.base == map[] && m.tx.provisional == map[]
    ensures Terminates(Script(ADD_AND_DROP))
    ensures Execute(OneRow(), ENV, Script(ADD_AND_DROP), m, [])
            == (Ok(Bool(true)), m.(tx := m.tx.(provisional := map[0 := 1])))
  {
    var store := OneRow();
    ScriptStep(store, ENV, ADD_AND_DROP, m, []);
    var (r1, m1) := Step(store, ENV, m, ADD_AND_DROP[0]);
    assert m1.tx.writes.own == map[HANDLE := Insert([])] && m1.tx.provisional == map[0 := 1];
    ScriptStep(store, ENV, ADD_AND_DROP, m1, [r1]);
    var (r2, m2) := Step(store, ENV, m1, ADD_AND_DROP[1]);
    assert m2.tx.writes.own == map[];
    ScriptEnd(store, ENV, ADD_AND_DROP, m2, [r1] + [r2]);
  }

  lemma SecondAdd(m: Machine)
    requires m.tx.writes.own == map[] && m.tx.writes.base == map[] && m.tx.provisional == map[0 := 1]
    ensures Terminates(Script(ADD))
    ensures var (o, n) := Execute(OneRow(), ENV, Script(ADD), m, []);
      o.Ok? && n.tx.writes.own == map[Key(0, Provisional(1)) := Insert([])]
  {
    ScriptStep(OneRow(), ENV, ADD, m, []);
    var (r, m') := Step(OneRow(), ENV, m, ADD[0]);
    ScriptEnd(OneRow(), ENV, ADD, m', [r]);
  }

  /** Two members insert into one table; the first deletes its row again. No
      check sees the clash, and the second insert gets another handle than in
      the serial loop. */
  lemma HandleClashUnnoticed()
    ensures var store, ps := OneRow(), [Script(ADD_AND_DROP), Script(ADD)];
      && AllTerminate(ps) && Sound(EmptyMachine())
      && Group(store, ENV, ps, EmptyMachine()).Success? && Serial(store, ENV, ps, EmptyMachine()).Success?
      && HANDLE in Group(store, ENV, ps, EmptyMachine()).m.tx.writes.own
      && HANDLE !in Serial(store, ENV, ps, EmptyMachine()).m.tx.writes.own
  {
    hide Execute, MergeOne, Step, Terminates, Serial, Group;
    var store, m := OneRow(), EmptyMachine();
    DropRun(m);
    SecondAdd(Execute(store, ENV, Script(ADD_AND_DROP), m, []).1);
    SerialPair(store, ENV, Script(ADD_AND_DROP), Script(ADD), m);
    EmptyBranch();
    DropRun(FreshMachine(m.tx));
    AddRun(FreshMachine(m.tx));
    GroupPair(store, ENV, Script(ADD_AND_DROP), Script(ADD), m);
    HandleMerge(RunSlot(store, ENV, Script(ADD_AND_DROP), m.tx).1, RunSlot(store, ENV, Script(ADD), m.tx).1);
  }

  lemma HandleMerge(c: Machine, d: Machine)
    requires c.events == [] && d.events == [] && c.outbound == [] && d.outbound == []
    requires c.tx.writes == WriteSet(map[], map[])
    requires c.tx.seen.rows == map[] && c.tx.seen.tables == map[]
    requires d.tx.writes == WriteSet(map[], map[HANDLE := Insert([])])
    requires d.tx.seen.rows == map[] && d.tx.seen.tables == map[]
    ensures var m := EmptyMachine();
      var snapshot := m.tx.writes.View().Keys;
      var first := MergeOne(ENV, m, c, snapshot, {});
      && first.Success?
      && var second := MergeOne(ENV, first.m, d, snapshot, FreshKeys(c.tx, snapshot));
      second.Success? && HANDLE in second.m.tx.writes.own
  {
    var snapshot := EmptyMachine().tx.writes.View().Keys;
    assert snapshot == {};
    assert FreshKeys(c.tx, snapshot) == {};
  }

  // ------------------------------------------------------ pairs of members

  /** The serial loop over two members. */
  lemma SerialPair(store: Store, env: Env, p: Program, q: Program, m: Machine)
    requires Terminates(p) && Terminates(q)
    requires Execute(store, env, p, m, []).0.Ok?
    ensures AllTerminate([p, q])
    ensures var (o, m') := Execute(store, env, q, Execute(store, env, p, m, []).1, []);
      Serial(store, env, [p, q], m) == (if o.Ok? then Success(m') else Failure(o.error, m'))
  {
    hide Execute;
    assert [p, q][1..] == [q] && [q][1..] == [];
    var m1 := Execute(store, env, p, m, []).1;
    var m2 := Execute(store, env, q, m1, []).1;
    assert Serial(store, env, [], m2) == Success(m2);
    assert Serial(store, env, [p, q], m) == Serial(store, env, [q], m1);
  }

  /** The group over two members that succeed. */
  lemma GroupPair(store: Store, env: Env, p: Program, q: Program, m: Machine)
    requires Terminates(p) && Terminates(q)
    requires RunSlot(store, env, p, m.tx).0.Ok? && RunSlot(store, env, q, m.tx).0.Ok?
    ensures AllTerminate([p, q])
    ensures var snapshot := m.tx.writes.View().Keys;
      var c, d := RunSlot(store, env, p, m.tx).1, RunSlot(store, env, q, m.tx).1;
      var first := MergeOne(env, m, c, snapshot, {});
      first.Success? ==>
        Group(store, env, [p, q], m) == MergeOne(env, first.m, d, snapshot, FreshKeys(c.tx, snapshot))
  {
    hide RunSlot, MergeOne, FreshKeys, Terminates;
    var cs := Children(store, env, [p, q], m.tx);
    assert cs == [RunSlot(store, env, p, m.tx), RunSlot(store, env, q, m.tx)];
    assert cs[1..] == [cs[1]] && [cs[1]][1..] == [];
    assert FirstError(cs[1..]) == None;
    var c, d, snapshot := cs[0].1, cs[1].1, m.tx.writes.View().Keys;
    assert Machines(cs) == [c, d];
    assert [c, d][1..] == [d] && [d][1..] == [];
    var second := FreshKeys(c.tx, snapshot);
    var first := MergeOne(env, m, c, snapshot, {});
    if first.Success? {
      var r := MergeOne(env, first.m, d, snapshot, second);
      assert MergeAll(env, [d], first.m, snapshot, second) == r;
    }
    assert {} + FreshKeys(c.tx, snapshot) == FreshKeys(c.tx, snapshot);
  }
}
