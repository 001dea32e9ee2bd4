/** Groups whose members touch whatever they like
    (`crates/nexum-execution/src/parallel.rs`, the checks before each merge):
    when the group succeeds, it left exactly the serial result. What the checks
    keep no record of is asked of each member's own branch run: it leaves rows
    already pending alone, goes only through handles it was given, and keeps
    the first handle of a table it shares with another inserter. */
module CheckedGroups {
  import opened Values
  import opened Transaction
  import opened Branching
  import opened Program
  import opened Runs
  import opened Groups
  import opened GroupEquivalence

  // ------------------------------------------------------- one operation

  /** A handle that was pending at the group's start or that one of the
      child's own inserts returned. */
  predicate HandleOk(parent: Tx, c: Tx, k: Key)
  {
    || k in c.writes.base
    || (k.row.Provisional? && CounterOf(parent.provisional, k.table) <= k.row.n < CounterOf(c.provisional, k.table))
  }

  predicate InsertVisible(c: Tx, t: TableId)
  {
    exists k :: k in c.writes.View() && k.table == t && c.writes.View()[k].Insert?
  }

  /** The operations that leave no observation behind, kept off the rows in
      which `before`, the writes pending at the member's turn, differs from the
      group's start. */
  ghost predicate Traceable(store: Store, parent: Tx, before: Writes, c: Tx, op: Op)
  {
    op.table in store.names ==>
      var t, w := store.names[op.table], parent.writes.own;
      match op
      case Pending(_) => TableAgrees(before, w, t)
      case Get(_, r) => HandleClear(parent, before, c, Key(t, r))
      case Contains(_, r) => HandleClear(parent, before, c, Key(t, r))
      case UpdateRow(_, r, _) => HandleClear(parent, before, c, Key(t, r))
      case DeleteRow(_, r) => HandleClear(parent, before, c, Key(t, r))
      case Lookup(_, _, _) => InsertVisible(c, t) || Settled(store, before, c, op)
      case _ => true
  }

  ghost predicate HandleClear(parent: Tx, before: Writes, c: Tx, k: Key)
  {
    k.row.Provisional? ==> HandleOk(parent, c, k) || !Differs(before, parent.writes.own, k)
  }

  ghost predicate Disciplined(store: Store, env: Env, p: Program, parent: Tx, before: Writes, c: Machine, h: seq<Reply>)
    requires Terminates(p)
    decreases p.bound - |h|
  {
    var a := p.act(h);
    Continues(a) ==>
      && (a.Run? ==> Tidy(store, c.tx, a.op) && Traceable(store, parent, before, c.tx, a.op))
      && var (r, c') := Step(store, env, c, a);
      Disciplined(store, env, p, parent, before, c', h + [r])
  }

  // ------------------------------------------------------- what a run keeps

  /** What a child has recorded stays recorded. */
  ghost predicate Precedes(a: Tx, b: Tx)
  {
    && b.writes.base == a.writes.base
    && a.seen.rows.Keys <= b.seen.rows.Keys
    && a.seen.tables.Keys <= b.seen.tables.Keys
    && (forall k :: k in a.writes.own && k.row.Real? ==> k in b.writes.own)
    && Grown(b.provisional, a.provisional)
  }

  /** Handles in the child's own layer are inherited or allocated by itself. */
  ghost predicate OwnHandles(parent: Tx, c: Tx)
  {
    && Grown(c.provisional, parent.provisional)
    && forall k :: k in c.writes.own && k.row.Provisional? ==> HandleOk(parent, c, k)
  }

  /** Inserts sit at handles, so coalescing never drops a real row. */
  ghost predicate InsertsAtHandles(w: WriteSet)
  {
    && (forall k :: k in w.own && w.own[k].Insert? ==> k.row.Provisional?)
    && (forall k :: k in w.base && w.base[k].Insert? ==> k.row.Provisional?)
  }

  lemma AccessPrecedes(store: Store, c: Tx, op: Op)
    requires InsertsAtHandles(c.writes)
    ensures Precedes(c, Access(store, c, op).1) && InsertsAtHandles(Access(store, c, op).1.writes)
  {
    hide Access, Precedes, InsertsAtHandles;
    if op.DeleteRow? {
      DeletePrecedes(store, c, op);
    } else if op.UpdateRow? {
      UpdatePrecedes(store, c, op);
    } else {
      OtherPrecedes(store, c, op);
    }
  }

  lemma DeletePrecedes(store: Store, c: Tx, op: Op)
    requires InsertsAtHandles(c.writes) && op.DeleteRow?
    ensures Precedes(c, Access(store, c, op).1) && InsertsAtHandles(Access(store, c, op).1.writes)
  {
  }

  lemma UpdatePrecedes(store: Store, c: Tx, op: Op)
    requires InsertsAtHandles(c.writes) && op.UpdateRow?
    ensures Precedes(c, Access(store, c, op).1) && InsertsAtHandles(Access(store, c, op).1.writes)
  {
  }

  lemma OtherPrecedes(store: Store, c: Tx, op: Op)
    requires InsertsAtHandles(c.writes) && !op.DeleteRow? && !op.UpdateRow?
    ensures Precedes(c, Access(store, c, op).1) && InsertsAtHandles(Access(store, c, op).1.writes)
  {
    hide ScanRows, LookupOwners, PendingEntries;
  }

  lemma AccessOwnHandles(store: Store, parent: Tx, c: Tx, op: Op)
    requires InsertsAtHandles(c.writes) && OwnHandles(parent, c)
    ensures OwnHandles(parent, Access(store, c, op).1)
  {
    hide Access, OwnHandles, InsertsAtHandles;
    if op.DeleteRow? {
      DeleteOwnHandles(store, parent, c, op);
    } else if op.UpdateRow? {
      UpdateOwnHandles(store, parent, c, op);
    } else {
      OtherOwnHandles(store, parent, c, op);
    }
  }

  lemma DeleteOwnHandles(store: Store, parent: Tx, c: Tx, op: Op)
    requires InsertsAtHandles(c.writes) && OwnHandles(parent, c) && op.DeleteRow?
    ensures OwnHandles(parent, Access(store, c, op).1)
  {
  }

  lemma UpdateOwnHandles(store: Store, parent: Tx, c: Tx, op: Op)
    requires InsertsAtHandles(c.writes) && OwnHandles(parent, c) && op.UpdateRow?
    ensures OwnHandles(parent, Access(store, c, op).1)
  {
  }

  lemma OtherOwnHandles(store: Store, parent: Tx, c: Tx, op: Op)
    requires OwnHandles(parent, c) && !op.DeleteRow? && !op.UpdateRow?
    ensures OwnHandles(parent, Access(store, c, op).1)
  {
    hide ScanRows, LookupOwners, PendingEntries;
  }

  lemma {:induction false} RunPrecedes(store: Store, env: Env, p: Program, parent: Tx, c: Machine, h: seq<Reply>)
    requires Terminates(p) && InsertsAtHandles(c.tx.writes) && OwnHandles(parent, c.tx)
    ensures Precedes(c.tx, Execute(store, env, p, c, h).1.tx) && OwnHandles(parent, Execute(store, env, p, c, h).1.tx)
    decreases p.bound - |h|
  {
    hide Access, InsertsAtHandles, OwnHandles;
    var a := p.act(h);
    if Continues(a) {
      if a.Run? {
        AccessPrecedes(store, c.tx, a.op);
        AccessOwnHandles(store, parent, c.tx, a.op);
      }
      var (r, c') := Step(store, env, c, a);
      RunPrecedes(store, env, p, parent, c', h + [r]);
    }
  }

  // ------------------------------------------------------------ the checks

  /** The finished child `last` passed the checks against `siblings`. */
  ghost predicate Passed(last: Tx, siblings: set<Key>)
  {
    && last.writes.own.Keys !! siblings
    && last.seen.rows.Keys !! siblings
    && (forall k :: k in siblings ==> k.table !in last.seen.tables)
  }

  /** Only rows written by earlier siblings differ, none of them pending at
      the group's start. */
  ghost predicate OnlySiblings(start: Tx, parent: Tx, siblings: set<Key>)
  {
    && (forall k :: Differs(start.writes.own, parent.writes.own, k) ==> k in siblings)
    && siblings !! parent.writes.own.Keys
  }

  /** The child has allocated a handle of table `t`. */
  predicate Allocs(parent: Tx, c: Tx, t: TableId)
  {
    CounterOf(c.provisional, t) > CounterOf(parent.provisional, t)
  }

  /** The first handle any child of `parent` allocates in table `t`. */
  function FirstHandle(parent: Tx, t: TableId): Key
  {
    Key(t, Provisional(CounterOf(parent.provisional, t)))
  }

  /** Where both the siblings and this member allocated, both still hold the
      first handle. */
  ghost predicate Guarded(parent: Tx, start: Tx, siblings: set<Key>, last: Tx)
  {
    forall t :: Allocs(parent, start, t) && Allocs(parent, last, t) ==>
      FirstHandle(parent, t) in siblings && FirstHandle(parent, t) in last.writes.own
  }

  /** Handles among the siblings' rows come from their own inserts. */
  ghost predicate SiblingsAllocated(parent: Tx, start: Tx, siblings: set<Key>)
  {
    forall k :: k in siblings && k.row.Provisional? ==> Allocs(parent, start, k.table)
  }

  /** A member that passes the checks shares no allocating table with its
      siblings: both would hold the first handle. */
  lemma NoSharedAllocation(parent: Tx, start: Tx, siblings: set<Key>, last: Tx, t: TableId)
    requires Guarded(parent, start, siblings, last) && Passed(last, siblings)
    ensures !(Allocs(parent, start, t) && Allocs(parent, last, t))
  {
  }

  /** What is known of a member at the point of its merge. */
  ghost predicate AtMerge(start: Tx, parent: Tx, siblings: set<Key>, last: Tx)
  {
    && OnlySiblings(start, parent, siblings) && Passed(last, siblings)
    && Guarded(parent, start, siblings, last) && SiblingsAllocated(parent, start, siblings)
    && Grown(start.provisional, parent.provisional)
  }

  /** The handle is not one of the siblings'. */
  lemma HandleUnshared(start: Tx, parent: Tx, c: Tx, last: Tx, siblings: set<Key>, k: Key)
    requires AtMerge(start, parent, siblings, last) && Precedes(c, last)
    requires c.writes.base == parent.writes.own && HandleClear(parent, start.writes.own, c, k) && k.row.Provisional?
    ensures !Differs(start.writes.own, parent.writes.own, k)
  {
    hide Passed, Guarded, Differs;
    if HandleOk(parent, c, k) && k !in c.writes.base {
      assert CounterOf(c.provisional, k.table) <= CounterOf(last.provisional, k.table);
      NoSharedAllocation(parent, start, siblings, last, k.table);
    }
  }

  /** Neither is the row, if the child recorded or wrote it. */
  lemma RowUnshared(start: Tx, parent: Tx, c: Tx, c': Tx, k: Key, last: Tx, siblings: set<Key>)
    requires AtMerge(start, parent, siblings, last) && Precedes(c, last) && Precedes(c', last)
    requires c.writes.base == parent.writes.own && HandleClear(parent, start.writes.own, c, k)
    requires k.row.Real? ==> k in c.writes.View() || k in c'.seen.rows || k in c'.writes.own
    ensures !Differs(start.writes.own, parent.writes.own, k)
  {
    if k.row.Provisional? { HandleUnshared(start, parent, c, last, siblings, k); }
  }

  lemma TableUnshared(start: Tx, parent: Tx, c': Tx, last: Tx, siblings: set<Key>, t: TableId)
    requires AtMerge(start, parent, siblings, last) && Precedes(c', last) && t in c'.seen.tables
    ensures TableAgrees(start.writes.own, parent.writes.own, t)
  {
  }

  /** An operation of a child that passes the checks in the end saw nothing
      its siblings wrote. */
  lemma PassedBlind(store: Store, start: Tx, parent: Tx, c: Tx, op: Op, last: Tx, siblings: set<Key>)
    requires AtMerge(start, parent, siblings, last)
    requires c.writes.base == parent.writes.own && Grown(c.provisional, parent.provisional)
    requires Precedes(c, last) && Precedes(Access(store, c, op).1, last)
    requires Traceable(store, parent, start.writes.own, c, op)
    ensures Blind(store, start, parent, op) && Settled(store, start.writes.own, c, op)
  {
    if op.Lookup? {
      LookupBlind(store, start, parent, c, op, last, siblings);
    } else {
      NotALookup(store, start.writes.own, c, op);
      if op.table in store.names {
        if op.InsertRow? {
          InsertBlind(store, start, parent, c, op, last, siblings);
        } else {
          AccessBlind(store, start, parent, c, op, last, siblings);
        }
      }
    }
  }

  lemma InsertBlind(store: Store, start: Tx, parent: Tx, c: Tx, op: Op, last: Tx, siblings: set<Key>)
    requires AtMerge(start, parent, siblings, last) && op.InsertRow? && op.table in store.names
    requires Grown(c.provisional, parent.provisional) && Precedes(Access(store, c, op).1, last)
    ensures Blind(store, start, parent, op)
  {
    hide OnlySiblings, Passed, Guarded, SiblingsAllocated;
    var t := store.names[op.table];
    if store.rowValid(t, op.value) {
      assert CounterOf(Access(store, c, op).1.provisional, t) == CounterOf(c.provisional, t) + 1;
      assert Allocs(parent, last, t);
      NoSharedAllocation(parent, start, siblings, last, t);
    }
  }

  lemma LookupBlind(store: Store, start: Tx, parent: Tx, c: Tx, op: Op, last: Tx, siblings: set<Key>)
    requires AtMerge(start, parent, siblings, last) && op.Lookup? && c.writes.base == parent.writes.own
    requires Precedes(Access(store, c, op).1, last) && Traceable(store, parent, start.writes.own, c, op)
    ensures Blind(store, start, parent, op) && Settled(store, start.writes.own, c, op)
  {
    hide AtMerge, Precedes, LookupOwners, Differs, Settled;
    if op.table in store.names {
      var t := store.names[op.table];
      TableUnshared(start, parent, Access(store, c, op).1, last, siblings, t);
      if k :| k in c.writes.View() && k.table == t && c.writes.View()[k].Insert? {
        SettledByTable(store, start.writes.own, c, op, k);
      }
    } else {
      NotALookup(store, start.writes.own, c, op);
    }
  }

  lemma AccessBlind(store: Store, start: Tx, parent: Tx, c: Tx, op: Op, last: Tx, siblings: set<Key>)
    requires AtMerge(start, parent, siblings, last) && !op.InsertRow? && !op.Lookup? && op.table in store.names
    requires c.writes.base == parent.writes.own && Precedes(c, last) && Precedes(Access(store, c, op).1, last)
    requires Traceable(store, parent, start.writes.own, c, op)
    ensures Blind(store, start, parent, op)
  {
    hide AtMerge, Precedes, Differs, HandleClear, ScanRows, PendingEntries;
    var t := store.names[op.table];
    var c' := Access(store, c, op).1;
    match op
    case Get(_, r) => RowUnshared(start, parent, c, c', Key(t, r), last, siblings);
    case Contains(_, r) => RowUnshared(start, parent, c, c', Key(t, r), last, siblings);
    case UpdateRow(_, r, row) =>
      if store.rowValid(t, row) { RowUnshared(start, parent, c, c', Key(t, r), last, siblings); }
    case DeleteRow(_, r) => RowUnshared(start, parent, c, c', Key(t, r), last, siblings);
    case Scan(_) => TableUnshared(start, parent, c', last, siblings, t);
    case Pending(_) =>
  }

  lemma {:induction false} PassedClear(store: Store, env: Env, p: Program, start: Machine, parent: Tx,
                                       c: Machine, h: seq<Reply>, siblings: set<Key>)
    requires Terminates(p) && c.tx.writes.base == parent.writes.own
    requires InsertsAtHandles(c.tx.writes) && OwnHandles(parent, c.tx)
    requires Disciplined(store, env, p, parent, start.tx.writes.own, c, h)
    requires var last := Execute(store, env, p, c, h).1;
      Fits(env, start, last) && AtMerge(start.tx, parent, siblings, last.tx)
    ensures Clear(store, env, p, start, parent, c, h)
    decreases p.bound - |h|
  {
    hide Differs, Access, Tidy, Settled, Fits, BudgetBlind, Blind, Traceable, AtMerge, InsertsAtHandles;
    var a := p.act(h);
    if Continues(a) {
      FitsAgrees(store, env, p, start, c, h, a);
      var (r, c') := Step(store, env, c, a);
      var last := Execute(store, env, p, c, h).1.tx;
      RunPrecedes(store, env, p, parent, c, h);
      if a.Run? {
        AccessPrecedes(store, c.tx, a.op);
        AccessOwnHandles(store, parent, c.tx, a.op);
        RunPrecedes(store, env, p, parent, c', h + [r]);
        PassedBlind(store, start.tx, parent, c.tx, a.op, last, siblings);
      }
      PassedClear(store, env, p, start, parent, c', h + [r], siblings);
    }
  }

  // ----------------------------------------------------------- the members

  /** Two members that both insert into one table both still hold its first
      handle at their end. */
  ghost predicate BothHold(parent: Tx, c: Tx, d: Tx)
  {
    forall t :: Allocs(parent, c, t) && Allocs(parent, d, t) ==>
      FirstHandle(parent, t) in c.writes.own && FirstHandle(parent, t) in d.writes.own
  }

  /** Every member is disciplined against the writes its predecessors left
      pending and leaves the rows pending at the group's start alone. All of it
      is about the members' own branch runs. */
  ghost predicate DisciplinedMembers(store: Store, env: Env, ps: seq<Program>, parent: Tx, before: Writes)
    requires AllTerminate(ps)
    decreases |ps|
  {
    ps != [] ==>
      var child := RunSlot(store, env, ps[0], parent).1.tx;
      && Disciplined(store, env, ps[0], parent, before, FreshMachine(parent), [])
      && child.writes.own.Keys !! parent.writes.own.Keys
      && (forall j :: 0 < j < |ps| ==> BothHold(parent, child, RunSlot(store, env, ps[j], parent).1.tx))
      && DisciplinedMembers(store, env, ps[1..], parent, Folded(before, child.writes.own))
  }

  /** A merge that succeeds passed its checks and found room. */
  lemma MergePassed(store: Store, env: Env, p: Program, parent: Tx, acc: Machine, siblings: set<Key>)
    requires Terminates(p) && TopLevel(parent) && OnlySiblings(acc.tx, parent, siblings)
    requires var child := RunSlot(store, env, p, parent).1;
      && child.tx.writes.base == parent.writes.own && child.tx.writes.own.Keys !! parent.writes.own.Keys
      && MergeOne(env, acc, child, parent.writes.View().Keys, siblings).Success?
    ensures var child := RunSlot(store, env, p, parent).1;
      && Fits(env, acc, child) && Passed(child.tx, siblings)
      && MergeOne(env, acc, child, parent.writes.View().Keys, siblings).m == Merged(acc, child)
      && OnlySiblings(Merged(acc, child).tx, parent, siblings + FreshKeys(child.tx, parent.writes.View().Keys))
  {
    hide Execute;
    var child := RunSlot(store, env, p, parent).1;
    FreshOwn(parent, child.tx);
    NoOverlapPasses(child.tx, parent.writes.View().Keys, siblings);
    AbsorbOnlySiblings(acc.tx, parent, child.tx, siblings);
  }

  lemma FreshOwn(parent: Tx, child: Tx)
    requires TopLevel(parent) && child.writes.base == parent.writes.own
    requires child.writes.own.Keys !! parent.writes.own.Keys
    ensures FreshKeys(child, parent.writes.View().Keys) == child.writes.own.Keys
  {
    assert parent.writes.View() == parent.writes.own;
  }

  lemma NoOverlapPasses(child: Tx, snapshot: set<Key>, siblings: set<Key>)
    requires !Overlaps(child, snapshot, siblings) && FreshKeys(child, snapshot) == child.writes.own.Keys
    ensures Passed(child, siblings)
  {
    forall k | k in siblings
      ensures k !in child.writes.own.Keys && k !in child.seen.rows.Keys
    {
      assert k !in FreshKeys(child, snapshot) * siblings && k !in child.seen.rows.Keys * siblings;
    }
  }

  lemma AbsorbOnlySiblings(acc: Tx, parent: Tx, child: Tx, siblings: set<Key>)
    requires OnlySiblings(acc, parent, siblings) && child.writes.own.Keys !! parent.writes.own.Keys
    ensures OnlySiblings(Absorb(acc, child), parent, siblings + child.writes.own.Keys)
  {
    forall k | Differs(Absorb(acc, child).writes.own, parent.writes.own, k)
      ensures k in siblings + child.writes.own.Keys
    {
      if k !in child.writes.own { assert Differs(acc.writes.own, parent.writes.own, k); }
    }
  }

  /** The merged state, as the members still to come find it. */
  ghost predicate Awaiting(store: Store, env: Env, ps: seq<Program>, parent: Tx, acc: Tx, siblings: set<Key>)
    requires AllTerminate(ps)
  {
    && OnlySiblings(acc, parent, siblings) && SiblingsAllocated(parent, acc, siblings)
    && forall j :: 0 <= j < |ps| ==> Guarded(parent, acc, siblings, RunSlot(store, env, ps[j], parent).1.tx)
  }

  /** Counters only grow at a merge, and only by what the child allocated. */
  lemma AbsorbAllocs(parent: Tx, acc: Tx, child: Tx, t: TableId)
    ensures Allocs(parent, Absorb(acc, child), t) <==> Allocs(parent, acc, t) || Allocs(parent, child, t)
  {
  }

  lemma MergedSiblings(parent: Tx, acc: Tx, child: Tx, siblings: set<Key>)
    requires SiblingsAllocated(parent, acc, siblings) && OwnHandles(parent, child)
    requires child.writes.base == parent.writes.own && child.writes.own.Keys !! parent.writes.own.Keys
    ensures SiblingsAllocated(parent, Absorb(acc, child), siblings + child.writes.own.Keys)
  {
    hide Allocs, Absorb;
    forall k | k in siblings + child.writes.own.Keys && k.row.Provisional?
      ensures Allocs(parent, Absorb(acc, child), k.table)
    {
      AbsorbAllocs(parent, acc, child, k.table);
      if k !in siblings { HandleAllocated(parent, child, k); }
    }
  }

  lemma HandleAllocated(parent: Tx, child: Tx, k: Key)
    requires OwnHandles(parent, child) && k in child.writes.own && k.row.Provisional? && k !in child.writes.base
    ensures Allocs(parent, child, k.table)
  {
  }

  lemma MergedGuards(parent: Tx, acc: Tx, child: Tx, siblings: set<Key>, last: Tx)
    requires Guarded(parent, acc, siblings, last) && BothHold(parent, child, last)
    ensures Guarded(parent, Absorb(acc, child), siblings + child.writes.own.Keys, last)
  {
    hide Allocs, Absorb, FirstHandle;
    forall t | Allocs(parent, Absorb(acc, child), t) && Allocs(parent, last, t)
      ensures FirstHandle(parent, t) in siblings + child.writes.own.Keys && FirstHandle(parent, t) in last.writes.own
    {
      AbsorbAllocs(parent, acc, child, t);
    }
  }

  lemma MergedAwaiting(store: Store, env: Env, ps: seq<Program>, parent: Tx, before: Writes, acc: Machine, siblings: set<Key>)
    requires AllTerminate(ps) && ps != [] && Merging(acc, parent)
    requires Awaiting(store, env, ps, parent, acc.tx, siblings) && DisciplinedMembers(store, env, ps, parent, before)
    ensures var child := RunSlot(store, env, ps[0], parent).1;
      Awaiting(store, env, ps[1..], parent, Merged(acc, child).tx, siblings + FreshKeys(child.tx, parent.writes.View().Keys))
  {
    hide Execute, Disciplined, OnlySiblings, SiblingsAllocated, Guarded, BothHold, Absorb, OwnHandles, Terminates;
    var child := RunSlot(store, env, ps[0], parent).1.tx;
    SlotHandles(store, env, ps[0], parent);
    FreshOwn(parent, child);
    AbsorbOnlySiblings(acc.tx, parent, child, siblings);
    MergedSiblings(parent, acc.tx, child, siblings);
    forall j | 0 <= j < |ps[1..]|
      ensures Guarded(parent, Absorb(acc.tx, child), siblings + child.writes.own.Keys,
                      RunSlot(store, env, ps[1..][j], parent).1.tx)
    {
      assert ps[1..][j] == ps[j + 1];
      MergedGuards(parent, acc.tx, child, siblings, RunSlot(store, env, ps[j + 1], parent).1.tx);
    }
  }

  lemma SlotHandles(store: Store, env: Env, p: Program, parent: Tx)
    requires Terminates(p) && TopLevel(parent)
    ensures var child := RunSlot(store, env, p, parent).1.tx;
      OwnHandles(parent, child) && child.writes.base == parent.writes.own
  {
    hide Execute;
    BranchInserts(parent);
    RunPrecedes(store, env, p, parent, FreshMachine(parent), []);
  }

  lemma BranchInserts(parent: Tx)
    requires TopLevel(parent)
    ensures parent.Branch().writes.base == parent.writes.own && InsertsAtHandles(parent.Branch().writes)
    ensures OwnHandles(parent, parent.Branch())
  {
    assert Folded(map[], parent.writes.own) == parent.writes.own;
  }

  lemma CheckedSlot(store: Store, env: Env, p: Program, parent: Tx, acc: Machine, s: Machine, siblings: set<Key>)
    requires Terminates(p) && Merging(acc, parent) && SameMachine(acc, s)
    requires Awaiting(store, env, [p], parent, acc.tx, siblings)
    requires Disciplined(store, env, p, parent, acc.tx.writes.own, FreshMachine(parent), [])
    requires var child := RunSlot(store, env, p, parent).1;
      && child.tx.writes.own.Keys !! parent.writes.own.Keys
      && MergeOne(env, acc, child, parent.writes.View().Keys, siblings).Success?
    ensures var child := RunSlot(store, env, p, parent);
      && Execute(store, env, p, s, []).0 == child.0
      && SameMachine(Merged(acc, child.1), Execute(store, env, p, s, []).1)
      && Merging(Merged(acc, child.1), parent)
      && !Overlaps(child.1.tx, parent.writes.View().Keys, siblings)
      && Fits(env, acc, child.1)
  {
    hide Execute, Disciplined, Clear, OnlySiblings, Absorb, FreshKeys, Guarded, SiblingsAllocated, OwnHandles, InsertsAtHandles;
    var child := RunSlot(store, env, p, parent).1;
    BranchInserts(parent);
    SlotHandles(store, env, p, parent);
    MergePassed(store, env, p, parent, acc, siblings);
    assert RunSlot(store, env, [p][0], parent).1.tx == child.tx;
    PassedClear(store, env, p, acc, parent, FreshMachine(parent), [], siblings);
    ClearMember(store, env, p, acc, parent);
    RunSame(store, env, p, acc, s, []);
  }

  lemma {:induction false} CheckedRest(store: Store, env: Env, ps: seq<Program>, parent: Tx,
                                       acc: Machine, s: Machine, siblings: set<Key>)
    requires AllTerminate(ps) && Merging(acc, parent) && SameMachine(acc, s)
    requires Awaiting(store, env, ps, parent, acc.tx, siblings)
    requires DisciplinedMembers(store, env, ps, parent, acc.tx.writes.own)
    requires MergeRest(store, env, ps, parent, acc, siblings).Success?
    ensures Alike(MergeRest(store, env, ps, parent, acc, siblings), Serial(store, env, ps, s))
    decreases |ps|
  {
    hide Execute, Disciplined, OnlySiblings, SiblingsAllocated, Guarded, BothHold, Merged, FreshKeys, Overlaps, Fits, Merging,
      SameMachine, MergeOne, Terminates;
    if ps != [] {
      RestOfChildren(store, env, ps, parent);
      var child := RunSlot(store, env, ps[0], parent).1;
      FirstAwaits(store, env, ps, parent, acc.tx, siblings);
      CheckedSlot(store, env, ps[0], parent, acc, s, siblings);
      MergeRestStep(store, env, ps, parent, acc, siblings);
      MergedAwaiting(store, env, ps, parent, acc.tx.writes.own, acc, siblings);
      MergedWrites(acc, child);
      CheckedRest(store, env, ps[1..], parent, Merged(acc, child), Execute(store, env, ps[0], s, []).1,
                  siblings + FreshKeys(child.tx, parent.writes.View().Keys));
    }
  }

  lemma FirstAwaits(store: Store, env: Env, ps: seq<Program>, parent: Tx, acc: Tx, siblings: set<Key>)
    requires AllTerminate(ps) && ps != [] && Awaiting(store, env, ps, parent, acc, siblings)
    ensures Awaiting(store, env, [ps[0]], parent, acc, siblings)
  {
    hide RunSlot, Guarded, OnlySiblings, SiblingsAllocated, Terminates;
  }

  lemma NothingAwaits(store: Store, env: Env, ps: seq<Program>, parent: Tx)
    requires AllTerminate(ps)
    ensures Awaiting(store, env, ps, parent, parent, {})
  {
    hide RunSlot, Terminates;
  }

  /** For arbitrary members: if the group reports success, the serial loop
      succeeds too and leaves the same transaction, events and messages. */
  lemma CheckedGroup(store: Store, env: Env, ps: seq<Program>, m: Machine)
    requires AllTerminate(ps) && Sound(m) && DisciplinedMembers(store, env, ps, m.tx, m.tx.writes.own)
    requires Group(store, env, ps, m).Success?
    ensures Alike(Group(store, env, ps, m), Serial(store, env, ps, m))
  {
    hide DisciplinedMembers, Execute, TopLevel, Numbered, Terminates, Awaiting;
    NothingAwaits(store, env, ps, m.tx);
    CheckedRest(store, env, ps, m.tx, m, m, {});
  }

  // ------------------------------------------------ one member at a time

  /** What can be asked of an operation without knowing the other members. */
  ghost predicate SelfContained(store: Store, parent: Tx, c: Tx, op: Op)
  {
    op.table in store.names ==>
      var t := store.names[op.table];
      match op
      case Pending(_) => false
      case Get(_, r) => r.Provisional? ==> HandleOk(parent, c, Key(t, r))
      case Contains(_, r) => r.Provisional? ==> HandleOk(parent, c, Key(t, r))
      case UpdateRow(_, r, _) => r.Provisional? ==> HandleOk(parent, c, Key(t, r))
      case DeleteRow(_, r) => r.Provisional? ==> HandleOk(parent, c, Key(t, r))
      case Lookup(_, index, key) =>
        InsertVisible(c, t) || AnyInsert(c.writes.own) || !MovedOnto(store, c.writes.View(), t, index, key)
      case _ => true
  }

  ghost predicate SelfContainedRun(store: Store, env: Env, p: Program, parent: Tx, c: Machine, h: seq<Reply>)
    requires Terminates(p)
    decreases p.bound - |h|
  {
    var a := p.act(h);
    Continues(a) ==>
      && (a.Run? ==> Tidy(store, c.tx, a.op) && SelfContained(store, parent, c.tx, a.op))
      && var (r, c') := Step(store, env, c, a);
      SelfContainedRun(store, env, p, parent, c', h + [r])
  }

  /** A member judged by its own branch run alone: every operation is
      self-contained, rows pending before the group are left alone, and the
      first handle allocated in a table is still held at the end. */
  ghost predicate SelfContainedMember(store: Store, env: Env, p: Program, parent: Tx)
    requires Terminates(p)
  {
    var child := RunSlot(store, env, p, parent).1.tx;
    && SelfContainedRun(store, env, p, parent, FreshMachine(parent), [])
    && child.writes.own.Keys !! parent.writes.own.Keys
    && forall t :: Allocs(parent, child, t) ==> FirstHandle(parent, t) in child.writes.own
  }

  lemma SelfContainedTraceable(store: Store, parent: Tx, before: Writes, c: Tx, op: Op)
    requires SelfContained(store, parent, c, op)
    ensures Traceable(store, parent, before, c, op)
  {
    hide MovedOnto, Differs, HandleOk, InsertVisible, AnyInsert;
    if op.Lookup? && AnyInsert(c.writes.own) { SettledByOwnInsert(store, before, c, op); }
  }

  lemma {:induction false} SelfContainedDisciplined(store: Store, env: Env, p: Program, parent: Tx, before: Writes,
                                                    c: Machine, h: seq<Reply>)
    requires Terminates(p) && SelfContainedRun(store, env, p, parent, c, h)
    ensures Disciplined(store, env, p, parent, before, c, h)
    decreases p.bound - |h|
  {
    hide Tidy, SelfContained, Traceable, Access;
    var a := p.act(h);
    if Continues(a) {
      var (r, c') := Step(store, env, c, a);
      if a.Run? { SelfContainedTraceable(store, parent, before, c.tx, a.op); }
      SelfContainedDisciplined(store, env, p, parent, before, c', h + [r]);
    }
  }

  lemma {:induction false} SelfContainedMembers(store: Store, env: Env, ps: seq<Program>, parent: Tx, before: Writes)
    requires AllTerminate(ps)
    requires forall i :: 0 <= i < |ps| ==> SelfContainedMember(store, env, ps[i], parent)
    ensures DisciplinedMembers(store, env, ps, parent, before)
    decreases |ps|
  {
    hide SelfContainedRun, Disciplined, Execute, Terminates, Allocs, FirstHandle;
    if ps != [] {
      assert SelfContainedMember(store, env, ps[0], parent);
      SelfContainedDisciplined(store, env, ps[0], parent, before, FreshMachine(parent), []);
      SelfContainedMembers(store, env, ps[1..], parent, Folded(before, RunSlot(store, env, ps[0], parent).1.tx.writes.own));
    }
  }

  /** The same result from conditions on each member alone: members may share
      tables, rows and handles as they like, and whatever they share the checks
      notice. */
  lemma SelfContainedGroup(store: Store, env: Env, ps: seq<Program>, m: Machine)
    requires AllTerminate(ps) && Sound(m)
    requires forall i :: 0 <= i < |ps| ==> SelfContainedMember(store, env, ps[i], m.tx)
    ensures Group(store, env, ps, m).Success? ==> Alike(Group(store, env, ps, m), Serial(store, env, ps, m))
  {
    hide SelfContainedMember, DisciplinedMembers, Group, Serial, Sound, Terminates;
    SelfContainedMembers(store, env, ps, m.tx, m.tx.writes.own);
    if Group(store, env, ps, m).Success? { CheckedGroup(store, env, ps, m); }
  }

  // ------------------------------------------------------- shared inserts

  /** Children that were all merged wrote different rows. */
  lemma {:induction false} MergedApart(env: Env, cs: seq<Machine>, acc: Machine, snapshot: set<Key>, siblings: set<Key>)
    requires MergeAll(env, cs, acc, snapshot, siblings).Success?
    ensures forall j :: 0 <= j < |cs| ==> FreshKeys(cs[j].tx, snapshot) !! siblings
    ensures forall i, j :: 0 <= i < j < |cs| ==> FreshKeys(cs[i].tx, snapshot) !! FreshKeys(cs[j].tx, snapshot)
    decreases |cs|
  {
    hide FreshKeys, Absorb;
    if cs != [] {
      var more := siblings + FreshKeys(cs[0].tx, snapshot);
      forall k | k in FreshKeys(cs[0].tx, snapshot)
        ensures k !in siblings
      {
        assert k !in FreshKeys(cs[0].tx, snapshot) * siblings;
      }
      MergedApart(env, cs[1..], MergeOne(env, acc, cs[0], snapshot, siblings).m, snapshot, more);
      forall j | 0 < j < |cs|
        ensures FreshKeys(cs[j].tx, snapshot) !! more
      {
        assert cs[j] == cs[1..][j - 1];
      }
      forall i, j | 0 < i < j < |cs|
        ensures FreshKeys(cs[i].tx, snapshot) !! FreshKeys(cs[j].tx, snapshot)
      {
        assert cs[i] == cs[1..][i - 1] && cs[j] == cs[1..][j - 1];
      }
    }
  }

  /** Self-contained members that insert into the same table are always
      noticed. */
  lemma SharedInsertRefused(store: Store, env: Env, ps: seq<Program>, m: Machine, i: nat, j: nat, t: TableId)
    requires AllTerminate(ps) && Sound(m) && i < j < |ps|
    requires SelfContainedMember(store, env, ps[i], m.tx) && SelfContainedMember(store, env, ps[j], m.tx)
    requires Allocs(m.tx, RunSlot(store, env, ps[i], m.tx).1.tx, t) && Allocs(m.tx, RunSlot(store, env, ps[j], m.tx).1.tx, t)
    ensures Group(store, env, ps, m).Failure?
  {
    hide SelfContainedRun, Execute, Allocs, FreshKeys, Terminates, MergeAll, TopLevel, Numbered;
    var cs, snapshot := Children(store, env, ps, m.tx), m.tx.writes.View().Keys;
    forall n | n == i || n == j
      ensures FirstHandle(m.tx, t) in FreshKeys(Machines(cs)[n].tx, snapshot)
    {
      SlotHandles(store, env, ps[n], m.tx);
      FreshOwn(m.tx, cs[n].1.tx);
    }
    if Group(store, env, ps, m).Success? {
      MergedApart(env, Machines(cs), m, snapshot, {});
    }
  }
}
