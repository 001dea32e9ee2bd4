/** Why a branch can stand in for the tick transaction
    (`crates/nexum-tx/src/transaction.rs`, `write_set.rs`): a program that runs
    on a child of `parent` gets the replies it would get on the serial
    transaction `serial`, and absorbing the child yields the serial result, as
    long as it looks at nothing in which the two differ. The exact conditions
    of each operation are part of the statements. */
module Branching {
  import opened Values
  import opened Transaction

  /** Equality of transactions up to the order in which rows were first read. */
  ghost predicate Same(a: Tx, b: Tx)
  {
    && a.writes == b.writes && a.provisional == b.provisional
    && a.seen.rows == b.seen.rows && a.seen.tables == b.seen.tables
  }

  /** A row whose pending write differs between two top-level write sets. */
  ghost predicate Differs(serial: Writes, parent: Writes, k: Key)
  {
    (k in serial) != (k in parent) || (k in serial && serial[k] != parent[k])
  }

  ghost predicate Grown(later: Counters, earlier: Counters)
  {
    forall t :: t in earlier ==> t in later && earlier[t] <= later[t]
  }

  /** A child's own layer over an inherited one: a delete at a handle is a
      tombstone over an inherited insert. */
  ghost predicate ChildFormed(base: Writes, own: Writes, counters: Counters)
  {
    forall k :: k in own ==>
      && (own[k].Insert? ==> k.row.Provisional? && k.row.n < CounterOf(counters, k.table))
      && (own[k].Update? ==> k.row.Real?)
      && (own[k].Delete? && k.row.Provisional? ==> k in base)
  }

  /** Serial state `s` is the serial start absorbing the child `c`. */
  ghost predicate Paired(serial: Tx, parent: Tx, s: Tx, c: Tx)
  {
    && TopLevel(serial) && TopLevel(parent) && Grown(serial.provisional, parent.provisional)
    && TopLevel(s) && Same(s, Absorb(serial, c))
    && c.writes.base == parent.writes.own
    && ChildFormed(c.writes.base, c.writes.own, c.provisional)
    && Grown(c.provisional, parent.provisional)
  }

  // ---------------------------------------------------------- conditions

  /** Deleting `k` in the child would bring an inherited insert back: the
      child has rewritten it, so the delete drops the rewrite only. */
  predicate Resurrects(w: WriteSet, k: Key)
  {
    k in w.own && w.own[k].Insert? && k in w.base && w.base[k].Insert?
  }

  predicate AnyInsert(w: Writes) { exists k :: k in w && w[k].Insert? }

  /** The rows a lookup misses when it skips the pending writes. */
  predicate MovedOnto(store: Store, view: Writes, t: TableId, index: string, key: seq<Value>)
  {
    exists k :: k in PendingOwners(store, view, t, index, key)
                && k !in CommittedOwners(store, view, t, index, key)
  }

  /** A lookup finds the same on the child as on `before` with the child folded
      in: both have or both lack a pending insert anywhere, or no pending row
      newly owns the key. */
  predicate Settled(store: Store, before: Writes, c: Tx, op: Op)
  {
    op.Lookup? && op.table in store.names && store.indexed(store.names[op.table], op.index, op.key) ==>
      || AnyInsert(Folded(before, c.writes.own)) == c.writes.HasAnyInsert()
      || !MovedOnto(store, c.writes.View(), store.names[op.table], op.index, op.key)
  }

  predicate NoTombstone(own: Writes, t: TableId)
  {
    forall k :: k in own && k.table == t && own[k].Delete? ==> k.row.Real?
  }

  /** Conditions on the child alone under which a delete or a listing behaves
      like on the serial transaction. */
  predicate Tidy(store: Store, c: Tx, op: Op)
  {
    op.table in store.names ==>
      var t := store.names[op.table];
      match op
      case DeleteRow(_, r) => !Resurrects(c.writes, Key(t, r))
      case Pending(_) => NoTombstone(c.writes.own, t)
      case _ => true
  }

  /** No row of table `t` differs. */
  ghost predicate TableAgrees(serial: Writes, parent: Writes, t: TableId)
  {
    forall k: Key :: k.table == t ==> !Differs(serial, parent, k)
  }

  /** `op` looks at nothing in which the serial transaction and the parent
      differ. */
  ghost predicate Blind(store: Store, serial: Tx, parent: Tx, op: Op)
  {
    op.table in store.names ==>
      var t, v, w := store.names[op.table], serial.writes.own, parent.writes.own;
      match op
      case Get(_, r) => !Differs(v, w, Key(t, r))
      case Contains(_, r) => !Differs(v, w, Key(t, r))
      case UpdateRow(_, r, row) => store.rowValid(t, row) ==> !Differs(v, w, Key(t, r))
      case DeleteRow(_, r) => !Differs(v, w, Key(t, r))
      case InsertRow(_, row) =>
        store.rowValid(t, row) ==> CounterOf(serial.provisional, t) == CounterOf(parent.provisional, t)
      case _ => TableAgrees(v, w, t)
  }

  // ---------------------------------------------------------- start, end

  lemma BranchPairs(serial: Tx, parent: Tx)
    requires TopLevel(serial) && TopLevel(parent) && Grown(serial.provisional, parent.provisional)
    ensures Paired(serial, parent, serial, parent.Branch())
  {
    assert Folded(map[], parent.writes.own) == parent.writes.own;
    assert Folded(serial.writes.own, map[]) == serial.writes.own;
    assert AbsorbCounters(serial.provisional, parent.provisional) == serial.provisional;
  }

  // ------------------------------------------------------------- folding

  lemma FoldStore(p: Writes, c: Writes, k: Key, e: WriteEntry)
    requires !(e.Delete? && k in p && p[k].Insert?)
    ensures Folded(p, c[k := e]) == Folded(p, c)[k := e]
  {
  }

  lemma FoldDrop(p: Writes, c: Writes, k: Key)
    requires k !in p
    ensures Folded(p, c - {k}) == Folded(p, c) - {k}
  {
  }

  lemma FoldTombstone(p: Writes, c: Writes, k: Key)
    requires k in p && p[k].Insert?
    ensures Folded(p, c[k := Delete]) == Folded(p, c) - {k}
  {
  }

  // --------------------------------------------------------------- views

  /** Where the starting points agree, the serial view is the child's view
      without its tombstones over handles. */
  lemma ViewsAgree(serial: Tx, parent: Tx, s: Tx, c: Tx, k: Key)
    requires Paired(serial, parent, s, c) && !Differs(serial.writes.own, parent.writes.own, k)
    ensures s.writes.View() == s.writes.own
    ensures var v, w := s.writes.own, c.writes.View();
      && (k in v <==> k in w && !(w[k].Delete? && k.row.Provisional?))
      && (k in v ==> v[k] == w[k])
      && (k in w && w[k].Insert? ==> k.row.Provisional? && k in v)
      && (k in w && w[k].Update? ==> k.row.Real? && k in v)
  {
  }

  // ------------------------------------------------------- single writes

  function Put(tx: Tx, k: Key, e: WriteEntry): Tx
  {
    tx.(writes := tx.writes.(own := tx.writes.own[k := e]))
  }

  function Drop(tx: Tx, k: Key): Tx
  {
    tx.(writes := tx.writes.(own := tx.writes.own - {k}))
  }

  lemma RecordPairs(serial: Tx, parent: Tx, s: Tx, c: Tx, k: Key, v: Option<Version>)
    requires Paired(serial, parent, s, c)
    ensures Paired(serial, parent, s.(seen := s.seen.Record(k, v)), c.(seen := c.seen.Record(k, v)))
  {
    hide Formed, ChildFormed, Grown, Folded, AbsorbCounters;
    assert (serial.seen.rows + c.seen.rows)[k := v] == serial.seen.rows + c.seen.rows[k := v];
  }

  lemma RecordTablePairs(serial: Tx, parent: Tx, s: Tx, c: Tx, t: TableId, v: Version)
    requires Paired(serial, parent, s, c)
    ensures Paired(serial, parent, s.(seen := s.seen.RecordTable(t, v)), c.(seen := c.seen.RecordTable(t, v)))
  {
    hide Formed, ChildFormed, Grown, Folded, AbsorbCounters;
    assert (serial.seen.tables + c.seen.tables)[t := v] == serial.seen.tables + c.seen.tables[t := v];
  }

  /** Storing the same entry on both sides keeps the pair. */
  lemma PutPairs(serial: Tx, parent: Tx, s: Tx, c: Tx, k: Key, e: WriteEntry)
    requires Paired(serial, parent, s, c)
    requires e.Insert? <==> k.row.Provisional?
    requires k.row.Provisional? ==>
      k.row.n < CounterOf(s.provisional, k.table) && k.row.n < CounterOf(c.provisional, k.table)
    ensures Paired(serial, parent, Put(s, k, e), Put(c, k, e))
  {
    hide Grown, AbsorbCounters, Folded, AbsorbReads;
    FoldStore(serial.writes.own, c.writes.own, k, e);
  }

  /** A child's delete of an insert it made itself. */
  lemma DropPairs(serial: Tx, parent: Tx, s: Tx, c: Tx, k: Key)
    requires Paired(serial, parent, s, c) && k !in serial.writes.own
    ensures Paired(serial, parent, Drop(s, k), Drop(c, k))
  {
    hide Grown, AbsorbCounters, Folded, AbsorbReads;
    FoldDrop(serial.writes.own, c.writes.own, k);
  }

  /** A child's delete of an inherited insert: a tombstone there, a removal
      here. */
  lemma TombstonePairs(serial: Tx, parent: Tx, s: Tx, c: Tx, k: Key)
    requires Paired(serial, parent, s, c)
    requires k in serial.writes.own && serial.writes.own[k].Insert? && k in c.writes.base
    ensures Paired(serial, parent, Drop(s, k), Put(c, k, Delete))
  {
    hide Grown, AbsorbCounters, Folded, AbsorbReads;
    FoldTombstone(serial.writes.own, c.writes.own, k);
  }

  lemma BumpFormed(base: Writes, own: Writes, counters: Counters, t: TableId)
    ensures var bumped := counters[t := CounterOf(counters, t) + 1];
      && (Formed(own, counters) ==> Formed(own, bumped))
      && (ChildFormed(base, own, counters) ==> ChildFormed(base, own, bumped))
  {
  }

  lemma BumpAbsorbs(serial: Counters, parent: Counters, c: Counters, t: TableId)
    requires Grown(c, parent) && CounterOf(serial, t) <= CounterOf(c, t)
    ensures var n := CounterOf(c, t);
      && CounterOf(AbsorbCounters(serial, c), t) == n
      && AbsorbCounters(serial, c[t := n + 1]) == AbsorbCounters(serial, c)[t := n + 1]
      && Grown(c[t := n + 1], parent)
  {
  }

  lemma BumpPairs(serial: Tx, parent: Tx, s: Tx, c: Tx, t: TableId)
    requires Paired(serial, parent, s, c)
    requires CounterOf(serial.provisional, t) <= CounterOf(c.provisional, t)
    ensures var n := CounterOf(c.provisional, t);
      && CounterOf(s.provisional, t) == n
      && Paired(serial, parent, s.(provisional := s.provisional[t := n + 1]),
                c.(provisional := c.provisional[t := n + 1]))
  {
    hide Folded, AbsorbReads, AbsorbCounters, Formed, ChildFormed, Grown, CounterOf;
    BumpFormed(map[], s.writes.own, s.provisional, t);
    BumpFormed(c.writes.base, c.writes.own, c.provisional, t);
    BumpAbsorbs(serial.provisional, parent.provisional, c.provisional, t);
  }

  // ---------------------------------------------------------- operations

  /** The two sides answer alike and stay paired. */
  ghost predicate Agree(serial: Tx, parent: Tx, s: (Reply, Tx), c: (Reply, Tx))
  {
    s.0 == c.0 && Paired(serial, parent, s.1, c.1)
  }

  lemma UpdatePairs(store: Store, serial: Tx, parent: Tx, s: Tx, c: Tx, k: Key, row: Row)
    requires Paired(serial, parent, s, c) && !Differs(serial.writes.own, parent.writes.own, k)
    ensures Agree(serial, parent, Written(store, s, k, s.writes.Update(k, row)),
                  Written(store, c, k, c.writes.Update(k, row)))
  {
    ViewsAgree(serial, parent, s, c, k);
    var w := c.writes.View();
    if k in w && w[k].Insert? {
      HandlesBelow(serial, parent, s, c, k);
      PutPairs(serial, parent, s, c, k, WriteEntry.Insert(row));
    } else if k in w && w[k].Update? {
      PutPairs(serial, parent, s, c, k, WriteEntry.Update(row));
    } else if k !in w && k.row.Real? {
      hide Paired;
      PutPairs(serial, parent, s, c, k, WriteEntry.Update(row));
      RecordPairs(serial, parent, Put(s, k, WriteEntry.Update(row)), Put(c, k, WriteEntry.Update(row)),
                  k, store.VersionOf(k));
    }
  }

  lemma HandlesBelow(serial: Tx, parent: Tx, s: Tx, c: Tx, k: Key)
    requires Paired(serial, parent, s, c) && !Differs(serial.writes.own, parent.writes.own, k)
    requires k in c.writes.View() && c.writes.View()[k].Insert?
    ensures k.row.Provisional?
    ensures k.row.n < CounterOf(s.provisional, k.table) && k.row.n < CounterOf(c.provisional, k.table)
  {
    ViewsAgree(serial, parent, s, c, k);
  }

  lemma DeletePairs(store: Store, serial: Tx, parent: Tx, s: Tx, c: Tx, k: Key)
    requires Paired(serial, parent, s, c) && !Differs(serial.writes.own, parent.writes.own, k)
    requires !Resurrects(c.writes, k)
    ensures Agree(serial, parent, Written(store, s, k, s.writes.Delete(k)),
                  Written(store, c, k, c.writes.Delete(k)))
  {
    ViewsAgree(serial, parent, s, c, k);
    var w := c.writes.View();
    if k in w && w[k].Insert? {
      if k in c.writes.own {
        assert k !in serial.writes.own;
        DropPairs(serial, parent, s, c, k);
      } else {
        TombstonePairs(serial, parent, s, c, k);
      }
    } else if k in w && w[k].Update? {
      PutPairs(serial, parent, s, c, k, Delete);
    } else if k !in w && k.row.Real? {
      hide Paired;
      PutPairs(serial, parent, s, c, k, Delete);
      RecordPairs(serial, parent, Put(s, k, Delete), Put(c, k, Delete), k, store.VersionOf(k));
    }
  }

  /** Deleting keeps the pair exactly when it resurrects no inherited insert. */
  lemma DeleteExact(store: Store, serial: Tx, parent: Tx, s: Tx, c: Tx, k: Key)
    requires Paired(serial, parent, s, c) && !Differs(serial.writes.own, parent.writes.own, k)
    ensures Agree(serial, parent, Written(store, s, k, s.writes.Delete(k)),
                  Written(store, c, k, c.writes.Delete(k)))
            <==> !Resurrects(c.writes, k)
  {
    if Resurrects(c.writes, k) {
      ViewsAgree(serial, parent, s, c, k);
      assert k !in Written(store, s, k, s.writes.Delete(k)).1.writes.own;
      assert k in Folded(serial.writes.own, Written(store, c, k, c.writes.Delete(k)).1.writes.own);
    } else {
      DeletePairs(store, serial, parent, s, c, k);
    }
  }

  lemma FreshHandle(serial: Tx, parent: Tx, s: Tx, c: Tx, t: TableId)
    requires Paired(serial, parent, s, c)
    requires CounterOf(s.provisional, t) == CounterOf(c.provisional, t)
    ensures var k := Key(t, Provisional(CounterOf(c.provisional, t)));
      k !in s.writes.own && k !in c.writes.own
  {
  }

  lemma PairedCounters(serial: Tx, parent: Tx, s: Tx, c: Tx, t: TableId)
    requires Paired(serial, parent, s, c)
    ensures CounterOf(s.provisional, t) == CounterOf(c.provisional, t)
            <==> CounterOf(serial.provisional, t) <= CounterOf(c.provisional, t)
    ensures CounterOf(serial.provisional, t) == CounterOf(parent.provisional, t) ==>
      CounterOf(serial.provisional, t) <= CounterOf(c.provisional, t)
  {
    hide Folded, AbsorbReads, Formed, ChildFormed;
  }

  /** An insert keeps the pair exactly when the row is refused on both sides or
      the handle counters of the two sides agree. */
  lemma InsertExact(store: Store, serial: Tx, parent: Tx, s: Tx, c: Tx, op: Op)
    requires Paired(serial, parent, s, c) && op.InsertRow? && op.table in store.names
    requires store.rowValid(store.names[op.table], op.value)
    ensures Agree(serial, parent, Access(store, s, op), Access(store, c, op))
            <==> CounterOf(s.provisional, store.names[op.table]) == CounterOf(c.provisional, store.names[op.table])
  {
    hide Paired;
    var t := store.names[op.table];
    var n := CounterOf(c.provisional, t);
    PairedCounters(serial, parent, s, c, t);
    if CounterOf(s.provisional, t) == n {
      BumpPairs(serial, parent, s, c, t);
      FreshHandle(serial, parent, s, c, t);
      var s1, c1 := s.(provisional := s.provisional[t := n + 1]), c.(provisional := c.provisional[t := n + 1]);
      PutPairs(serial, parent, s1, c1, Key(t, Provisional(n)), WriteEntry.Insert(op.value));
    } else {
      OwnHandleFree(serial, parent, s, c, t);
    }
  }

  /** The next handle of either side is free there. */
  lemma OwnHandleFree(serial: Tx, parent: Tx, s: Tx, c: Tx, t: TableId)
    requires Paired(serial, parent, s, c)
    ensures Key(t, Provisional(CounterOf(s.provisional, t))) !in s.writes.own
    ensures Key(t, Provisional(CounterOf(c.provisional, t))) !in c.writes.own
  {
  }

  lemma InsertPairs(store: Store, serial: Tx, parent: Tx, s: Tx, c: Tx, op: Op)
    requires Paired(serial, parent, s, c) && op.InsertRow? && Blind(store, serial, parent, op)
    ensures Agree(serial, parent, Access(store, s, op), Access(store, c, op))
  {
    hide Paired;
    if op.table in store.names && store.rowValid(store.names[op.table], op.value) {
      PairedCounters(serial, parent, s, c, store.names[op.table]);
      InsertExact(store, serial, parent, s, c, op);
    }
  }

  lemma PointReadPairs(store: Store, serial: Tx, parent: Tx, s: Tx, c: Tx, op: Op)
    requires Paired(serial, parent, s, c) && (op.Get? || op.Contains?)
    requires Blind(store, serial, parent, op)
    ensures Agree(serial, parent, Access(store, s, op), Access(store, c, op))
  {
    if op.table in store.names {
      var k := Key(store.names[op.table], op.row);
      ViewsAgree(serial, parent, s, c, k);
      RecordPairs(serial, parent, s, c, k, store.VersionOf(k));
    }
  }

  // ----------------------------------------------------- table-wide reads

  /** On an agreeing table the serial view is the child's without tombstones. */
  ghost predicate Mirrors(v: Writes, w: Writes, t: TableId)
  {
    forall k: Key :: k.table == t ==>
      && (k in v <==> k in w && !(w[k].Delete? && k.row.Provisional?))
      && (k in v ==> v[k] == w[k])
      && (k in w && w[k].Insert? ==> k.row.Provisional? && k in v)
  }

  lemma TableMirrors(serial: Tx, parent: Tx, s: Tx, c: Tx, t: TableId)
    requires Paired(serial, parent, s, c) && TableAgrees(serial.writes.own, parent.writes.own, t)
    ensures s.writes.View() == s.writes.own && Mirrors(s.writes.View(), c.writes.View(), t)
  {
    forall k: Key | k.table == t
      ensures var v, w := s.writes.own, c.writes.View();
        && (k in v <==> k in w && !(w[k].Delete? && k.row.Provisional?))
        && (k in v ==> v[k] == w[k])
        && (k in w && w[k].Insert? ==> k.row.Provisional? && k in v)
    {
      ViewsAgree(serial, parent, s, c, k);
    }
  }

  lemma ScanMirrors(store: Store, v: Writes, w: Writes, t: TableId)
    requires Mirrors(v, w, t)
    ensures ScanRows(store, v, t) == ScanRows(store, w, t)
  {
    var a, b := ScanRows(store, v, t), ScanRows(store, w, t);
    assert forall k :: k in a <==> k in b;
  }

  /** Inspecting pending writes agrees exactly when no tombstone is visible. */
  lemma PendingMirrors(v: Writes, w: Writes, t: TableId)
    requires Mirrors(v, w, t)
    ensures PendingEntries(v, t) == PendingEntries(w, t)
            <==> forall k :: k in w && k.table == t && w[k].Delete? ==> k.row.Real?
  {
    var a, b := PendingEntries(v, t), PendingEntries(w, t);
    if k :| k in w && k.table == t && w[k].Delete? && !k.row.Real? {
      assert k in b && k !in a;
    } else {
      assert forall k :: k in a <==> k in b;
    }
  }

  /** Two views of one table answer a lookup alike exactly when they agree on
      whether any insert is pending or no pending row newly owns the key. */
  lemma LookupMirrors(store: Store, s: WriteSet, c: WriteSet, t: TableId, index: string, key: seq<Value>)
    requires Mirrors(s.View(), c.View(), t)
    ensures LookupOwners(store, s, t, index, key) == LookupOwners(store, c, t, index, key)
            <==> s.HasAnyInsert() == c.HasAnyInsert() || !MovedOnto(store, c.View(), t, index, key)
  {
    var v, w := s.View(), c.View();
    assert CommittedOwners(store, v, t, index, key) == CommittedOwners(store, w, t, index, key);
    assert PendingOwners(store, v, t, index, key) == PendingOwners(store, w, t, index, key);
  }

  /** A lookup on an agreeing table mirrors the serial one exactly when it is
      settled. */
  lemma SettledLookup(store: Store, serial: Tx, parent: Tx, s: Tx, c: Tx, op: Op)
    requires Paired(serial, parent, s, c) && op.Lookup? && op.table in store.names
    requires TableAgrees(serial.writes.own, parent.writes.own, store.names[op.table])
    requires store.indexed(store.names[op.table], op.index, op.key)
    ensures var t := store.names[op.table];
      LookupOwners(store, s.writes, t, op.index, op.key) == LookupOwners(store, c.writes, t, op.index, op.key)
      <==> Settled(store, serial.writes.own, c, op)
  {
    hide LookupOwners, MovedOnto, Mirrors, TableAgrees;
    var t := store.names[op.table];
    TableMirrors(serial, parent, s, c, t);
    LookupMirrors(store, s.writes, c.writes, t, op.index, op.key);
    PairedInserts(serial, parent, s, c);
  }

  lemma PairedInserts(serial: Tx, parent: Tx, s: Tx, c: Tx)
    requires Paired(serial, parent, s, c)
    ensures s.writes.HasAnyInsert() == AnyInsert(Folded(serial.writes.own, c.writes.own))
  {
    hide Folded, AbsorbCounters, AbsorbReads, Formed, ChildFormed, Grown;
  }

  lemma TableReadPairs(store: Store, serial: Tx, parent: Tx, s: Tx, c: Tx, op: Op)
    requires Paired(serial, parent, s, c) && (op.Scan? || op.Pending? || op.Lookup?)
    requires Blind(store, serial, parent, op)
    ensures Agree(serial, parent, Access(store, s, op), Access(store, c, op))
            <==> Tidy(store, c, op) && Settled(store, serial.writes.own, c, op)
  {
    hide Paired, ScanRows, PendingEntries, LookupOwners, Settled, Mirrors;
    if op.table in store.names {
      var t := store.names[op.table];
      TableMirrors(serial, parent, s, c, t);
      RecordTablePairs(serial, parent, s, c, t, store.Epoch(t));
      if op.Scan? {
        ScanMirrors(store, s.writes.View(), c.writes.View(), t);
        NotALookup(store, serial.writes.own, c, op);
      } else if op.Pending? {
        PendingMirrors(s.writes.View(), c.writes.View(), t);
        TombstonesOwn(serial, parent, s, c, t);
        NotALookup(store, serial.writes.own, c, op);
      } else if store.indexed(t, op.index, op.key) {
        SettledLookup(store, serial, parent, s, c, op);
      } else {
        NotALookup(store, serial.writes.own, c, op);
      }
    } else {
      NotALookup(store, serial.writes.own, c, op);
    }
  }

  lemma NotALookup(store: Store, before: Writes, c: Tx, op: Op)
    requires !op.Lookup? || op.table !in store.names || !store.indexed(store.names[op.table], op.index, op.key)
    ensures Settled(store, before, c, op)
  {
  }

  lemma TombstonesOwn(serial: Tx, parent: Tx, s: Tx, c: Tx, t: TableId)
    requires Paired(serial, parent, s, c)
    ensures NoTombstone(c.writes.own, t)
            <==> forall k :: k in c.writes.View() && k.table == t && c.writes.View()[k].Delete? ==> k.row.Real?
  {
  }

  /** One operation that looks at nothing in which the starting points differ:
      the child answers like the serial transaction and still absorbs into it
      exactly when the operation is tidy and settled. */
  lemma AccessExact(store: Store, serial: Tx, parent: Tx, s: Tx, c: Tx, op: Op)
    requires Paired(serial, parent, s, c) && Blind(store, serial, parent, op)
    ensures Agree(serial, parent, Access(store, s, op), Access(store, c, op))
            <==> Tidy(store, c, op) && Settled(store, serial.writes.own, c, op)
  {
    hide Settled, Paired, Differs, Written;
    if op.Scan? || op.Pending? || op.Lookup? {
      TableReadPairs(store, serial, parent, s, c, op);
    } else {
      NotALookup(store, serial.writes.own, c, op);
      match op
      case Get(_, _) => PointReadPairs(store, serial, parent, s, c, op);
      case Contains(_, _) => PointReadPairs(store, serial, parent, s, c, op);
      case InsertRow(_, _) => InsertPairs(store, serial, parent, s, c, op);
      case UpdateRow(_, r, row) =>
        if op.table in store.names && store.rowValid(store.names[op.table], row) {
          UpdatePairs(store, serial, parent, s, c, Key(store.names[op.table], r), row);
        }
      case DeleteRow(_, r) =>
        if op.table in store.names { DeleteExact(store, serial, parent, s, c, Key(store.names[op.table], r)); }
    }
  }

  lemma AccessPairs(store: Store, serial: Tx, parent: Tx, s: Tx, c: Tx, op: Op)
    requires Paired(serial, parent, s, c) && Blind(store, serial, parent, op)
    requires Tidy(store, c, op) && Settled(store, serial.writes.own, c, op)
    ensures Agree(serial, parent, Access(store, s, op), Access(store, c, op))
  {
    hide Paired, Access, Settled, Tidy, Blind, Agree;
    AccessExact(store, serial, parent, s, c, op);
  }

  // ------------------------------------------------ when a lookup is settled

  /** By an insert of the child's own, in any table. */
  lemma SettledByOwnInsert(store: Store, before: Writes, c: Tx, op: Op)
    requires AnyInsert(c.writes.own)
    ensures Settled(store, before, c, op)
  {
    var k :| k in c.writes.own && c.writes.own[k].Insert?;
    assert k in Folded(before, c.writes.own) && Folded(before, c.writes.own)[k].Insert?;
  }

  /** By the absence of any insert, before the group and by earlier members. */
  lemma SettledWithoutInserts(store: Store, before: Writes, c: Tx, op: Op)
    requires !AnyInsert(before) && !AnyInsert(c.writes.base)
    ensures Settled(store, before, c, op)
  {
    var f := Folded(before, c.writes.own);
    assert forall k :: k in f && f[k].Insert? ==> k in c.writes.own && c.writes.own[k].Insert?;
    assert forall k :: k in c.writes.own && c.writes.own[k].Insert? ==> k in f && f[k].Insert?;
  }

  /** By a pending insert the child sees in a table on which the starting
      points agree. */
  lemma SettledByTable(store: Store, before: Writes, c: Tx, op: Op, k: Key)
    requires k in c.writes.View() && c.writes.View()[k].Insert? && !Differs(before, c.writes.base, k)
    ensures Settled(store, before, c, op)
  {
    assert k in Folded(before, c.writes.own) && Folded(before, c.writes.own)[k].Insert?;
    assert c.writes.HasAnyInsert();
  }

  // ------------------------------------------- independence of read order

  /** Replies and effects do not depend on the order of earlier reads. */
  lemma AccessSame(store: Store, a: Tx, b: Tx, op: Op)
    requires Same(a, b)
    ensures Access(store, a, op).0 == Access(store, b, op).0
    ensures Same(Access(store, a, op).1, Access(store, b, op).1)
  {
  }

  /** The tick transaction stays a well-formed top-level transaction. */
  lemma AccessTopLevel(store: Store, tx: Tx, op: Op)
    requires TopLevel(tx)
    ensures TopLevel(Access(store, tx, op).1)
    ensures Grown(Access(store, tx, op).1.provisional, tx.provisional)
  {
    if op.table in store.names {
      var t := store.names[op.table];
      assert tx.writes.View() == tx.writes.own;
      if op.InsertRow? { BumpFormed(map[], tx.writes.own, tx.provisional, t); }
    }
  }
}
