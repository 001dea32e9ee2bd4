/** What the operations of a transaction mean to one another
    (`crates/nexum-tx/src/transaction.rs`, `write_set.rs`): every read sees the
    writes before it, and the reads agree among themselves. The laws speak of
    replies only. */
module ReadYourWrites {
  import opened Values
  import opened Transaction
  import opened Branching

  /** What `get` replies. */
  function Read(store: Store, tx: Tx, name: string, r: RowId): Option<Row>
  {
    match Access(store, tx, Get(name, r)).0
    case Found(row) => row
    case _ => None
  }

  /** What `scan` replies. */
  function Scanned(store: Store, tx: Tx, name: string): map<Key, Row>
  {
    match Access(store, tx, Scan(name)).0
    case Rows(rows) => rows
    case _ => map[]
  }

  /** What `pending_writes_for_table` replies. */
  function Listed(store: Store, tx: Tx, name: string): map<Key, WriteEntry>
  {
    match Access(store, tx, Pending(name)).0
    case Entries(entries) => entries
    case _ => map[]
  }

  /** Rows that can be scanned: committed ones and pending inserts. */
  predicate Scannable(store: Store, tx: Tx, k: Key)
  {
    store.Committed(k) || (k in tx.writes.View() && tx.writes.View()[k].Insert?)
  }

  /** The row at `k`: the pending one, or else the committed one. */
  function Shown(store: Store, view: Writes, k: Key): Option<Row>
  {
    if k in view then (if view[k].Delete? then None else Some(view[k].row))
    else if store.Committed(k) then Some(store.rows[k].0) else None
  }

  // --------------------------------------------------- reads among reads

  lemma ReadShown(store: Store, tx: Tx, name: string, r: RowId)
    requires name in store.names
    ensures Read(store, tx, name, r) == Shown(store, tx.writes.View(), Key(store.names[name], r))
  {
  }

  lemma ScanShown(store: Store, tx: Tx, name: string, k: Key)
    requires name in store.names
    ensures k in Scanned(store, tx, name)
            <==> k.table == store.names[name] && Scannable(store, tx, k) && Shown(store, tx.writes.View(), k).Some?
    ensures k in Scanned(store, tx, name) ==> Shown(store, tx.writes.View(), k) == Some(Scanned(store, tx, name)[k])
  {
  }

  /** A scan lists exactly the rows that `get` finds, with the same contents. */
  lemma ScanIsGet(store: Store, tx: Tx, name: string, r: RowId)
    requires name in store.names
    ensures var k := Key(store.names[name], r);
      && (k in Scanned(store, tx, name) <==> Scannable(store, tx, k) && Read(store, tx, name, r).Some?)
      && (k in Scanned(store, tx, name) ==> Read(store, tx, name, r) == Some(Scanned(store, tx, name)[k]))
    ensures forall k :: k in Scanned(store, tx, name) ==> k.table == store.names[name]
  {
  }

  lemma ContainsIsGet(store: Store, tx: Tx, name: string, r: RowId)
    requires name in store.names
    ensures Access(store, tx, Contains(name, r)).0 == Present(Read(store, tx, name, r).Some?)
    ensures Access(store, tx, Contains(name, r)).1 == Access(store, tx, Get(name, r)).1
  {
  }

  /** A listed write is what `get` finds; where nothing is listed, `get` finds
      the committed row. */
  lemma PendingIsGet(store: Store, tx: Tx, name: string, r: RowId)
    requires name in store.names
    ensures var k := Key(store.names[name], r);
      var listed := Listed(store, tx, name);
      Read(store, tx, name, r) == Shown(store, listed, k)
    ensures forall k :: k in Listed(store, tx, name) ==> k.table == store.names[name]
  {
  }

  /** The scanned rows that own an index key. */
  function OwnersAmong(store: Store, rows: map<Key, Row>, t: TableId, index: string, key: seq<Value>): set<Key>
  {
    set k | k in rows && store.owns(t, index, key, rows[k])
  }

  /** Updates of rows that were never committed; no scan shows them. */
  predicate PhantomOwner(store: Store, tx: Tx, t: TableId, index: string, key: seq<Value>)
  {
    exists k :: k in PendingOwners(store, tx.writes.View(), t, index, key) && !Scannable(store, tx, k)
  }

  lemma OwnersSplit(store: Store, tx: Tx, name: string, index: string, key: seq<Value>)
    requires name in store.names
    requires forall k :: k in tx.writes.View() && tx.writes.View()[k].Insert? ==> k.row.Provisional?
    ensures var t, view := store.names[name], tx.writes.View();
      var seen := OwnersAmong(store, Scanned(store, tx, name), t, index, key);
      var committed, pending := CommittedOwners(store, view, t, index, key), PendingOwners(store, view, t, index, key);
      && (forall k :: k in committed ==> k in seen)
      && (forall k :: k in seen ==> Scannable(store, tx, k) && (k in committed || k in pending))
      && (forall k :: k in pending && Scannable(store, tx, k) ==> k in seen)
  {
  }

  /** A lookup finds exactly the scanned rows that own the key, if and only if
      no update of a missing row owns it and, while no insert is pending, no
      update moved a row onto it. */
  lemma LookupIsScan(store: Store, tx: Tx, name: string, index: string, key: seq<Value>)
    requires name in store.names && store.indexed(store.names[name], index, key)
    requires forall k :: k in tx.writes.View() && tx.writes.View()[k].Insert? ==> k.row.Provisional?
    ensures var t := store.names[name];
      var view := tx.writes.View();
      Access(store, tx, Lookup(name, index, key)).0 == Owners(OwnersAmong(store, Scanned(store, tx, name), t, index, key))
      <==> if tx.writes.HasAnyInsert() then !PhantomOwner(store, tx, t, index, key)
           else forall k :: k in PendingOwners(store, view, t, index, key) && Scannable(store, tx, k) ==>
                  k in CommittedOwners(store, view, t, index, key)
  {
    hide ScanRows, CommittedOwners, PendingOwners, OwnersAmong, Scannable, Scanned;
    OwnersSplit(store, tx, name, index, key);
    var t := store.names[name];
    var found := LookupOwners(store, tx.writes, t, index, key);
    var seen := OwnersAmong(store, Scanned(store, tx, name), t, index, key);
    assert found == seen <==> forall k :: k in found <==> k in seen;
  }

  // --------------------------------------------------- reads change nothing

  predicate IsWrite(op: Op) { op.InsertRow? || op.UpdateRow? || op.DeleteRow? }

  /** A read, or a write that fails, leaves every later reply as it was. */
  lemma OnlyWritesWrite(store: Store, tx: Tx, op: Op)
    ensures var (reply, tx') := Access(store, tx, op);
      !IsWrite(op) || reply.Failed? ==> tx'.writes == tx.writes
    ensures !op.InsertRow? ==> Access(store, tx, op).1.provisional == tx.provisional
  {
    hide ScanRows, LookupOwners, PendingEntries;
  }

  // ------------------------------------------------------------- writes

  /** Only row `k` reads differently: it reads as `after`. A scan shows it so
      if it can be scanned, and shows all other rows as before. */
  ghost predicate OnlyRow(store: Store, tx: Tx, tx': Tx, k: Key, after: Option<Row>)
  {
    && (forall name, r :: name in store.names ==>
          Read(store, tx', name, r) == if Key(store.names[name], r) == k then after else Read(store, tx, name, r))
    && (forall name, j :: name in store.names && j != k ==>
          && (j in Scanned(store, tx', name) <==> j in Scanned(store, tx, name))
          && (j in Scanned(store, tx, name) ==> Scanned(store, tx', name)[j] == Scanned(store, tx, name)[j]))
    && (forall name :: name in store.names && store.names[name] == k.table ==>
          && (k in Scanned(store, tx', name) <==> after.Some? && Scannable(store, tx', k))
          && (k in Scanned(store, tx', name) ==> after == Some(Scanned(store, tx', name)[k])))
  }

  /** Changing one entry of the logical write set changes one row. */
  lemma EntryShows(store: Store, tx: Tx, tx': Tx, k: Key)
    requires forall j :: j != k ==>
      (j in tx'.writes.View() <==> j in tx.writes.View())
      && (j in tx.writes.View() ==> tx'.writes.View()[j] == tx.writes.View()[j])
    ensures OnlyRow(store, tx, tx', k, Shown(store, tx'.writes.View(), k))
  {
    hide Read, Scanned;
    forall name, r | name in store.names
      ensures Read(store, tx', name, r)
              == if Key(store.names[name], r) == k then Shown(store, tx'.writes.View(), k) else Read(store, tx, name, r)
    {
      ReadShown(store, tx, name, r);
      ReadShown(store, tx', name, r);
    }
    forall name, j | name in store.names
      ensures j != k ==> (j in Scanned(store, tx', name) <==> j in Scanned(store, tx, name))
      ensures j != k && j in Scanned(store, tx, name) ==> Scanned(store, tx', name)[j] == Scanned(store, tx, name)[j]
      ensures store.names[name] == k.table && j == k ==>
        && (k in Scanned(store, tx', name) <==> Shown(store, tx'.writes.View(), k).Some? && Scannable(store, tx', k))
        && (k in Scanned(store, tx', name) ==> Shown(store, tx'.writes.View(), k) == Some(Scanned(store, tx', name)[k]))
    {
      ScanShown(store, tx, name, j);
      ScanShown(store, tx', name, j);
    }
  }

  /** When an update is taken: of a row pending here unless deleted, or of a
      real row, which is looked for at commit. */
  predicate Updatable(tx: Tx, k: Key)
  {
    if k in tx.writes.View() then !tx.writes.View()[k].Delete? else k.row.Real?
  }

  /** An update is taken exactly when its row is valid and updatable; the row
      then reads as the new one, and nothing else changes. */
  lemma UpdateReads(store: Store, tx: Tx, name: string, r: RowId, row: Row)
    requires name in store.names
    ensures var k := Key(store.names[name], r);
      var (reply, tx') := Access(store, tx, UpdateRow(name, r, row));
      && (reply.Done? <==> store.rowValid(k.table, row) && Updatable(tx, k))
      && (!reply.Done? ==>
            reply == Failed(if store.rowValid(k.table, row) then InvalidTransaction else InvalidArgument))
      && (reply.Done? ==>
            && OnlyRow(store, tx, tx', k, Some(row))
            && (Scannable(store, tx', k) <==> Scannable(store, tx, k)))
  {
    hide ScanRows, OnlyRow;
    var k := Key(store.names[name], r);
    var (reply, tx') := Access(store, tx, UpdateRow(name, r, row));
    if reply.Done? { EntryShows(store, tx, tx', k); }
  }

  /** A valid insert into a table whose next handle is free gets that handle;
      the row is read and scanned there, and nothing else changes. */
  lemma InsertReads(store: Store, tx: Tx, name: string, row: Row)
    requires name in store.names
    ensures var t := store.names[name];
      var k := Key(t, Provisional(CounterOf(tx.provisional, t)));
      var (reply, tx') := Access(store, tx, InsertRow(name, row));
      && (reply.Handle? <==> store.rowValid(t, row) && k !in tx.writes.own)
      && (!reply.Handle? ==> reply == Failed(if store.rowValid(t, row) then InvalidTransaction else InvalidArgument))
      && (reply.Handle? ==>
            && reply.id == k.row && OnlyRow(store, tx, tx', k, Some(row)) && Scannable(store, tx', k)
            && CounterOf(tx'.provisional, t) == CounterOf(tx.provisional, t) + 1)
  {
    hide ScanRows, OnlyRow;
    var t := store.names[name];
    var k := Key(t, Provisional(CounterOf(tx.provisional, t)));
    var (reply, tx') := Access(store, tx, InsertRow(name, row));
    if reply.Handle? { EntryShows(store, tx, tx', k); }
  }

  /** On the tick transaction an insert of a valid row always succeeds, at a
      handle nothing was found at before. */
  lemma InsertFresh(store: Store, tx: Tx, name: string, row: Row)
    requires name in store.names && store.rowValid(store.names[name], row) && TopLevel(tx)
    ensures var reply := Access(store, tx, InsertRow(name, row)).0;
      && reply.Handle? && reply.id.Provisional?
      && Read(store, tx, name, reply.id) == None
      && Key(store.names[name], reply.id) !in Scanned(store, tx, name)
  {
  }

  /** Inserts are at handles and updates at real rows, in both layers. */
  ghost predicate Placed(w: WriteSet)
  {
    && (forall k :: k in w.base ==> (w.base[k].Insert? ==> k.row.Provisional?) && (w.base[k].Update? ==> k.row.Real?))
    && (forall k :: k in w.own ==> (w.own[k].Insert? ==> k.row.Provisional?) && (w.own[k].Update? ==> k.row.Real?))
  }

  lemma AccessPlaced(store: Store, tx: Tx, op: Op)
    requires Placed(tx.writes)
    ensures Placed(Access(store, tx, op).1.writes)
  {
    hide ScanRows, LookupOwners, PendingEntries;
  }

  /** A delete is taken exactly where an update would be. The row is gone, and
      nothing else changes, if and only if no rewritten inherited insert comes
      back. */
  lemma DeleteReads(store: Store, tx: Tx, name: string, r: RowId)
    requires name in store.names && Placed(tx.writes)
    ensures var k := Key(store.names[name], r);
      var (reply, tx') := Access(store, tx, DeleteRow(name, r));
      && (reply.Done? <==> Updatable(tx, k))
      && (!reply.Done? ==> reply == Failed(InvalidTransaction))
      && (reply.Done? ==> (OnlyRow(store, tx, tx', k, None) <==> !Resurrects(tx.writes, k)))
  {
    hide ScanRows, OnlyRow;
    var k := Key(store.names[name], r);
    var (reply, tx') := Access(store, tx, DeleteRow(name, r));
    if reply.Done? {
      EntryShows(store, tx, tx', k);
      assert Shown(store, tx'.writes.View(), k) == None <==> !Resurrects(tx.writes, k);
      if OnlyRow(store, tx, tx', k, None) {
        OnlyRowReads(store, tx, tx', k, None, name, r);
        ReadShown(store, tx', name, r);
      }
    }
  }

  lemma OnlyRowReads(store: Store, tx: Tx, tx': Tx, k: Key, after: Option<Row>, name: string, r: RowId)
    requires OnlyRow(store, tx, tx', k, after) && name in store.names && k == Key(store.names[name], r)
    ensures Read(store, tx', name, r) == after
  {
  }

  /** On the tick transaction nothing comes back. */
  lemma TopLevelPlaced(tx: Tx, k: Key)
    requires TopLevel(tx)
    ensures Placed(tx.writes) && !Resurrects(tx.writes, k)
  {
  }

  // ------------------------------------------------ branches and merges

  /** A branch reads what its parent reads. */
  lemma BranchReads(store: Store, tx: Tx, name: string, r: RowId)
    requires name in store.names && Placed(tx.writes)
    ensures Read(store, tx.Branch(), name, r) == Read(store, tx, name, r)
    ensures var k := Key(store.names[name], r);
      k in Scanned(store, tx.Branch(), name) <==> k in Scanned(store, tx, name)
  {
    hide Scanned, Read;
    var k := Key(store.names[name], r);
    ReadShown(store, tx, name, r);
    ReadShown(store, tx.Branch(), name, r);
    ScanShown(store, tx, name, k);
    ScanShown(store, tx.Branch(), name, k);
  }

  /** After absorbing a child of the tick transaction, the rows the child wrote
      read as the child read them, and all others as before. */
  lemma MergeReads(store: Store, parent: Tx, child: Tx, name: string, r: RowId)
    requires name in store.names && TopLevel(parent) && child.writes.base == parent.writes.own
    ensures Read(store, Absorb(parent, child), name, r)
            == if Key(store.names[name], r) in child.writes.own then Read(store, child, name, r) else Read(store, parent, name, r)
  {
  }
}
