/** The authoritative tables (`crates/nexum-storage/src/table.rs`,
    `crates/nexum-table/src/table.rs`): row ids handed out once, versions, a
    mutation epoch per table, unique indexes, and the change records. An index
    is a set of keys of the stored rows, so owners are looked up in the rows. */
module Storage {
  import opened Values
  import opened Transaction

  /** One committed mutation of one row, with the versions on both sides. */
  datatype Change = Change(key: Key, before: Option<(Row, Version)>, after: Option<(Row, Version)>)

  /** A stored row, if there is one. */
  function At(store: Store, k: Key): Option<(Row, Version)>
  {
    if k in store.rows then Some(store.rows[k]) else None
  }

  /** The row at `k` has the key `c` of a unique index of table `t`. */
  predicate Owns(store: Store, k: Key, t: TableId, c: IndexKey)
  {
    k in store.rows && k.table == t && c in store.uniqueKeys(t, store.rows[k].0)
  }

  /** `check_insert` of every unique index. */
  predicate InsertFree(store: Store, t: TableId, row: Row)
  {
    forall c, k :: c in store.uniqueKeys(t, row) && k in store.rows ==> !Owns(store, k, t, c)
  }

  /** `check_update`: a row may keep its key, and take one nobody else has. */
  predicate UpdateFree(store: Store, k: Key, row: Row)
  {
    forall c, o :: c in store.uniqueKeys(k.table, row) && o in store.rows && o != k ==>
      Owns(store, k, k.table, c) || !Owns(store, o, k.table, c)
  }

  function Bumped(store: Store, t: TableId): Store
  {
    store.(epochs := store.epochs[t := store.Epoch(t) + 1])
  }

  /** A row gets the next id of its table and version 0. */
  function Insert(store: Store, t: TableId, row: Row): Option<(Store, seq<Change>)>
  {
    if !store.rowValid(t, row) || !InsertFree(store, t, row) then None
    else
      var k := Key(t, Real(store.NextId(t)));
      var rows: map<Key, (Row, Version)> := store.rows[k := (row, 0)];
      Some((Bumped(store, t).(rows := rows, nextIds := store.nextIds[t := store.NextId(t) + 1]),
            [Change(k, None, Some((row, 0)))]))
  }

  /** Replaces a row; the same row again is no mutation. */
  function Update(store: Store, k: Key, row: Row): Option<(Store, seq<Change>)>
  {
    if !store.rowValid(k.table, row) || k !in store.rows || !UpdateFree(store, k, row) then None
    else if store.rows[k].0 == row then Some((store, []))
    else
      var after := (row, store.rows[k].1 + 1);
      var rows: map<Key, (Row, Version)> := store.rows[k := after];
      Some((Bumped(store, k.table).(rows := rows), [Change(k, Some(store.rows[k]), Some(after))]))
  }

  function Remove(store: Store, k: Key): Option<(Store, seq<Change>)>
  {
    if k !in store.rows then None
    else Some((Bumped(store, k.table).(rows := store.rows - {k}), [Change(k, Some(store.rows[k]), None)]))
  }

  // ----------------------------------------------------------- invariants

  /** No two rows of a table share a key of a unique index. */
  ghost predicate KeysUnique(store: Store)
  {
    forall j, k, t, c :: Owns(store, j, t, c) && Owns(store, k, t, c) ==> j == k
  }

  /** Stored rows have ids already handed out. */
  ghost predicate IdsUsed(store: Store)
  {
    forall k :: k in store.rows ==> k.row.Real? && k.row.n < store.NextId(k.table)
  }

  /** And they passed the check of their table. */
  ghost predicate RowsValid(store: Store)
  {
    forall k :: k in store.rows ==> store.rowValid(k.table, store.rows[k].0)
  }

  ghost predicate SoundStore(store: Store) { KeysUnique(store) && IdsUsed(store) && RowsValid(store) }

  ghost predicate SameSchemas(a: Store, b: Store)
  {
    && b.names == a.names && b.rowValid == a.rowValid && b.indexed == a.indexed && b.owns == a.owns
    && b.uniqueKeys == a.uniqueKeys
  }

  /** What has happened to a row since: its version is no older and tells
      whether it changed, and a row that went away does not come back. */
  ghost predicate RowLater(a: Store, b: Store, k: Key)
  {
    && (k in a.rows && k in b.rows ==> a.rows[k].1 <= b.rows[k].1 && (a.rows[k].1 == b.rows[k].1 ==> a.rows[k] == b.rows[k]))
    && (k !in a.rows && k in b.rows ==> k.row.Real? && k.row.n >= a.NextId(k.table))
  }

  /** What has happened to a table since: its epoch tells whether it changed. */
  ghost predicate TableLater(a: Store, b: Store, t: TableId)
  {
    && a.NextId(t) <= b.NextId(t) && a.Epoch(t) <= b.Epoch(t)
    && (a.Epoch(t) == b.Epoch(t) ==> forall k: Key :: k.table == t ==> At(a, k) == At(b, k))
  }

  /** `b` is reached from `a` by mutations. */
  ghost predicate Later(a: Store, b: Store)
  {
    && SameSchemas(a, b)
    && (forall k: Key :: RowLater(a, b, k))
    && (forall t :: TableLater(a, b, t))
  }

  lemma LaterSelf(a: Store)
    ensures Later(a, a)
  {
  }

  lemma LaterChains(a: Store, b: Store, c: Store)
    requires IdsUsed(a) && IdsUsed(b) && Later(a, b) && Later(b, c)
    ensures Later(a, c)
  {
    forall k: Key
      ensures RowLater(a, c, k)
    {
      assert RowLater(a, b, k) && RowLater(b, c, k);
      assert TableLater(a, b, k.table);
    }
    forall t
      ensures TableLater(a, c, t)
    {
      assert TableLater(a, b, t) && TableLater(b, c, t);
    }
  }

  /** One mutation: row `k` changes to `after` and nothing else does. */
  ghost predicate Mutated(a: Store, b: Store, k: Key, after: Option<(Row, Version)>)
  {
    && SameSchemas(a, b) && At(b, k) == after
    && (forall j :: j != k ==> At(b, j) == At(a, j))
    && (forall t :: t != k.table ==> b.Epoch(t) == a.Epoch(t) && b.NextId(t) == a.NextId(t))
  }

  lemma MutatedLater(a: Store, b: Store, k: Key, after: Option<(Row, Version)>)
    requires Mutated(a, b, k, after) && RowLater(a, b, k) && a.NextId(k.table) <= b.NextId(k.table)
    requires a.Epoch(k.table) < b.Epoch(k.table) || (a.Epoch(k.table) == b.Epoch(k.table) && At(a, k) == after)
    ensures Later(a, b)
  {
    forall j: Key
      ensures RowLater(a, b, j)
    {
      assert j == k || At(b, j) == At(a, j);
    }
    forall t
      ensures TableLater(a, b, t)
    {
      assert forall j: Key :: j.table == t && j != k ==> At(a, j) == At(b, j);
    }
  }

  /** An accepted insert: a fresh id, and all invariants. */
  lemma InsertKeeps(store: Store, t: TableId, row: Row)
    requires SoundStore(store) && Insert(store, t, row).Some?
    ensures var (store', cs) := Insert(store, t, row).value;
      var k := Key(t, Real(store.NextId(t)));
      && SoundStore(store') && Later(store, store') && Mutated(store, store', k, Some((row, 0)))
      && store'.NextId(t) == store.NextId(t) + 1 && At(store, k) == None
      && cs == [Change(k, At(store, k), At(store', k))]
  {
    InsertUnique(store, t, row);
    hide KeysUnique, InsertFree, Later;
    MutatedLater(store, Insert(store, t, row).value.0, Key(t, Real(store.NextId(t))), Some((row, 0)));
  }

  lemma InsertUnique(store: Store, t: TableId, row: Row)
    requires SoundStore(store) && Insert(store, t, row).Some?
    ensures KeysUnique(Insert(store, t, row).value.0)
  {
    hide IdsUsed, RowsValid;
    var store', n := Insert(store, t, row).value.0, Key(t, Real(store.NextId(t)));
    forall j, k, u, c | Owns(store', j, u, c) && Owns(store', k, u, c)
      ensures j == k
    {
      assert j == n || Owns(store, j, u, c);
      assert k == n || Owns(store, k, u, c);
    }
  }

  /** An accepted update: the version tells whether the row changed. */
  lemma UpdateKeeps(store: Store, k: Key, row: Row)
    requires SoundStore(store) && Update(store, k, row).Some?
    ensures var (store', cs) := Update(store, k, row).value;
      && k in store.rows && SoundStore(store') && Later(store, store')
      && var (was, v) := store.rows[k];
      && Mutated(store, store', k, Some((row, if row == was then v else v + 1)))
      && store'.NextId(k.table) == store.NextId(k.table)
      && cs == if row == was then [] else [Change(k, At(store, k), At(store', k))]
  {
    UpdateUnique(store, k, row);
    hide KeysUnique, UpdateFree, Later;
    var store' := Update(store, k, row).value.0;
    MutatedLater(store, store', k, At(store', k));
  }

  lemma UpdateUnique(store: Store, n: Key, row: Row)
    requires SoundStore(store) && Update(store, n, row).Some?
    ensures KeysUnique(Update(store, n, row).value.0)
  {
    hide IdsUsed, RowsValid;
    var store' := Update(store, n, row).value.0;
    forall j, k, u, c | Owns(store', j, u, c) && Owns(store', k, u, c)
      ensures j == k
    {
      assert j == n || Owns(store, j, u, c);
      assert k == n || Owns(store, k, u, c);
    }
  }

  lemma RemoveKeeps(store: Store, k: Key)
    requires SoundStore(store) && Remove(store, k).Some?
    ensures var (store', cs) := Remove(store, k).value;
      && SoundStore(store') && Later(store, store') && Mutated(store, store', k, None)
      && store'.NextId(k.table) == store.NextId(k.table)
      && cs == [Change(k, At(store, k), At(store', k))] && At(store, k).Some?
  {
    var store' := Remove(store, k).value.0;
    forall i, j, u, c | Owns(store', i, u, c) && Owns(store', j, u, c)
      ensures i == j
    {
      assert Owns(store, i, u, c) && Owns(store, j, u, c);
    }
  }
}
