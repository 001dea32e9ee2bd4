/** The optimistic transaction (`crates/nexum-tx/src`): buffered writes in two
    layers, recorded reads, and provisional insert handles, over a store that
    stays frozen while a tick runs. */
module Transaction {
  import opened Values

  type TableId = nat
  type Version = nat

  /** A row id; `Provisional(n)` is the n-th insert handle of a table. */
  datatype RowId = Real(n: nat) | Provisional(n: nat)
  datatype Key = Key(table: TableId, row: RowId)

  datatype Error =
    | NotFound | AlreadyExists | InvalidArgument | InvalidTransaction | Conflict | Capacity | Internal
    | Application(code: int)

  // --------------------------------------------------------------- store

  /** A key in a named unique index of a table. */
  datatype IndexKey = IndexKey(index: string, key: seq<Value>)

  /** The committed state a transaction reads: rows with their versions, and
      for every table its mutation epoch and the id its next row gets. The rest
      follows from the schemas: `rowValid` is the check of a row, `owns` says
      whether a row has a key in a named index, and `uniqueKeys` gives a row's
      keys in the unique indexes. */
  datatype Store = Store(
    names: map<string, TableId>,
    rows: map<Key, (Row, Version)>,
    epochs: map<TableId, Version>,
    nextIds: map<TableId, nat>,
    rowValid: (TableId, Row) -> bool,
    indexed: (TableId, string, seq<Value>) -> bool,
    owns: (TableId, string, seq<Value>, Row) -> bool,
    uniqueKeys: (TableId, Row) -> set<IndexKey>)
  {
    function VersionOf(k: Key): Option<Version>
    {
      if k in rows then Some(rows[k].1) else None
    }

    function RowAt(k: Key): Option<Row>
    {
      if k in rows then Some(rows[k].0) else None
    }

    /** Storage never assigns a provisional id. */
    predicate Committed(k: Key)
    {
      k in rows && k.row.Real?
    }

    function Epoch(t: TableId): Version
    {
      if t in epochs then epochs[t] else 0
    }

    function NextId(t: TableId): nat
    {
      if t in nextIds then nextIds[t] else 0
    }
  }

  // ----------------------------------------------------------- write set

  datatype WriteEntry = Insert(row: Row) | Update(row: Row) | Delete

  type Writes = map<Key, WriteEntry>

  /** Inherited writes (`base`, empty for a top-level transaction) under this
      transaction's own writes. */
  datatype WriteSet = WriteSet(base: Writes, own: Writes)
  {
    /** The logical write set: own entries override inherited ones. */
    function View(): Writes { base + own }

    function HasAnyInsert(): bool
    {
      (exists k :: k in own && own[k].Insert?) || (exists k :: k in base && base[k].Insert?)
    }

    /** Coalesces an update of `k` into the own layer. */
    function Update(k: Key, row: Row): Option<WriteSet>
    {
      var view := View();
      if k !in view then
        if k.row.Provisional? then None else Some(this.(own := own[k := WriteEntry.Update(row)]))
      else
        match view[k]
        case Insert(_) => Some(this.(own := own[k := WriteEntry.Insert(row)]))
        case Update(_) => Some(this.(own := own[k := WriteEntry.Update(row)]))
        case Delete => None
    }

    /** Coalesces a delete of `k` into the own layer. A pending insert found
        in the own layer is dropped from it; an inherited one is hidden by a
        tombstone. */
    function Delete(k: Key): Option<WriteSet>
    {
      var view := View();
      if k !in view then
        if k.row.Provisional? then None else Some(this.(own := own[k := WriteEntry.Delete]))
      else
        match view[k]
        case Insert(_) =>
          if k in own then Some(this.(own := own - {k})) else Some(this.(own := own[k := WriteEntry.Delete]))
        case Update(_) => Some(this.(own := own[k := WriteEntry.Delete]))
        case Delete => None
    }

    /** The child of a branch: everything inherited, nothing of its own. */
    function Branch(): WriteSet
    {
      WriteSet(Folded(base, own), map[])
    }
  }

  /** Own entries folded over inherited ones; deleting a pending insert leaves
      nothing. */
  function Folded(base: Writes, own: Writes): Writes
  {
    map k | k in base.Keys + own.Keys
            && !(k in base && base[k].Insert? && k in own && own[k].Delete?)
         :: if k in own then own[k] else base[k]
  }

  /** The parent after folding in a child's own layer. An inherited insert
      that the child deleted vanishes, or is hidden when it is inherited here
      too. */
  function AbsorbWrites(parent: WriteSet, child: Writes): WriteSet
  {
    parent.(own := Folded(parent.own, child))
  }

  // ------------------------------------------------------------ read set

  /** Row observations with their first-insertion order, and tables observed
      as a set. */
  datatype ReadSet = ReadSet(rows: map<Key, Option<Version>>, order: seq<Key>, tables: map<TableId, Version>)
  {
    function Record(k: Key, observed: Option<Version>): ReadSet
    {
      ReadSet(rows[k := observed], if k in rows then order else order + [k], tables)
    }

    function RecordTable(t: TableId, epoch: Version): ReadSet
    {
      this.(tables := tables[t := epoch])
    }

    /** Drops the row observations recorded after the first `len`. */
    function TruncateTo(len: nat): ReadSet
      requires len <= |order|
    {
      var late := set k | k in order[len..];
      ReadSet(rows - late, order[..len], tables)
    }
  }

  // --------------------------------------------------------- transaction

  type Counters = map<TableId, nat>

  function CounterOf(counters: Counters, t: TableId): nat
  {
    if t in counters then counters[t] else 0
  }

  datatype Tx = Tx(seen: ReadSet, writes: WriteSet, provisional: Counters)
  {
    /** A child of this transaction with an empty read set. */
    function Branch(): Tx
    {
      Tx(ReadSet(map[], [], map[]), writes.Branch(), provisional)
    }
  }

  function EmptyTx(): Tx
  {
    Tx(ReadSet(map[], [], map[]), WriteSet(map[], map[]), map[])
  }

  /** Merges a finished child: reads unite, own writes fold, and each handle
      counter becomes the maximum. */
  function Absorb(parent: Tx, child: Tx): Tx
  {
    Tx(AbsorbReads(parent.seen, child.seen),
       AbsorbWrites(parent.writes, child.writes.own),
       AbsorbCounters(parent.provisional, child.provisional))
  }

  function AbsorbReads(parent: ReadSet, child: ReadSet): ReadSet
  {
    ReadSet(parent.rows + child.rows,
            parent.order + NewKeys(child.order, parent.rows.Keys),
            parent.tables + child.tables)
  }

  /** The keys of `order` that `known` does not hold yet. The source appends
      them in key order; the order matters only to `TruncateTo`. */
  function NewKeys(order: seq<Key>, known: set<Key>): seq<Key>
  {
    if order == [] then []
    else if order[0] in known then NewKeys(order[1..], known)
    else [order[0]] + NewKeys(order[1..], known)
  }

  function AbsorbCounters(parent: Counters, child: Counters): Counters
  {
    map t | t in parent.Keys + child.Keys ::
      if t !in child then parent[t]
      else if t in parent && parent[t] >= child[t] then parent[t]
      else child[t]
  }

  // ---------------------------------------------------------- operations

  datatype Op =
    | Get(table: string, row: RowId)
    | Contains(table: string, row: RowId)
    | Scan(table: string)
    | Pending(table: string)
    | Lookup(table: string, index: string, key: seq<Value>)
    | InsertRow(table: string, value: Row)
    | UpdateRow(table: string, row: RowId, value: Row)
    | DeleteRow(table: string, row: RowId)

  datatype Reply =
    | Failed(error: Error)
    | Found(row: Option<Row>)
    | Present(yes: bool)
    | Rows(rows: map<Key, Row>)
    | Entries(entries: map<Key, WriteEntry>)
    | Owners(owners: set<Key>)
    | Handle(id: RowId)
    | Done

  /** The merged scan of table `t`: committed rows with pending updates
      overlaid and pending deletes hidden, and the pending inserts. The source
      lists them in row-id order. */
  function ScanRows(store: Store, view: Writes, t: TableId): map<Key, Row>
  {
    map k | k in store.rows.Keys + view.Keys && k.table == t
            && ((store.Committed(k) && !(k in view && view[k].Delete?)) || (k in view && view[k].Insert?))
         :: if k in view && !view[k].Delete? then view[k].row else store.rows[k].0
  }

  /** Committed owners of an index key that are not deleted or updated away. */
  function CommittedOwners(store: Store, view: Writes, t: TableId, index: string, key: seq<Value>): set<Key>
  {
    set k | k in store.rows && k.table == t && store.Committed(k)
            && store.owns(t, index, key, store.rows[k].0)
            && !(k in view && view[k].Delete?)
            && !(k in view && view[k].Update? && !store.owns(t, index, key, view[k].row))
  }

  /** Pending rows that own an index key. */
  function PendingOwners(store: Store, view: Writes, t: TableId, index: string, key: seq<Value>): set<Key>
  {
    set k | k in view && k.table == t && !view[k].Delete? && store.owns(t, index, key, view[k].row)
  }

  /** Index owners. The pending rows are consulted only when some insert is
      pending anywhere in the write set. */
  function LookupOwners(store: Store, w: WriteSet, t: TableId, index: string, key: seq<Value>): set<Key>
  {
    CommittedOwners(store, w.View(), t, index, key)
    + (if w.HasAnyInsert() then PendingOwners(store, w.View(), t, index, key) else {})
  }

  function PendingEntries(view: Writes, t: TableId): map<Key, WriteEntry>
  {
    map k | k in view && k.table == t :: view[k]
  }

  /** Runs one operation against a transaction. */
  function Access(store: Store, tx: Tx, op: Op): (Reply, Tx)
  {
    if op.table !in store.names then
      (if op.Pending? then Entries(map[]) else Failed(NotFound), tx)
    else
      var t := store.names[op.table];
      var view := tx.writes.View();
      match op
      case Get(_, r) =>
        var k := Key(t, r);
        if k in view then (Found(if view[k].Delete? then None else Some(view[k].row)), tx)
        else if r.Provisional? then (Found(None), tx)
        else (Found(store.RowAt(k)), tx.(seen := tx.seen.Record(k, store.VersionOf(k))))
      case Contains(_, r) =>
        var k := Key(t, r);
        if k in view then (Present(!view[k].Delete?), tx)
        else if r.Provisional? then (Present(false), tx)
        else (Present(store.VersionOf(k).Some?), tx.(seen := tx.seen.Record(k, store.VersionOf(k))))
      case Scan(_) =>
        (Rows(ScanRows(store, view, t)), tx.(seen := tx.seen.RecordTable(t, store.Epoch(t))))
      case Pending(_) =>
        (Entries(PendingEntries(view, t)), tx)
      case Lookup(_, index, key) =>
        var tx' := tx.(seen := tx.seen.RecordTable(t, store.Epoch(t)));
        if !store.indexed(t, index, key) then (Failed(InvalidArgument), tx')
        else (Owners(LookupOwners(store, tx.writes, t, index, key)), tx')
      case InsertRow(_, row) =>
        if !store.rowValid(t, row) then (Failed(InvalidArgument), tx)
        else
          var n := CounterOf(tx.provisional, t);
          var k := Key(t, Provisional(n));
          var tx' := tx.(provisional := tx.provisional[t := n + 1]);
          if k in tx.writes.own then (Failed(InvalidTransaction), tx')
          else (Handle(Provisional(n)), tx'.(writes := tx.writes.(own := tx.writes.own[k := Insert(row)])))
      case UpdateRow(_, r, row) =>
        if !store.rowValid(t, row) then (Failed(InvalidArgument), tx)
        else Written(store, tx, Key(t, r), tx.writes.Update(Key(t, r), row))
      case DeleteRow(_, r) =>
        Written(store, tx, Key(t, r), tx.writes.Delete(Key(t, r)))
  }

  /** Installs a coalesced write; the first write to a real row also records
      the version it had. */
  function Written(store: Store, tx: Tx, k: Key, writes: Option<WriteSet>): (Reply, Tx)
  {
    match writes
    case None => (Failed(InvalidTransaction), tx)
    case Some(w) =>
      (Done,
       Tx(if k.row.Real? && k !in tx.writes.View() then tx.seen.Record(k, store.VersionOf(k)) else tx.seen,
          w, tx.provisional))
  }

  // ---------------------------------------------------------- invariants

  /** A write set nothing is inherited into: inserts are exactly the entries
      at provisional handles, each below its table's counter. */
  ghost predicate Formed(own: Writes, counters: Counters)
  {
    forall k :: k in own ==>
      && (own[k].Insert? <==> k.row.Provisional?)
      && (k.row.Provisional? ==> k.row.n < CounterOf(counters, k.table))
  }

  /** A transaction that was not branched, such as the tick transaction. */
  ghost predicate TopLevel(tx: Tx)
  {
    tx.writes.base == map[] && Formed(tx.writes.own, tx.provisional)
  }

  /** Every observation matches the frozen store, and rows are listed once in
      the order of their first observation. */
  ghost predicate Current(store: Store, seen: ReadSet)
  {
    && (forall k :: k in seen.rows ==> seen.rows[k] == store.VersionOf(k))
    && (forall t :: t in seen.tables ==> seen.tables[t] == store.Epoch(t))
    && ListsOnce(seen.order, seen.rows.Keys)
  }

  ghost predicate ListsOnce(order: seq<Key>, keys: set<Key>)
  {
    && (forall k :: k in order <==> k in keys)
    && (forall i, j :: 0 <= i < j < |order| ==> order[i] != order[j])
  }
}
