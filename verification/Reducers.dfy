/** Reducers against the tick transaction (`crates/nexum-reducer/src/registry.rs`,
    `invoke_in_tx`; `crates/nexum-execution/src/world.rs`, `invoke_reducer`),
    and the snapshot that undoes a failed one
    (`crates/nexum-tx/src/transaction.rs`). */
module Reducers {
  import opened Values
  import opened Transaction
  import opened Program

  datatype Act =
    | Use(op: Op)
    | Raise(event: Event)
    | Return(value: Value)
    | Throw(error: Error)

  /** A deterministic reducer body: at most `bound` actions, each picked from
      the replies so far. */
  datatype Reducer = Reducer(act: seq<Reply> -> Act, bound: nat)

  ghost predicate Halts(r: Reducer)
  {
    forall h: seq<Reply> :: |h| >= r.bound ==> r.act(h).Return? || r.act(h).Throw?
  }

  /** What an invocation leaves: its outcome, the transaction, and its events,
      which count only when it succeeds. */
  datatype Invoked = Invoked(outcome: Outcome, tx: Tx, events: seq<Event>)

  function Invoke(store: Store, r: Reducer, tx: Tx, events: seq<Event>, h: seq<Reply>): Invoked
    requires Halts(r)
    decreases r.bound - |h|
  {
    match r.act(h)
    case Return(v) => Invoked(Ok(v), tx, events)
    case Throw(e) => Invoked(Err(e), tx, events)
    case Use(op) =>
      var (reply, tx') := Access(store, tx, op);
      Invoke(store, r, tx', events, h + [reply])
    case Raise(e) =>
      if e.name == "" then Invoke(store, r, tx, events, h + [Failed(InvalidArgument)])
      else Invoke(store, r, tx, events + [e], h + [Done])
  }

  type Shelf = map<string, Args -> Reducer>

  /** The native registry and the WASM one, empty when none is configured. */
  datatype Library = Library(native: Shelf, wasm: Shelf)

  ghost predicate ShelfHalts(s: Shelf)
  {
    forall name, args :: name in s ==> Halts(s[name](args))
  }

  ghost predicate AllHalt(lib: Library)
  {
    ShelfHalts(lib.native) && ShelfHalts(lib.wasm)
  }

  function FromShelf(store: Store, s: Shelf, name: string, args: Args, tx: Tx): Invoked
    requires ShelfHalts(s)
  {
    if name in s then Invoke(store, s[name](args), tx, [], []) else Invoked(Err(NotFound), tx, [])
  }

  /** Native first, then WASM, then `NotFound`. */
  function InvokeReducer(store: Store, lib: Library, name: string, args: Args, tx: Tx): Invoked
    requires AllHalt(lib)
  {
    if name in lib.native then FromShelf(store, lib.native, name, args, tx)
    else FromShelf(store, lib.wasm, name, args, tx)
  }

  // ------------------------------------------------------------ rollback

  datatype Snapshot = Snapshot(writes: WriteSet, watermark: nat, provisional: Counters)

  function TakeSnapshot(tx: Tx): Snapshot
  {
    Snapshot(tx.writes, |tx.seen.rows|, tx.provisional)
  }

  function Rollback(tx: Tx, s: Snapshot): Tx
    requires s.watermark <= |tx.seen.order|
  {
    Tx(tx.seen.TruncateTo(s.watermark), s.writes, s.provisional)
  }

  /** Observations only accumulate. */
  ghost predicate Accrues(a: ReadSet, b: ReadSet)
  {
    && a.order <= b.order
    && (forall k :: k in a.rows ==> k in b.rows && a.rows[k] == b.rows[k])
    && (forall t :: t in a.tables ==> t in b.tables && a.tables[t] == b.tables[t])
  }

  lemma RecordAccrues(store: Store, seen: ReadSet, k: Key)
    requires Current(store, seen)
    ensures var seen' := seen.Record(k, store.VersionOf(k)); Accrues(seen, seen') && Current(store, seen')
  {
  }

  lemma TableAccrues(store: Store, seen: ReadSet, t: TableId)
    requires Current(store, seen)
    ensures Accrues(seen, seen)
    ensures var seen' := seen.RecordTable(t, store.Epoch(t)); Accrues(seen, seen') && Current(store, seen')
  {
  }

  lemma AccessAccrues(store: Store, tx: Tx, op: Op)
    requires Current(store, tx.seen)
    ensures var tx' := Access(store, tx, op).1; Accrues(tx.seen, tx'.seen) && Current(store, tx'.seen)
  {
    hide Current, Accrues, ScanRows, LookupOwners, PendingEntries;
    var t := if op.table in store.names then store.names[op.table] else 0;
    TableAccrues(store, tx.seen, t);
    if op.Get? || op.Contains? || op.UpdateRow? || op.DeleteRow? {
      RecordAccrues(store, tx.seen, Key(t, op.row));
    }
  }

  lemma {:induction false} InvokeAccrues(store: Store, r: Reducer, tx: Tx, events: seq<Event>, h: seq<Reply>)
    requires Halts(r) && Current(store, tx.seen)
    ensures var after := Invoke(store, r, tx, events, h).tx; Accrues(tx.seen, after.seen) && Current(store, after.seen)
    decreases r.bound - |h|
  {
    hide Access, Current;
    match r.act(h)
    case Return(_) =>
    case Throw(_) =>
    case Use(op) =>
      AccessAccrues(store, tx, op);
      var (reply, tx') := Access(store, tx, op);
      InvokeAccrues(store, r, tx', events, h + [reply]);
    case Raise(e) =>
      if e.name == "" {
        InvokeAccrues(store, r, tx, events, h + [Failed(InvalidArgument)]);
      } else {
        InvokeAccrues(store, r, tx, events + [e], h + [Done]);
      }
  }

  lemma NamedAccrues(store: Store, lib: Library, name: string, args: Args, tx: Tx)
    requires AllHalt(lib) && Current(store, tx.seen)
    ensures var after := InvokeReducer(store, lib, name, args, tx).tx;
      Accrues(tx.seen, after.seen) && Current(store, after.seen)
  {
    hide Invoke, Current;
    if name in lib.native {
      InvokeAccrues(store, lib.native[name](args), tx, [], []);
    } else if name in lib.wasm {
      InvokeAccrues(store, lib.wasm[name](args), tx, [], []);
    }
  }

  /** The rows recorded after the watermark are exactly those first observed
      since. */
  lemma RowsRestored(store: Store, seen: ReadSet, after: ReadSet)
    requires Current(store, seen) && Current(store, after) && Accrues(seen, after)
    ensures |seen.rows| == |seen.order|
    ensures var back := after.TruncateTo(|seen.order|); back.rows == seen.rows && back.order == seen.order
  {
    hide ListsOnce;
    var n := |seen.order|;
    CountsAgree(seen.order, seen.rows.Keys);
    assert |seen.rows| == |seen.rows.Keys|;
    assert after.order[..n] == seen.order;
    LateOrNot(seen.order, after.order, seen.rows.Keys, after.rows.Keys);
    assert after.TruncateTo(n).rows == seen.rows;
  }

  lemma LateOrNot(a: seq<Key>, b: seq<Key>, seen: set<Key>, after: set<Key>)
    requires a <= b && ListsOnce(a, seen) && ListsOnce(b, after)
    ensures after - (set k | k in b[|a|..]) == seen
  {
    forall k
      ensures k in a <==> k in b && k !in b[|a|..]
    {
      assert b == a + b[|a|..];
    }
  }

  lemma {:induction false} CountsAgree(order: seq<Key>, keys: set<Key>)
    requires ListsOnce(order, keys)
    ensures |keys| == |order|
    decreases |order|
  {
    if order == [] {
      assert keys == {};
    } else {
      var k, rest := order[|order| - 1], order[..|order| - 1];
      assert order == rest + [k];
      CountsAgree(rest, keys - {k});
      assert keys == (keys - {k}) + {k};
    }
  }

  /** Rolling back restores the writes, the handle counters and the row
      observations. Table observations stay, so the transaction is exactly
      what it was if and only if no table was observed for the first time. */
  lemma RollbackExact(store: Store, tx: Tx, after: Tx)
    requires Current(store, tx.seen) && Current(store, after.seen) && Accrues(tx.seen, after.seen)
    ensures TakeSnapshot(tx).watermark <= |after.seen.order|
    ensures var back := Rollback(after, TakeSnapshot(tx));
      && back.writes == tx.writes && back.provisional == tx.provisional
      && back.seen.rows == tx.seen.rows && back.seen.order == tx.seen.order
      && back.seen.tables == after.seen.tables
      && Current(store, back.seen)
      && (back == tx <==> after.seen.tables.Keys <= tx.seen.tables.Keys)
  {
    hide ListsOnce;
    RowsRestored(store, tx.seen, after.seen);
    var back := Rollback(after, TakeSnapshot(tx));
    if after.seen.tables.Keys <= tx.seen.tables.Keys {
      assert back.seen.tables == tx.seen.tables;
    }
  }

  /** Scans one table, then fails. */
  function ScanAndFail(table: string): Reducer
  {
    Reducer(h => if h == [] then Use(Scan(table)) else Throw(Application(1)), 1)
  }

  /** The first observation of a table outlives the call that made it. */
  lemma TableMarkSurvives(store: Store, table: string, tx: Tx)
    requires table in store.names && store.names[table] !in tx.seen.tables && Current(store, tx.seen)
    ensures var r := Invoke(store, ScanAndFail(table), tx, [], []);
      && r.outcome.Err?
      && TakeSnapshot(tx).watermark <= |r.tx.seen.order|
      && Rollback(r.tx, TakeSnapshot(tx)) != tx
  {
    hide Current, Accrues, ScanRows;
    var r := ScanAndFail(table);
    var (reply, tx') := Access(store, tx, Scan(table));
    assert [] + [reply] == [reply];
    assert Invoke(store, r, tx, [], []) == Invoke(store, r, tx', [], [reply]);
    InvokeAccrues(store, r, tx, [], []);
    RollbackExact(store, tx, tx');
  }
}
