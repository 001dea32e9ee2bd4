/** Optimistic concurrency (`crates/nexum-tx/src`): a transaction that validates
    against the current tables did what it would have done had it run on them,
    so any history of commits is a serial one. */
module Serializable {
  import opened Values
  import opened Transaction
  import opened Program
  import opened Reducers
  import opened Storage
  import opened Commit

  // ------------------------------------------------------------ replaying

  lemma RowReplays(a: Store, b: Store, k: Key)
    requires Later(a, b) && a.VersionOf(k) == b.VersionOf(k)
    ensures At(a, k) == At(b, k)
  {
    assert RowLater(a, b, k);
  }

  lemma TableReplays(a: Store, b: Store, t: TableId)
    requires Later(a, b) && a.Epoch(t) == b.Epoch(t)
    ensures forall k: Key :: k.table == t ==> At(a, k) == At(b, k)
  {
    assert TableLater(a, b, t);
  }

  lemma ScanReplays(a: Store, b: Store, view: Writes, t: TableId)
    requires forall k: Key :: k.table == t ==> At(a, k) == At(b, k)
    ensures ScanRows(a, view, t) == ScanRows(b, view, t)
  {
    forall k: Key | k.table == t
      ensures (k in a.rows <==> k in b.rows) && (k in a.rows ==> a.rows[k] == b.rows[k])
    {
      assert At(a, k) == At(b, k);
    }
  }

  lemma LookupReplays(a: Store, b: Store, w: WriteSet, t: TableId, index: string, key: seq<Value>)
    requires (forall k: Key :: k.table == t ==> At(a, k) == At(b, k)) && a.owns == b.owns
    ensures LookupOwners(a, w, t, index, key) == LookupOwners(b, w, t, index, key)
  {
    forall k: Key | k.table == t
      ensures (k in a.rows <==> k in b.rows) && (k in a.rows ==> a.rows[k] == b.rows[k])
    {
      assert At(a, k) == At(b, k);
    }
    assert CommittedOwners(a, w.View(), t, index, key) == CommittedOwners(b, w.View(), t, index, key);
  }

  /** An operation whose observations still hold later replies and does the
      same there. */
  lemma AccessReplays(a: Store, b: Store, tx: Tx, op: Op)
    requires Later(a, b) && Holds(b, Access(a, tx, op).1.seen)
    ensures Access(b, tx, op) == Access(a, tx, op)
  {
    hide ScanRows, LookupOwners, PendingEntries, RowLater, TableLater;
    if op.table in a.names {
      var t := a.names[op.table];
      if op.Scan? || op.Lookup? {
        assert Access(a, tx, op).1.seen.tables[t] == a.Epoch(t);
        TableReplays(a, b, t);
        ScanReplays(a, b, tx.writes.View(), t);
        if op.Lookup? { LookupReplays(a, b, tx.writes, t, op.index, op.key); }
      } else if op.Get? || op.Contains? || op.UpdateRow? || op.DeleteRow? {
        var k := Key(t, op.row);
        if k in Access(a, tx, op).1.seen.rows && Access(a, tx, op).1.seen.rows[k] == a.VersionOf(k) {
          RowReplays(a, b, k);
        }
      }
    }
  }

  lemma HoldsEarlier(store: Store, seen: ReadSet, more: ReadSet)
    requires Accrues(seen, more) && Holds(store, more)
    ensures Holds(store, seen)
  {
  }

  /** So does a whole reducer run: nothing it depends on goes unobserved. */
  lemma {:induction false} InvokeReplays(a: Store, b: Store, r: Reducer, tx: Tx, events: seq<Event>, h: seq<Reply>)
    requires Halts(r) && Later(a, b) && Current(a, tx.seen) && Holds(b, Invoke(a, r, tx, events, h).tx.seen)
    ensures Invoke(b, r, tx, events, h) == Invoke(a, r, tx, events, h)
    decreases r.bound - |h|
  {
    hide Access, Current, Later, Holds, Accrues;
    match r.act(h)
    case Return(_) =>
    case Throw(_) =>
    case Use(op) =>
      var (reply, tx') := Access(a, tx, op);
      AccessAccrues(a, tx, op);
      InvokeAccrues(a, r, tx', events, h + [reply]);
      HoldsEarlier(b, tx'.seen, Invoke(a, r, tx', events, h + [reply]).tx.seen);
      AccessReplays(a, b, tx, op);
      InvokeReplays(a, b, r, tx', events, h + [reply]);
    case Raise(e) =>
      if e.name == "" {
        InvokeReplays(a, b, r, tx, events, h + [Failed(InvalidArgument)]);
      } else {
        InvokeReplays(a, b, r, tx, events + [e], h + [Done]);
      }
  }

  // ----------------------------------------------------------- lost updates

  /** Every stored row a transaction writes has been observed. */
  ghost predicate Guarded(tx: Tx)
  {
    tx.writes.base == map[] && forall k :: k in tx.writes.own && k.row.Real? ==> k in tx.seen.rows
  }

  lemma AccessGuarded(store: Store, tx: Tx, op: Op)
    requires Guarded(tx)
    ensures Guarded(Access(store, tx, op).1)
  {
    hide ScanRows, LookupOwners, PendingEntries;
    assert tx.writes.View() == tx.writes.own;
  }

  lemma {:induction false} InvokeGuarded(store: Store, r: Reducer, tx: Tx, events: seq<Event>, h: seq<Reply>)
    requires Halts(r) && Guarded(tx)
    ensures Guarded(Invoke(store, r, tx, events, h).tx)
    decreases r.bound - |h|
  {
    hide Access, Guarded;
    match r.act(h)
    case Return(_) =>
    case Throw(_) =>
    case Use(op) =>
      var (reply, tx') := Access(store, tx, op);
      AccessGuarded(store, tx, op);
      InvokeGuarded(store, r, tx', events, h + [reply]);
    case Raise(e) =>
      if e.name == "" {
        InvokeGuarded(store, r, tx, events, h + [Failed(InvalidArgument)]);
      } else {
        InvokeGuarded(store, r, tx, events + [e], h + [Done]);
      }
  }

  /** No update is lost: a row that a transaction overwrites or deletes, even
      without having read it, is at commit what it was when it ran. */
  lemma NoLostUpdates(a: Store, b: Store, r: Reducer, k: Key)
    requires Halts(r) && SoundStore(b) && Later(a, b) && CommitTo(b, RunOn(a, r).tx).Accepted?
    requires k in RunOn(a, r).tx.writes.View() && k.row.Real?
    ensures At(a, k) == At(b, k)
  {
    hide SoundStore, Later, CommitTo, Access;
    var tx := RunOn(a, r).tx;
    InvokeGuarded(a, r, EmptyTx(), [], []);
    FreshCurrent(a);
    InvokeAccrues(a, r, EmptyTx(), [], []);
    CommitExact(b, tx);
    assert tx.writes.View() == tx.writes.own;
    RowReplays(a, b, k);
  }

  // ------------------------------------------------------------ histories

  /** A transaction that ran on the `begun`-th state of a history. */
  datatype Attempt = Attempt(reducer: Reducer, begun: nat)

  function RunOn(store: Store, r: Reducer): Invoked
    requires Halts(r)
  {
    Invoke(store, r, EmptyTx(), [], [])
  }

  /** Each attempt ran on some earlier state and then tried to commit to the
      current one. */
  ghost predicate History(stores: seq<Store>, attempts: seq<Attempt>)
  {
    && |stores| == |attempts| + 1
    && (forall i :: 0 <= i < |attempts| ==> attempts[i].begun <= i && Halts(attempts[i].reducer))
    && (forall i :: 0 <= i < |attempts| ==>
          var v := CommitTo(stores[i], RunOn(stores[attempts[i].begun], attempts[i].reducer).tx);
          stores[i + 1] == if v.Accepted? then v.store else stores[i])
  }

  ghost predicate Succeeds(stores: seq<Store>, attempts: seq<Attempt>, i: nat)
    requires History(stores, attempts) && i < |attempts|
  {
    CommitTo(stores[i], RunOn(stores[attempts[i].begun], attempts[i].reducer).tx).Accepted?
  }

  /** One after another, each on what the ones before it left. */
  function OneByOne(store: Store, rs: seq<Reducer>): Store
    requires forall r :: r in rs ==> Halts(r)
    decreases |rs|
  {
    if rs == [] then store
    else
      var v := CommitTo(store, RunOn(store, rs[0]).tx);
      OneByOne(if v.Accepted? then v.store else store, rs[1..])
  }

  /** The transactions of a history that committed, in commit order. */
  ghost function Winners(stores: seq<Store>, attempts: seq<Attempt>, from: nat): (rs: seq<Reducer>)
    requires History(stores, attempts) && from <= |attempts|
    ensures forall r :: r in rs ==> Halts(r)
    decreases |attempts| - from
  {
    if from == |attempts| then []
    else (if Succeeds(stores, attempts, from) then [attempts[from].reducer] else []) + Winners(stores, attempts, from + 1)
  }

  lemma {:induction false} HistoryLater(stores: seq<Store>, attempts: seq<Attempt>, i: nat, j: nat)
    requires History(stores, attempts) && SoundStore(stores[0]) && i <= j < |stores|
    ensures SoundStore(stores[i]) && SoundStore(stores[j]) && Later(stores[i], stores[j])
    decreases j, j - i
  {
    hide SoundStore, Later, Holds, RunOn, CommitTo;
    if j == 0 {
      LaterSelf(stores[0]);
    } else if i == j {
      HistoryLater(stores, attempts, j - 1, j - 1);
      CommitExact(stores[j - 1], RunOn(stores[attempts[j - 1].begun], attempts[j - 1].reducer).tx);
      LaterSelf(stores[j]);
    } else {
      HistoryLater(stores, attempts, i, j - 1);
      CommitExact(stores[j - 1], RunOn(stores[attempts[j - 1].begun], attempts[j - 1].reducer).tx);
      LaterSelf(stores[j - 1]);
      assert Storage.IdsUsed(stores[i]) && Storage.IdsUsed(stores[j - 1]) by { Ids(stores[i]); Ids(stores[j - 1]); }
      LaterChains(stores[i], stores[j - 1], stores[j]);
    }
  }

  lemma Ids(store: Store)
    requires SoundStore(store)
    ensures IdsUsed(store)
  {
  }

  lemma FreshCurrent(store: Store)
    ensures Current(store, EmptyTx().seen)
  {
  }

  /** A transaction that committed did what it would have done on the state it
      was committed to. */
  lemma WinnerReplays(stores: seq<Store>, attempts: seq<Attempt>, i: nat)
    requires History(stores, attempts) && SoundStore(stores[0]) && i < |attempts| && Succeeds(stores, attempts, i)
    ensures RunOn(stores[i], attempts[i].reducer) == RunOn(stores[attempts[i].begun], attempts[i].reducer)
  {
    hide SoundStore, Later, Holds, Current, CommitTo;
    var a, b, r := stores[attempts[i].begun], stores[i], attempts[i].reducer;
    HistoryLater(stores, attempts, attempts[i].begun, i);
    CommitExact(b, RunOn(a, r).tx);
    FreshCurrent(a);
    InvokeReplays(a, b, r, EmptyTx(), [], []);
  }

  lemma {:induction false} SerialFrom(stores: seq<Store>, attempts: seq<Attempt>, from: nat)
    requires History(stores, attempts) && SoundStore(stores[0]) && from <= |attempts|
    ensures OneByOne(stores[from], Winners(stores, attempts, from)) == stores[|attempts|]
    decreases |attempts| - from
  {
    hide SoundStore, RunOn, CommitTo;
    if from < |attempts| {
      SerialFrom(stores, attempts, from + 1);
      var rest := Winners(stores, attempts, from + 1);
      if Succeeds(stores, attempts, from) {
        WinnerReplays(stores, attempts, from);
        assert ([attempts[from].reducer] + rest)[1..] == rest;
      } else {
        assert [] + rest == rest;
      }
    }
  }

  /** Whatever earlier states the transactions of a history ran on, it ends like
      the serial history of those that committed. */
  lemma HistoriesAreSerial(stores: seq<Store>, attempts: seq<Attempt>)
    requires History(stores, attempts) && SoundStore(stores[0])
    ensures OneByOne(stores[0], Winners(stores, attempts, 0)) == stores[|attempts|]
  {
    SerialFrom(stores, attempts, 0);
  }
}
