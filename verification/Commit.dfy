/** The commit of a transaction (`crates/nexum-tx/src/commit.rs`): validate
    everything, then apply everything, then collect the change records. What it
    leaves is what the transaction read last. */
module Commit {
  import opened Values
  import opened Transaction
  import opened Branching
  import opened ReadYourWrites
  import opened Storage
  import opened Validation
  import opened Apply

  datatype Verdict = Accepted(store: Store, changes: seq<Change>) | Refused(error: Error)

  /** Every observation still holds. */
  predicate Holds(store: Store, seen: ReadSet)
  {
    && (forall t :: t in seen.tables ==> seen.tables[t] == store.Epoch(t))
    && (forall k :: k in seen.rows ==> seen.rows[k] == store.VersionOf(k))
  }

  /** Observations are validated first, then the writes. */
  function Validate(store: Store, tx: Tx): Option<Error>
  {
    if exists t :: t in tx.seen.tables && tx.seen.tables[t] != store.Epoch(t) then Some(Conflict)
    else if exists k :: k in tx.seen.rows && tx.seen.rows[k] != store.VersionOf(k) then Some(Conflict)
    else Check(store, tx.writes.View())
  }

  // ------------------------------------------------------ change records

  function OfTable(cs: seq<Change>, t: TableId): (r: seq<Change>)
    ensures forall c :: c in r <==> c in cs && c.key.table == t
  {
    if cs == [] then []
    else (if cs[0].key.table == t then [cs[0]] else []) + OfTable(cs[1..], t)
  }

  /** The tables of a write set, each once. */
  function TablesOf(ks: seq<Key>): (ts: seq<TableId>)
    ensures forall k :: k in ks ==> k.table in ts
  {
    if ks == [] then []
    else
      var ts, t := TablesOf(ks[..|ks| - 1]), ks[|ks| - 1].table;
      if ts != [] && ts[|ts| - 1] == t then ts else ts + [t]
  }

  /** The records of each table's buffer, in table order. */
  function Collected(cs: seq<Change>, ts: seq<TableId>): seq<Change>
    decreases |ts|
  {
    if ts == [] then [] else OfTable(cs, ts[0]) + Collected(cs, ts[1..])
  }

  ghost predicate Ascending(ts: seq<TableId>)
  {
    forall i, j :: 0 <= i < j < |ts| ==> ts[i] < ts[j]
  }

  lemma {:induction false} TablesAscend(ks: seq<Key>)
    requires forall i, j :: 0 <= i < j < |ks| ==> Before(ks[i], ks[j])
    ensures Ascending(TablesOf(ks))
    ensures ks != [] ==> TablesOf(ks) != [] && TablesOf(ks)[|TablesOf(ks)| - 1] == ks[|ks| - 1].table
    decreases |ks|
  {
    if |ks| > 1 {
      TablesAscend(ks[..|ks| - 1]);
      assert Before(ks[|ks| - 2], ks[|ks| - 1]);
    }
  }

  ghost predicate NoKeyTwice(cs: seq<Change>)
  {
    forall i, j :: 0 <= i < j < |cs| ==> cs[i].key != cs[j].key
  }

  ghost predicate ByTable(cs: seq<Change>)
  {
    forall i, j :: 0 <= i < j < |cs| ==> cs[i].key.table <= cs[j].key.table
  }

  lemma {:induction false} OfTableOnce(cs: seq<Change>, t: TableId)
    requires NoKeyTwice(cs)
    ensures NoKeyTwice(OfTable(cs, t))
  {
    if cs != [] {
      var rest := cs[1..];
      assert forall i :: 0 <= i < |rest| ==> rest[i] == cs[i + 1];
      OfTableOnce(rest, t);
      assert forall c :: c in rest ==> c.key != cs[0].key;
    }
  }

  lemma {:induction false} CollectedAll(cs: seq<Change>, ts: seq<TableId>)
    requires NoKeyTwice(cs) && Ascending(ts)
    ensures forall c :: c in Collected(cs, ts) <==> c in cs && c.key.table in ts
    ensures NoKeyTwice(Collected(cs, ts)) && ByTable(Collected(cs, ts))
    decreases |ts|
  {
    if ts != [] {
      var rest := ts[1..];
      assert forall i :: 0 <= i < |rest| ==> rest[i] == ts[i + 1];
      CollectedAll(cs, rest);
      OfTableOnce(cs, ts[0]);
      var a, b := OfTable(cs, ts[0]), Collected(cs, rest);
      assert ts == [ts[0]] + rest;
      assert forall i :: 0 <= i < |a| ==> a[i] in a;
      assert forall i :: 0 <= i < |b| ==> b[i] in b;
      assert forall t :: t in rest ==> ts[0] < t;
    }
  }

  // --------------------------------------------------------------- commit

  function CommitTo(store: Store, tx: Tx): Verdict
  {
    var writes := tx.writes.View();
    match Validate(store, tx)
    case Some(e) => Refused(e)
    case None =>
      match ApplyAll(store, writes)
      case None => Refused(Internal)
      case Some((store', cs)) => Accepted(store', Collected(cs, TablesOf(InOrder(writes.Keys))))
  }

  lemma ValidateExact(store: Store, tx: Tx)
    ensures Validate(store, tx) == None <==> Holds(store, tx.seen) && Acceptable(store, tx.writes.View())
    ensures !Holds(store, tx.seen) ==> Validate(store, tx) == Some(Conflict)
    ensures Holds(store, tx.seen) ==> Validate(store, tx) == Check(store, tx.writes.View())
    ensures Validate(store, tx) == Some(Conflict) ==> !Holds(store, tx.seen)
  {
    hide Check, Acceptable;
    CheckExact(store, tx.writes.View());
  }

  /** A commit succeeds exactly if every observation still holds and the writes
      are acceptable: once validated it cannot fail. It keeps the invariants of
      the tables and reports exactly what changed, table by table. */
  lemma CommitExact(store: Store, tx: Tx)
    requires SoundStore(store)
    ensures CommitTo(store, tx).Accepted? <==> Holds(store, tx.seen) && Acceptable(store, tx.writes.View())
    ensures CommitTo(store, tx).Refused? ==> Some(CommitTo(store, tx).error) == Validate(store, tx)
    ensures CommitTo(store, tx).Accepted? ==>
      var v := CommitTo(store, tx);
      && SoundStore(v.store) && Later(store, v.store)
      && Records(store, v.store, v.changes) && ByTable(v.changes)
  {
    hide Validate, Holds, Acceptable, SoundStore, Later, ApplyAll, InOrder, TablesOf, Before;
    ValidateExact(store, tx);
    var writes := tx.writes.View();
    if Validate(store, tx).None? {
      ApplyExact(store, writes);
      var (store', cs) := ApplyAll(store, writes).value;
      var ts := TablesOf(InOrder(writes.Keys));
      TablesAscend(InOrder(writes.Keys));
      CollectedAll(cs, ts);
      forall c | c in cs
        ensures c.key.table in ts
      {
        ChangedTable(store, writes, store', c.key);
      }
      CollectedRecords(store, store', cs, Collected(cs, ts));
    }
  }

  lemma CollectedRecords(store: Store, store': Store, cs: seq<Change>, more: seq<Change>)
    requires Records(store, store', cs) && NoKeyTwice(more) && forall c :: c in more <==> c in cs
    ensures Records(store, store', more)
  {
    hide At;
    forall k | At(store, k) != At(store', k)
      ensures Recorded(more, k)
    {
      assert Recorded(cs, k);
    }
  }

  /** Only tables with a pending write change. */
  lemma ChangedTable(store: Store, writes: Writes, store': Store, k: Key)
    requires SoundStore(store) && At(store', k) == Expected(store, writes, Steps(writes), k) && At(store', k) != At(store, k)
    ensures k.table in TablesOf(InOrder(writes.Keys))
  {
    hide TablesOf;
    var ks := InOrder(writes.Keys);
    var hs := Handles(writes, Steps(writes), k.table);
    assert k.row.Real?;
    if k.row.n < store.NextId(k.table) {
      assert k in ks;
    } else {
      assert hs[k.row.n - store.NextId(k.table)] in hs;
      assert hs[k.row.n - store.NextId(k.table)] in ks;
    }
  }

  // ------------------------------------------- what a commit leaves

  ghost predicate Rising(ks: seq<Key>)
  {
    forall i, j :: 0 <= i < j < |ks| ==> Before(ks[i], ks[j])
  }

  lemma RisingAround(k: Key, ks: seq<Key>)
    requires Rising(ks)
    ensures (forall j :: j in ks ==> Before(k, j)) ==> Rising([k] + ks)
    ensures (forall j :: j in ks ==> Before(j, k)) ==> Rising(ks + [k])
  {
    hide Before;
    assert forall i :: 0 <= i < |ks| ==> ks[i] in ks;
  }

  lemma {:induction false} PickOrdered(writes: Writes, ks: seq<Key>, deletes: bool)
    requires Rising(ks)
    ensures Rising(Pick(writes, ks, deletes))
  {
    hide Before;
    if ks != [] {
      var rest := ks[1..];
      assert forall i :: 0 <= i < |rest| ==> rest[i] == ks[i + 1];
      PickOrdered(writes, rest, deletes);
      assert forall k :: k in rest ==> Before(ks[0], k);
      RisingAround(ks[0], Pick(writes, rest, deletes));
      assert [] + Pick(writes, rest, deletes) == Pick(writes, rest, deletes);
    }
  }

  lemma {:induction false} HandlesOrdered(writes: Writes, ks: seq<Key>, t: TableId)
    requires Rising(ks)
    ensures Rising(Handles(writes, ks, t))
  {
    hide Before;
    if ks != [] {
      var front, k := ks[..|ks| - 1], ks[|ks| - 1];
      HandlesOrdered(writes, front, t);
      assert forall h :: h in front ==> Before(h, k);
      RisingAround(k, Handles(writes, front, t));
      assert Handles(writes, front, t) + [] == Handles(writes, front, t);
    }
  }

  lemma {:induction false} HandlesConcat(writes: Writes, a: seq<Key>, b: seq<Key>, t: TableId)
    ensures Handles(writes, a + b, t) == Handles(writes, a, t) + Handles(writes, b, t)
    decreases |b|
  {
    if b == [] {
      assert a + b == a;
    } else {
      assert (a + b)[..|a + b| - 1] == a + b[..|b| - 1];
      HandlesConcat(writes, a, b[..|b| - 1], t);
    }
  }

  lemma {:induction false} NoHandles(writes: Writes, ks: seq<Key>, t: TableId)
    requires forall k :: k in ks ==> Deletes(writes, k)
    ensures Handles(writes, ks, t) == []
  {
    if ks != [] { NoHandles(writes, ks[..|ks| - 1], t); }
  }

  /** The handles of a table in the order in which they were handed out. */
  lemma HandlesListed(writes: Writes, t: TableId)
    ensures var hs := Handles(writes, Steps(writes), t);
      && (forall h :: h in hs <==> h in writes && writes[h].Insert? && h.table == t)
      && Rising(hs)
  {
    var ks := InOrder(writes.Keys);
    assert Rising(ks);
    hide Before, InOrder, Rising;
    var a, b := Pick(writes, ks, true), Pick(writes, ks, false);
    PickOrdered(writes, ks, false);
    HandlesOrdered(writes, b, t);
    HandlesConcat(writes, a, b, t);
    NoHandles(writes, a, t);
    assert [] + Handles(writes, b, t) == Handles(writes, b, t);
  }

  /** A commit stores what the transaction would have read last: every existing
      row as `get` finds it, the pending inserts under the next ids in the order
      of their handles, and nothing else. */
  lemma CommitReads(store: Store, tx: Tx, name: string, n: nat)
    requires SoundStore(store) && name in store.names && Placed(tx.writes) && CommitTo(store, tx).Accepted?
    ensures var t, store' := store.names[name], CommitTo(store, tx).store;
      var hs := Handles(tx.writes.View(), Steps(tx.writes.View()), t);
      && store'.NextId(t) == store.NextId(t) + |hs|
      && store'.RowAt(Key(t, Real(n)))
         == if n < store.NextId(t) then Read(store, tx, name, Real(n))
            else if n < store.NextId(t) + |hs| then Read(store, tx, name, hs[n - store.NextId(t)].row)
            else None
  {
    hide Acceptable, Expected, SoundStore, Steps, Later, Records, Handles, Read;
    var writes, t := tx.writes.View(), store.names[name];
    AcceptedApplied(store, tx);
    ApplyExact(store, writes);
    var store' := ApplyAll(store, writes).value.0;
    hide ApplyAll, CommitTo;
    assert At(store', Key(t, Real(n))) == Expected(store, writes, Steps(writes), Key(t, Real(n)));
    ExpectedReads(store, tx, name, n);
  }

  lemma AcceptedApplied(store: Store, tx: Tx)
    requires SoundStore(store) && CommitTo(store, tx).Accepted?
    ensures Acceptable(store, tx.writes.View())
    ensures ApplyAll(store, tx.writes.View()).Some?
    ensures CommitTo(store, tx).store == ApplyAll(store, tx.writes.View()).value.0
  {
    hide Acceptable, SoundStore, ApplyAll, Validate, Collected, TablesOf, InOrder;
    ValidateExact(store, tx);
  }

  lemma ExpectedReads(store: Store, tx: Tx, name: string, n: nat)
    requires SoundStore(store) && name in store.names && Placed(tx.writes) && Acceptable(store, tx.writes.View())
    ensures var writes, t := tx.writes.View(), store.names[name];
      var hs := Handles(writes, Steps(writes), t);
      var x := Expected(store, writes, Steps(writes), Key(t, Real(n)));
      (if x.Some? then Some(x.value.0) else None)
      == if n < store.NextId(t) then Read(store, tx, name, Real(n))
         else if n < store.NextId(t) + |hs| then Read(store, tx, name, hs[n - store.NextId(t)].row)
         else None
  {
    hide Steps, Read, Blocked, Rivals, SoundStore, Placed, Handles, Acceptable;
    var writes, t := tx.writes.View(), store.names[name];
    if n < store.NextId(t) {
      OldReads(store, tx, name, n);
    } else {
      var hs, i := Handles(writes, Steps(writes), t), n - store.NextId(t);
      if i < |hs| {
        assert hs[i] in hs;
        ReadShown(store, tx, name, hs[i].row);
      }
    }
  }

  lemma OldReads(store: Store, tx: Tx, name: string, n: nat)
    requires SoundStore(store) && name in store.names && Placed(tx.writes) && Acceptable(store, tx.writes.View())
    requires n < store.NextId(store.names[name])
    ensures var writes, k := tx.writes.View(), Key(store.names[name], Real(n));
      var x := Expected(store, writes, Steps(writes), k);
      (if x.Some? then Some(x.value.0) else None) == Read(store, tx, name, Real(n))
  {
    hide Steps, Read, Blocked, Rivals, SoundStore, Handles;
    var writes, k := tx.writes.View(), Key(store.names[name], Real(n));
    ReadShown(store, tx, name, Real(n));
    assert k in writes ==> Supported(store, writes, k);
  }

  // ------------------------------------------------------ as it is walked

  /** The checks of a write set, walked once for the deletes and once, with the
      claims made so far, for the rest. */
  method ValidateWrites(store: Store, writes: Writes) returns (e: Option<Error>)
    ensures e == Check(store, writes)
  {
    hide InOrder, KeysPut, Blocked, ClaimedByOther, WithClaims;
    var ks := InOrder(writes.Keys);
    var i := 0;
    assert ks[0..] == ks;
    while i < |ks|
      invariant 0 <= i <= |ks| && CheckDeletes(store, writes, ks[i..]) == CheckDeletes(store, writes, ks)
    {
      assert ks[i..][1..] == ks[i + 1..];
      if writes[ks[i]].Delete? && ks[i] !in store.rows {
        return Some(NotFound);
      }
      i := i + 1;
    }
    var claims: Claims := map[];
    i := 0;
    while i < |ks|
      invariant 0 <= i <= |ks| && CheckPuts(store, writes, ks[i..], claims) == CheckPuts(store, writes, ks, map[])
    {
      assert ks[i..][1..] == ks[i + 1..];
      var k := ks[i];
      if !writes[k].Delete? {
        if writes[k].Update? && k !in store.rows {
          return Some(NotFound);
        }
        if !store.rowValid(k.table, writes[k].row) {
          return Some(InvalidArgument);
        }
        if Blocked(store, writes, k) || ClaimedByOther(store, writes, claims, k) {
          return Some(AlreadyExists);
        }
        claims := WithClaims(store, writes, claims, k);
      }
      i := i + 1;
    }
    e := None;
  }

  lemma {:induction false} MutateAllConcat(store: Store, writes: Writes, a: seq<Key>, k: Key)
    requires (forall j :: j in a ==> j in writes) && k in writes && MutateAll(store, writes, a).Some?
    ensures var (s, cs) := MutateAll(store, writes, a).value;
      MutateAll(store, writes, a + [k])
      == match Mutate(s, writes, k) case None => None case Some((s', c)) => Some((s', cs + c))
    decreases |a|
  {
    hide Mutate;
    if a == [] {
      assert a + [k] == [k] && [k][1..] == [];
      var m := Mutate(store, writes, k);
      if m.Some? { assert m.value.1 + [] == m.value.1 && [] + m.value.1 == m.value.1; }
    } else {
      assert (a + [k])[1..] == a[1..] + [k] && (a + [k])[0] == a[0];
      var (s, c) := Mutate(store, writes, a[0]).value;
      MutateAllConcat(s, writes, a[1..], k);
      var (s', cs) := MutateAll(s, writes, a[1..]).value;
      var m := Mutate(s', writes, k);
      if m.Some? { assert c + cs + m.value.1 == c + (cs + m.value.1); }
    }
  }

  lemma {:induction false} MutateAllPrefix(store: Store, writes: Writes, a: seq<Key>, b: seq<Key>)
    requires (forall j :: j in a + b ==> j in writes) && MutateAll(store, writes, a + b).Some?
    ensures (forall j :: j in a ==> j in writes) && MutateAll(store, writes, a).Some?
    decreases |a|
  {
    hide Mutate;
    assert forall j :: j in a ==> j in a + b;
    if a != [] {
      assert (a + b)[1..] == a[1..] + b && (a + b)[0] == a[0];
      MutateAllPrefix(Mutate(store, writes, a[0]).value.0, writes, a[1..], b);
    }
  }

  /** The tables of a partition. */
  class TableStore {
    var store: Store

    ghost predicate Valid()
      reads this
    {
      SoundStore(store)
    }

    constructor (store: Store)
      requires SoundStore(store)
      ensures Valid() && this.store == store
    {
      this.store := store;
    }

    /** Validates without changing anything, then applies write by write; no
        write fails then. A refused transaction changes nothing. */
    method Commit(tx: Tx) returns (v: Verdict)
      requires Valid()
      modifies this
      ensures Valid() && v == CommitTo(old(store), tx)
      ensures store == if v.Accepted? then v.store else old(store)
      ensures v.Accepted? <==> Holds(old(store), tx.seen) && Acceptable(old(store), tx.writes.View())
      ensures Later(old(store), store) && (v.Accepted? ==> Records(old(store), store, v.changes) && ByTable(v.changes))
    {
      hide SoundStore, Holds, Acceptable, Check, Later, Records, Steps, Mutate, InOrder, TablesOf, ByTable, MutateAll, Collected;
      CommitExact(store, tx);
      ValidateExact(store, tx);
      LaterSelf(store);
      var writes := tx.writes.View();
      if !Holds(store, tx.seen) {
        return Refused(Conflict);
      }
      var e := ValidateWrites(store, writes);
      if e.Some? {
        return Refused(e.value);
      }
      ApplyExact(store, writes);
      ghost var start := store;
      var ks := Steps(writes);
      var changes: seq<Change> := [];
      EmptyMutateAll(store, writes);
      for i := 0 to |ks|
        invariant forall j :: j in ks[..i] ==> j in writes
        invariant MutateAll(start, writes, ks[..i]) == Some((store, changes))
      {
        assert ks[..i + 1] == ks[..i] + [ks[i]];
        assert ks == ks[..i + 1] + ks[i + 1..];
        MutateAllConcat(start, writes, ks[..i], ks[i]);
        MutateAllPrefix(start, writes, ks[..i + 1], ks[i + 1..]);
        var m := Mutate(store, writes, ks[i]);
        store, changes := m.value.0, changes + m.value.1;
      }
      assert ks[..|ks|] == ks;
      v := Accepted(store, Collected(changes, TablesOf(InOrder(writes.Keys))));
    }
  }

  lemma EmptyMutateAll(store: Store, writes: Writes)
    ensures MutateAll(store, writes, []) == Some((store, []))
  {
  }
}
