/** Applying a validated write set (`crates/nexum-tx/src/commit.rs`): it cannot
    fail, it keeps every invariant of the tables, and what it leaves is known
    row by row. */
module Apply {
  import opened Values
  import opened Transaction
  import opened Storage
  import opened Validation

  // ------------------------------------------------------------- applying

  /** One write, through the table it belongs to. */
  function Mutate(store: Store, writes: Writes, k: Key): Option<(Store, seq<Change>)>
    requires k in writes
  {
    match writes[k]
    case Insert(row) => Storage.Insert(store, k.table, row)
    case Update(row) => Storage.Update(store, k, row)
    case Delete => Remove(store, k)
  }

  function MutateAll(store: Store, writes: Writes, ks: seq<Key>): Option<(Store, seq<Change>)>
    requires forall k :: k in ks ==> k in writes
    decreases |ks|
  {
    if ks == [] then Some((store, []))
    else
      var (store', cs) :- Mutate(store, writes, ks[0]);
      var (end, more) :- MutateAll(store', writes, ks[1..]);
      Some((end, cs + more))
  }

  function Pick(writes: Writes, ks: seq<Key>, deletes: bool): (r: seq<Key>)
    ensures forall k :: k in r <==> k in ks && k in writes && writes[k].Delete? == deletes
  {
    if ks == [] then []
    else (if ks[0] in writes && writes[ks[0]].Delete? == deletes then [ks[0]] else []) + Pick(writes, ks[1..], deletes)
  }

  /** Deletes first: they free unique keys. Then updates and inserts. */
  function Steps(writes: Writes): (ks: seq<Key>)
    ensures forall k :: k in ks <==> k in writes
  {
    var ks := InOrder(writes.Keys);
    Pick(writes, ks, true) + Pick(writes, ks, false)
  }

  /** The store after all writes, and their change records in the order they
      were made; `None` would be a panic. */
  function ApplyAll(store: Store, writes: Writes): Option<(Store, seq<Change>)>
  {
    MutateAll(store, writes, Steps(writes))
  }

  // ------------------------------------------------------- what it leaves

  /** The pending inserts of a table among `ks`, in order. */
  function Handles(writes: Writes, ks: seq<Key>, t: TableId): (hs: seq<Key>)
    ensures forall h :: h in hs <==> h in ks && h in writes && writes[h].Insert? && h.table == t
  {
    if ks == [] then []
    else
      var k := ks[|ks| - 1];
      Handles(writes, ks[..|ks| - 1], t) + if k in writes && writes[k].Insert? && k.table == t then [k] else []
  }

  /** The row stored at `k` once the writes in `done` are applied: updated and
      deleted rows where they are, and the inserts of a table, in order, under
      the ids from its next one on. */
  function Expected(store: Store, writes: Writes, done: seq<Key>, k: Key): Option<(Row, Version)>
  {
    if k.row.Provisional? then None
    else if k.row.n < store.NextId(k.table) then
      if k !in done || k !in writes || k !in store.rows then At(store, k)
      else
        match writes[k]
        case Delete => None
        case Update(row) => Some((row, if row == store.rows[k].0 then store.rows[k].1 else store.rows[k].1 + 1))
        case Insert(_) => At(store, k)
    else
      var hs, i := Handles(writes, done, k.table), k.row.n - store.NextId(k.table);
      if i < |hs| then Some((writes[hs[i]].row, 0)) else None
  }

  /** The change records say exactly what changed, one record per row. */
  ghost predicate Records(store: Store, store': Store, cs: seq<Change>)
  {
    && (forall c :: c in cs ==> c == Change(c.key, At(store, c.key), At(store', c.key)) && c.before != c.after)
    && (forall k :: At(store, k) != At(store', k) ==> Recorded(cs, k))
    && (forall i, j :: 0 <= i < j < |cs| ==> cs[i].key != cs[j].key)
  }

  ghost predicate Recorded(cs: seq<Change>, k: Key)
  {
    exists c :: c in cs && c.key == k
  }

  /** The store once the writes in `done` are applied. */
  ghost predicate Midway(store: Store, writes: Writes, done: seq<Key>, s: Store, cs: seq<Change>)
  {
    && SoundStore(s) && Later(store, s) && Records(store, s, cs)
    && (forall t :: s.NextId(t) == store.NextId(t) + |Handles(writes, done, t)|)
    && (forall k :: At(s, k) == Expected(store, writes, done, k))
  }

  lemma MidwayStarts(store: Store, writes: Writes)
    requires SoundStore(store)
    ensures Midway(store, writes, [], store, [])
  {
    hide KeysUnique, RowsValid;
    LaterSelf(store);
  }

  /** The row a write is going to change. */
  function Target(s: Store, writes: Writes, k: Key): Key
    requires k in writes
  {
    if writes[k].Insert? then Key(k.table, Real(s.NextId(k.table))) else k
  }

  lemma HandlesGrow(writes: Writes, done: seq<Key>, k: Key, t: TableId)
    ensures Handles(writes, done + [k], t)
            == Handles(writes, done, t) + if k in writes && writes[k].Insert? && k.table == t then [k] else []
  {
    assert (done + [k])[..|done + [k]| - 1] == done;
  }

  /** A write is expected to change its target and nothing else. */
  lemma ExpectedStep(store: Store, writes: Writes, done: seq<Key>, s: Store, k: Key, j: Key)
    requires IdsUsed(store) && k in writes && k !in done && (!writes[k].Insert? ==> k in store.rows)
    requires s.NextId(k.table) == store.NextId(k.table) + |Handles(writes, done, k.table)|
    ensures var n := Target(s, writes, k);
      && (j != n ==> Expected(store, writes, done + [k], j) == Expected(store, writes, done, j))
      && Expected(store, writes, done, n) == At(store, n)
      && Expected(store, writes, done + [k], n)
         == match writes[k]
            case Insert(row) => Some((row, 0))
            case Delete => None
            case Update(row) => Some((row, if row == store.rows[k].0 then store.rows[k].1 else store.rows[k].1 + 1))
  {
    HandlesGrow(writes, done, k, k.table);
    HandlesGrow(writes, done, k, j.table);
    hide Handles;
  }

  lemma MutateStep(s: Store, writes: Writes, k: Key)
    requires SoundStore(s) && k in writes && Mutate(s, writes, k).Some?
    ensures var (s', c) := Mutate(s, writes, k).value;
      var n := Target(s, writes, k);
      && SoundStore(s') && Later(s, s') && Mutated(s, s', n, At(s', n))
      && s'.NextId(k.table) == s.NextId(k.table) + (if writes[k].Insert? then 1 else 0)
      && c == (if At(s, n) == At(s', n) then [] else [Change(n, At(s, n), At(s', n))])
      && At(s', n)
         == match writes[k]
            case Insert(row) => Some((row, 0))
            case Delete => None
            case Update(row) => (if k in s.rows then Some((row, if row == s.rows[k].0 then s.rows[k].1 else s.rows[k].1 + 1)) else None)
  {
    hide SoundStore, Later, Storage.Insert, Storage.Update, Remove;
    match writes[k]
    case Insert(row) => InsertKeeps(s, k.table, row);
    case Update(row) =>
      UpdateKeeps(s, k, row);
      var (s', c) := Storage.Update(s, k, row).value;
      assert Mutate(s, writes, k) == Some((s', c));
      assert At(s, k) == Some((s.rows[k].0, s.rows[k].1));
      assert c == if At(s, k) == At(s', k) then [] else [Change(k, At(s, k), At(s', k))];
    case Delete => RemoveKeeps(s, k);
  }

  lemma RecordsStep(store: Store, s: Store, s': Store, n: Key, cs: seq<Change>)
    requires Records(store, s, cs) && At(s, n) == At(store, n) && Mutated(s, s', n, At(s', n))
    ensures var c := if At(s, n) == At(s', n) then [] else [Change(n, At(s, n), At(s', n))];
      Records(store, s', cs + c)
  {
    var c := if At(s, n) == At(s', n) then [] else [Change(n, At(s, n), At(s', n))];
    forall k | At(store, k) != At(s', k)
      ensures Recorded(cs + c, k)
    {
      if k == n {
        assert Change(n, At(s, n), At(s', n)) in cs + c;
      } else {
        assert Recorded(cs, k);
        var r :| r in cs && r.key == k;
        assert r in cs + c;
      }
    }
    assert forall r :: r in cs ==> r.key != n;
  }

  lemma MidwayStep(store: Store, writes: Writes, done: seq<Key>, s: Store, cs: seq<Change>, k: Key)
    requires SoundStore(store) && Midway(store, writes, done, s, cs) && k in writes && k !in done
    requires !writes[k].Insert? ==> k in store.rows
    requires Mutate(s, writes, k).Some?
    ensures var (s', c) := Mutate(s, writes, k).value; Midway(store, writes, done + [k], s', cs + c)
  {
    hide SoundStore, Later, Mutate, Expected, Handles, Records, At;
    var (s', c) := Mutate(s, writes, k).value;
    var n := Target(s, writes, k);
    MutateStep(s, writes, k);
    assert IdsUsed(store) && IdsUsed(s) by { SoundIds(store); SoundIds(s); }
    LaterChains(store, s, s');
    ExpectedStep(store, writes, done, s, k, n);
    RecordsStep(store, s, s', n, cs);
    forall j
      ensures At(s', j) == Expected(store, writes, done + [k], j)
    {
      ExpectedStep(store, writes, done, s, k, j);
      SameRow(store, s, k);
    }
    forall t
      ensures s'.NextId(t) == store.NextId(t) + |Handles(writes, done + [k], t)|
    {
      HandlesGrow(writes, done, k, t);
    }
  }

  lemma SoundIds(s: Store)
    requires SoundStore(s)
    ensures IdsUsed(s)
  {
  }

  lemma SameRow(store: Store, s: Store, k: Key)
    ensures At(s, k) == At(store, k) ==> (k in s.rows <==> k in store.rows) && (k in s.rows ==> s.rows[k] == store.rows[k])
  {
  }

  // ------------------------------------------------------ it cannot fail

  /** Where a stored row comes from: it was there and no write has reached it,
      or a write in `done` left it. */
  lemma Origin(store: Store, writes: Writes, done: seq<Key>, s: Store, cs: seq<Change>, o: Key)
    requires Midway(store, writes, done, s, cs) && o in s.rows
    ensures || (o in store.rows && o !in done && s.rows[o] == store.rows[o])
            || (o in store.rows && (o !in writes || writes[o].Insert?) && s.rows[o] == store.rows[o])
            || (exists h :: h in done && Puts(writes, h) && h.table == o.table && writes[h].row == s.rows[o].0
                 && (writes[h].Update? ==> h == o))
  {
    assert At(s, o) == Expected(store, writes, done, o);
    if o.row.Real? && o.row.n >= store.NextId(o.table) {
      var hs, i := Handles(writes, done, o.table), o.row.n - store.NextId(o.table);
      assert hs[i] in hs;
    }
  }

  /** No stored row has a key of a write that is still to come, except the row
      that write updates. */
  lemma NoOwner(store: Store, writes: Writes, done: seq<Key>, s: Store, cs: seq<Change>, k: Key, o: Key, c: IndexKey)
    requires Midway(store, writes, done, s, cs) && Acceptable(store, writes) && Puts(writes, k) && k !in done
    requires forall d :: Deletes(writes, d) ==> d in done
    requires forall d :: d in done ==> d in writes
    requires c in KeysPut(store, writes, k) && (writes[k].Update? ==> o != k)
    ensures !Owns(s, o, k.table, c)
  {
    hide Expected, Handles, SoundStore, Later, Records, Blocked, Rivals;
    if Owns(s, o, k.table, c) {
      assert SameSchemas(store, s) by { LaterSchemas(store, s); }
      Origin(store, writes, done, s, cs, o);
      if o in store.rows && s.rows[o] == store.rows[o] && !Deletes(writes, o) {
        assert Owns(store, o, k.table, c);
        IsBlocked(store, writes, k, o, c);
      } else {
        var h :| h in done && Puts(writes, h) && h.table == o.table && writes[h].row == s.rows[o].0;
        AreRivals(store, writes, h, k, c);
      }
      assert false;
    }
  }

  lemma LaterSchemas(a: Store, b: Store)
    requires Later(a, b)
    ensures SameSchemas(a, b)
  {
  }

  lemma IsBlocked(store: Store, writes: Writes, k: Key, o: Key, c: IndexKey)
    requires c in KeysPut(store, writes, k) && Owns(store, o, k.table, c)
    requires !Deletes(writes, o) && !(k in writes && writes[k].Update? && o == k)
    ensures Blocked(store, writes, k)
  {
  }

  lemma AreRivals(store: Store, writes: Writes, j: Key, k: Key, c: IndexKey)
    requires j != k && j.table == k.table && c in KeysPut(store, writes, j) && c in KeysPut(store, writes, k)
    ensures Rivals(store, writes, j, k)
  {
  }

  /** Whatever validation accepted can be applied, at every step. */
  lemma CanMutate(store: Store, writes: Writes, done: seq<Key>, s: Store, cs: seq<Change>, k: Key)
    requires SoundStore(store) && Midway(store, writes, done, s, cs) && Acceptable(store, writes)
    requires k in writes && k !in done && forall d :: d in done ==> d in writes
    requires Puts(writes, k) ==> forall d :: Deletes(writes, d) ==> d in done
    ensures Mutate(s, writes, k).Some? && (!writes[k].Insert? ==> k in store.rows)
  {
    hide Handles, SoundStore, Later, Records, Blocked, Rivals;
    assert Supported(store, writes, k);
    LaterSchemas(store, s);
    if !writes[k].Insert? {
      assert k in s.rows by { StillThere(store, writes, done, s, cs, k); }
    }
    if Puts(writes, k) {
      hide Expected;
      forall c, o | c in s.uniqueKeys(k.table, writes[k].row) && (writes[k].Update? ==> o != k)
        ensures !Owns(s, o, k.table, c)
      {
        NoOwner(store, writes, done, s, cs, k, o, c);
      }
    }
  }

  lemma StillThere(store: Store, writes: Writes, done: seq<Key>, s: Store, cs: seq<Change>, k: Key)
    requires SoundStore(store) && Midway(store, writes, done, s, cs) && k in store.rows && k !in done
    ensures k in s.rows
  {
    assert At(s, k) == Expected(store, writes, done, k);
  }

  // ------------------------------------------------------- all of them

  /** Nothing that leaves a row comes before a delete. */
  ghost predicate DeletesFirst(writes: Writes, done: seq<Key>, ks: seq<Key>)
  {
    forall i :: 0 <= i < |ks| && Puts(writes, ks[i]) ==> forall d :: Deletes(writes, d) ==> d in done + ks[..i]
  }

  lemma DeletesStep(writes: Writes, done: seq<Key>, ks: seq<Key>)
    requires ks != [] && DeletesFirst(writes, done, ks)
    ensures DeletesFirst(writes, done + [ks[0]], ks[1..])
    ensures Puts(writes, ks[0]) ==> forall d :: Deletes(writes, d) ==> d in done
  {
    var rest := ks[1..];
    assert done + ks[..0] == done;
    forall i | 0 <= i < |rest| && Puts(writes, rest[i])
      ensures forall d :: Deletes(writes, d) ==> d in done + [ks[0]] + rest[..i]
    {
      assert done + [ks[0]] + rest[..i] == done + ks[..i + 1];
      assert ks[i + 1] == rest[i];
    }
  }

  lemma {:induction false} MutateAllWorks(store: Store, writes: Writes, done: seq<Key>, ks: seq<Key>, s: Store,
                                          cs: seq<Change>)
    requires SoundStore(store) && Acceptable(store, writes) && Midway(store, writes, done, s, cs)
    requires NoneTwice(done + ks) && (forall k :: k in done + ks ==> k in writes) && DeletesFirst(writes, done, ks)
    ensures MutateAll(s, writes, ks).Some?
    ensures var (s', more) := MutateAll(s, writes, ks).value; Midway(store, writes, done + ks, s', cs + more)
    decreases |ks|
  {
    hide SoundStore, Acceptable, Midway, Mutate, DeletesFirst;
    if ks == [] {
      assert done + ks == done && cs + [] == cs;
    } else {
      var k := ks[0];
      assert done + ks == done + [k] + ks[1..];
      assert (done + ks)[|done|] == k && forall i :: 0 <= i < |done| ==> (done + ks)[i] == done[i];
      assert k in done + ks;
      DeletesStep(writes, done, ks);
      CanMutate(store, writes, done, s, cs, k);
      MidwayStep(store, writes, done, s, cs, k);
      var (s', c) := Mutate(s, writes, k).value;
      MutateAllWorks(store, writes, done + [k], ks[1..], s', cs + c);
      var (_, more) := MutateAll(s', writes, ks[1..]).value;
      assert cs + c + more == cs + (c + more);
    }
  }

  lemma {:induction false} PickOnce(writes: Writes, ks: seq<Key>, deletes: bool)
    requires NoneTwice(ks)
    ensures NoneTwice(Pick(writes, ks, deletes))
  {
    if ks != [] {
      assert forall i, j :: 0 <= i < j < |ks[1..]| ==> ks[1..][i] == ks[i + 1] && ks[1..][j] == ks[j + 1];
      PickOnce(writes, ks[1..], deletes);
      assert forall i :: 0 < i < |ks| ==> ks[i] == ks[1..][i - 1];
      assert ks[0] !in ks[1..];
    }
  }

  lemma TwoParts(writes: Writes, a: seq<Key>, b: seq<Key>)
    requires NoneTwice(a) && NoneTwice(b)
    requires forall k :: k in a <==> Deletes(writes, k)
    requires forall k :: k in b ==> Puts(writes, k)
    ensures NoneTwice(a + b) && DeletesFirst(writes, [], a + b)
  {
    var steps := a + b;
    assert forall i :: 0 <= i < |a| ==> steps[i] in a;
    assert forall i :: |a| <= i < |steps| ==> steps[i] in b;
    forall i, j | 0 <= i < j < |steps|
      ensures steps[i] != steps[j]
    {
      assert steps[i] in a || steps[i] == b[i - |a|];
    }
    forall i | 0 <= i < |steps| && Puts(writes, steps[i])
      ensures forall d :: Deletes(writes, d) ==> d in [] + steps[..i]
    {
      assert steps[..i] == a + b[..i - |a|];
    }
  }

  lemma StepsFine(writes: Writes)
    ensures NoneTwice(Steps(writes)) && DeletesFirst(writes, [], Steps(writes))
  {
    var ks := InOrder(writes.Keys);
    OrderedOnce(ks);
    hide InOrder, DeletesFirst, Pick, Before;
    PickOnce(writes, ks, true);
    PickOnce(writes, ks, false);
    TwoParts(writes, Pick(writes, ks, true), Pick(writes, ks, false));
  }

  /** A write set that validation accepts is applied without fail. The store
      afterwards is known row by row, keeps every invariant of the tables, and
      differs from the one before exactly as the change records say. */
  lemma ApplyExact(store: Store, writes: Writes)
    requires SoundStore(store) && Acceptable(store, writes)
    ensures ApplyAll(store, writes).Some?
    ensures var (store', cs) := ApplyAll(store, writes).value;
      && SoundStore(store') && Later(store, store') && Records(store, store', cs)
      && (forall t :: store'.NextId(t) == store.NextId(t) + |Handles(writes, Steps(writes), t)|)
      && (forall k :: At(store', k) == Expected(store, writes, Steps(writes), k))
  {
    hide SoundStore, Acceptable, Expected, Handles, Later, Records, Steps, MutateAll, DeletesFirst, At;
    var ks := Steps(writes);
    assert Midway(store, writes, [], store, []) by { MidwayStarts(store, writes); }
    StepsFine(writes);
    assert [] + ks == ks;
    MutateAllWorks(store, writes, [], ks, store, []);
    var (store', cs) := MutateAll(store, writes, ks).value;
    assert [] + cs == cs;
  }
}
