/** The validation of a write set (`crates/nexum-tx/src/commit.rs`, `validate`):
    what it accepts is said without the maps it walks with. */
module Validation {
  import opened Values
  import opened Transaction
  import opened Sorting
  import opened Storage

  // ---------------------------------------------------------- write order

  /** By table, real rows first, then by number. */
  function KeyRank(k: Key): Rank { Rank(k.table, if k.row.Real? then 0 else 1, k.row.n) }

  predicate Before(j: Key, k: Key) { Below(KeyRank(j), KeyRank(k)) }

  lemma BeforeOrders(i: Key, j: Key, k: Key)
    ensures !Before(i, i)
    ensures i == j || Before(i, j) || Before(j, i)
    ensures Before(i, j) && Before(j, k) ==> Before(i, k)
  {
  }

  predicate Least(keys: set<Key>, k: Key)
  {
    k in keys && forall j :: j in keys && j != k ==> Before(k, j)
  }

  lemma {:induction false} HasLeast(keys: set<Key>)
    requires keys != {}
    ensures exists k :: Least(keys, k)
    decreases |keys|
  {
    hide Before;
    var k :| k in keys;
    var rest := keys - {k};
    if rest == {} {
      assert keys == {k};
      assert Least(keys, k);
    } else {
      HasLeast(rest);
      var l :| Least(rest, l);
      BeforeOrders(k, l, l);
      if Before(k, l) {
        forall j | j in keys && j != k
          ensures Before(k, j)
        {
          BeforeOrders(k, l, j);
        }
        assert Least(keys, k);
      } else {
        assert Least(keys, l);
      }
    }
  }

  lemma OneLeast(keys: set<Key>)
    ensures forall j, k :: Least(keys, j) && Least(keys, k) ==> j == k
  {
    forall j, k | Least(keys, j) && Least(keys, k)
      ensures j == k
    {
      BeforeOrders(j, k, j);
    }
  }

  /** The keys of a write set in the order it is walked. */
  function InOrder(keys: set<Key>): (ks: seq<Key>)
    ensures forall k :: k in ks <==> k in keys
    ensures forall i, j :: 0 <= i < j < |ks| ==> Before(ks[i], ks[j])
    decreases |keys|
  {
    if keys == {} then []
    else
      HasLeast(keys);
      OneLeast(keys);
      var k :| Least(keys, k);
      [k] + InOrder(keys - {k})
  }

  // ----------------------------------------------------------- validation

  predicate Deletes(writes: Writes, k: Key) { k in writes && writes[k].Delete? }

  /** A write that leaves a row behind. */
  predicate Puts(writes: Writes, k: Key) { k in writes && !writes[k].Delete? }

  /** The unique-index keys of the row a write leaves behind. */
  function KeysPut(store: Store, writes: Writes, k: Key): set<IndexKey>
  {
    if Puts(writes, k) then store.uniqueKeys(k.table, writes[k].row) else {}
  }

  /** A live row stands in the way of a write: not the updated row itself, and
      not one deleted here. */
  predicate Blocked(store: Store, writes: Writes, k: Key)
  {
    exists o, c :: o in store.rows && c in KeysPut(store, writes, k) && Owns(store, o, k.table, c)
      && !Deletes(writes, o) && !(k in writes && writes[k].Update? && o == k)
  }

  /** Two writes leave rows with the same key behind. */
  predicate Rivals(store: Store, writes: Writes, j: Key, k: Key)
  {
    && j != k && j.table == k.table
    && exists c :: c in KeysPut(store, writes, j) && c in KeysPut(store, writes, k)
  }

  /** Who claims which key of a unique index so far. */
  type Claims = map<(TableId, IndexKey), Key>

  predicate ClaimedByOther(store: Store, writes: Writes, claims: Claims, k: Key)
  {
    exists c :: c in KeysPut(store, writes, k) && (k.table, c) in claims && claims[(k.table, c)] != k
  }

  /** The claims with those of `k`. */
  function WithClaims(store: Store, writes: Writes, claims: Claims, k: Key): Claims
  {
    var mine: Claims := map c | c in KeysPut(store, writes, k) :: (k.table, c) := k;
    mine + claims
  }

  /** Every delete needs its row. */
  function CheckDeletes(store: Store, writes: Writes, ks: seq<Key>): Option<Error>
  {
    if ks == [] then None
    else if Deletes(writes, ks[0]) && ks[0] !in store.rows then Some(NotFound)
    else CheckDeletes(store, writes, ks[1..])
  }

  /** Updates need their row, and no unique key may get two owners. */
  function CheckPuts(store: Store, writes: Writes, ks: seq<Key>, claims: Claims): Option<Error>
    decreases |ks|
  {
    if ks == [] then None
    else
      var k := ks[0];
      if !Puts(writes, k) then CheckPuts(store, writes, ks[1..], claims)
      else if writes[k].Update? && k !in store.rows then Some(NotFound)
      else if !store.rowValid(k.table, writes[k].row) then Some(InvalidArgument)
      else if Blocked(store, writes, k) || ClaimedByOther(store, writes, claims, k) then Some(AlreadyExists)
      else CheckPuts(store, writes, ks[1..], WithClaims(store, writes, claims, k))
  }

  /** The checks of the pending writes. */
  function Check(store: Store, writes: Writes): Option<Error>
  {
    var ks := InOrder(writes.Keys);
    var deletes := CheckDeletes(store, writes, ks);
    if deletes.Some? then deletes else CheckPuts(store, writes, ks, map[])
  }

  /** A write whose target exists, whose row fits its table, and whose unique
      keys no live row keeps. */
  predicate Supported(store: Store, writes: Writes, k: Key)
  {
    && (Deletes(writes, k) ==> k in store.rows)
    && (Puts(writes, k) ==>
          && (writes[k].Update? ==> k in store.rows) && store.rowValid(k.table, writes[k].row)
          && !Blocked(store, writes, k))
  }

  /** What validation is for. */
  predicate Acceptable(store: Store, writes: Writes)
  {
    && (forall k :: k in writes ==> Supported(store, writes, k))
    && (forall j, k :: j in writes && k in writes ==> !Rivals(store, writes, j, k))
  }

  lemma {:induction false} DeletesExact(store: Store, writes: Writes, ks: seq<Key>)
    ensures CheckDeletes(store, writes, ks) == None <==> forall k :: k in ks && Deletes(writes, k) ==> k in store.rows
    ensures CheckDeletes(store, writes, ks).Some? ==> CheckDeletes(store, writes, ks) == Some(NotFound)
  {
    if ks != [] { DeletesExact(store, writes, ks[1..]); }
  }

  /** The claims map holds the keys of the writes in `done`. */
  ghost predicate ClaimsOf(store: Store, writes: Writes, done: seq<Key>, claims: Claims)
  {
    && (forall t, c :: (t, c) in claims ==>
          var k := claims[(t, c)]; k in done && k.table == t && c in KeysPut(store, writes, k))
    && (forall k, c :: k in done && c in KeysPut(store, writes, k) ==> (k.table, c) in claims)
  }

  ghost predicate RivalIn(store: Store, writes: Writes, done: seq<Key>, k: Key)
  {
    exists j :: j in done && Rivals(store, writes, j, k)
  }

  lemma ClaimedExact(store: Store, writes: Writes, done: seq<Key>, claims: Claims, k: Key)
    requires ClaimsOf(store, writes, done, claims)
    requires forall j, i :: j in done && i in done ==> !Rivals(store, writes, j, i)
    ensures k !in done ==> (ClaimedByOther(store, writes, claims, k) <==> RivalIn(store, writes, done, k))
  {
    hide KeysPut;
    if ClaimedByOther(store, writes, claims, k) {
      var c :| c in KeysPut(store, writes, k) && (k.table, c) in claims && claims[(k.table, c)] != k;
      assert Rivals(store, writes, claims[(k.table, c)], k);
    }
    if k !in done && RivalIn(store, writes, done, k) {
      var j :| j in done && Rivals(store, writes, j, k);
      var c :| c in KeysPut(store, writes, j) && c in KeysPut(store, writes, k);
      assert (k.table, c) in claims;
    }
  }

  lemma ClaimsGrow(store: Store, writes: Writes, done: seq<Key>, claims: Claims, k: Key)
    requires ClaimsOf(store, writes, done, claims)
    ensures ClaimsOf(store, writes, done + [k], WithClaims(store, writes, claims, k))
    ensures !Puts(writes, k) ==> ClaimsOf(store, writes, done + [k], claims)
  {
    assert !Puts(writes, k) ==> KeysPut(store, writes, k) == {};
    hide KeysPut;
  }

  ghost predicate NoneTwice(ks: seq<Key>)
  {
    forall i, j :: 0 <= i < j < |ks| ==> ks[i] != ks[j]
  }

  /** Every write in `ks` is supported and no rival of an earlier one or one in
      `done`. */
  ghost predicate Free(store: Store, writes: Writes, done: seq<Key>, ks: seq<Key>)
  {
    && (forall i :: 0 <= i < |ks| && Puts(writes, ks[i]) ==> Supported(store, writes, ks[i]))
    && (forall i :: 0 <= i < |ks| ==> !RivalIn(store, writes, done + ks[..i], ks[i]))
  }

  lemma FreeStep(store: Store, writes: Writes, done: seq<Key>, ks: seq<Key>)
    requires ks != []
    ensures Free(store, writes, done, ks)
            <==> && (Puts(writes, ks[0]) ==> Supported(store, writes, ks[0]))
                 && !RivalIn(store, writes, done, ks[0])
                 && Free(store, writes, done + [ks[0]], ks[1..])
  {
    hide Supported, RivalIn;
    var rest := ks[1..];
    assert done + ks[..0] == done;
    assert forall i :: 0 <= i < |rest| ==> done + [ks[0]] + rest[..i] == done + ks[..i + 1];
    if Free(store, writes, done + [ks[0]], rest) && !RivalIn(store, writes, done, ks[0]) {
      forall i | 0 <= i < |ks|
        ensures !RivalIn(store, writes, done + ks[..i], ks[i])
      {
        if i > 0 {
          assert ks[i] == rest[i - 1];
          assert done + [ks[0]] + rest[..i - 1] == done + ks[..i];
        }
      }
    }
  }

  lemma {:induction false} PutsExact(store: Store, writes: Writes, done: seq<Key>, ks: seq<Key>, claims: Claims)
    requires ClaimsOf(store, writes, done, claims) && NoneTwice(done + ks)
    requires forall j, i :: j in done && i in done ==> !Rivals(store, writes, j, i)
    ensures CheckPuts(store, writes, ks, claims) == None <==> Free(store, writes, done, ks)
    ensures CheckPuts(store, writes, ks, claims).Some? ==>
      CheckPuts(store, writes, ks, claims).value in {NotFound, InvalidArgument, AlreadyExists}
    decreases |ks|
  {
    hide KeysPut, ClaimsOf, Blocked, ClaimedByOther, WithClaims, Rivals, Free;
    if ks != [] {
      var k := ks[0];
      assert done + ks == done + [k] + ks[1..];
      assert (done + ks)[|done|] == k;
      assert forall i :: 0 <= i < |done| ==> (done + ks)[i] == done[i];
      FreeStep(store, writes, done, ks);
      ClaimsGrow(store, writes, done, claims, k);
      ClaimedExact(store, writes, done, claims, k);
      if !RivalIn(store, writes, done, k) {
        NoRivals(store, writes, done, k);
        if Puts(writes, k) {
          PutsExact(store, writes, done + [k], ks[1..], WithClaims(store, writes, claims, k));
        } else {
          PutsExact(store, writes, done + [k], ks[1..], claims);
        }
      } else {
        PutsOnly(store, writes, done, k);
      }
    } else {
      assert Free(store, writes, done, ks) by { EmptyFree(store, writes, done); }
    }
  }

  lemma EmptyFree(store: Store, writes: Writes, done: seq<Key>)
    ensures Free(store, writes, done, [])
  {
  }

  lemma PutsOnly(store: Store, writes: Writes, done: seq<Key>, k: Key)
    ensures RivalIn(store, writes, done, k) ==> Puts(writes, k)
  {
  }

  lemma RivalsSymmetric(store: Store, writes: Writes, j: Key, k: Key)
    ensures Rivals(store, writes, j, k) <==> Rivals(store, writes, k, j)
    ensures !Rivals(store, writes, k, k)
  {
  }

  lemma NoRivals(store: Store, writes: Writes, done: seq<Key>, k: Key)
    requires forall j, i :: j in done && i in done ==> !Rivals(store, writes, j, i)
    requires !RivalIn(store, writes, done, k)
    ensures forall j, i :: j in done + [k] && i in done + [k] ==> !Rivals(store, writes, j, i)
  {
    hide Rivals;
    forall j, i | j in done + [k] && i in done + [k]
      ensures !Rivals(store, writes, j, i)
    {
      RivalsSymmetric(store, writes, j, i);
    }
  }

  lemma OrderedOnce(ks: seq<Key>)
    requires forall i, j :: 0 <= i < j < |ks| ==> Before(ks[i], ks[j])
    ensures NoneTwice(ks)
  {
    forall i, j | 0 <= i < j < |ks|
      ensures ks[i] != ks[j]
    {
      assert Before(ks[i], ks[j]);
    }
  }

  lemma FreeMeans(store: Store, writes: Writes, ks: seq<Key>)
    requires forall k :: k in ks <==> k in writes
    ensures Free(store, writes, [], ks)
            <==> && (forall k :: k in writes && Puts(writes, k) ==> Supported(store, writes, k))
                 && (forall j, k :: j in writes && k in writes ==> !Rivals(store, writes, j, k))
  {
    hide Supported, Rivals;
    if Free(store, writes, [], ks) {
      forall k | k in writes && Puts(writes, k)
        ensures Supported(store, writes, k)
      {
        var i :| 0 <= i < |ks| && ks[i] == k;
      }
      forall j, k | j in writes && k in writes
        ensures !Rivals(store, writes, j, k)
      {
        var a :| 0 <= a < |ks| && ks[a] == j;
        var b :| 0 <= b < |ks| && ks[b] == k;
        RivalsSymmetric(store, writes, j, k);
        if a < b {
          assert ([] + ks[..b])[a] == j;
          assert !RivalIn(store, writes, [] + ks[..b], ks[b]);
        } else if b < a {
          assert ([] + ks[..a])[b] == k;
          assert !RivalIn(store, writes, [] + ks[..a], ks[a]);
        }
      }
    }
    if forall j, k :: j in writes && k in writes ==> !Rivals(store, writes, j, k) {
      forall i | 0 <= i < |ks|
        ensures !RivalIn(store, writes, [] + ks[..i], ks[i])
      {
        assert ks[i] in ks;
        assert forall j :: j in [] + ks[..i] ==> j in ks;
      }
    }
  }

  /** Validation accepts a write set exactly if it is acceptable, and says what
      is wrong otherwise. */
  lemma CheckExact(store: Store, writes: Writes)
    ensures Check(store, writes) == None <==> Acceptable(store, writes)
    ensures Check(store, writes).Some? ==> Check(store, writes).value in {NotFound, InvalidArgument, AlreadyExists}
    ensures (exists k :: Deletes(writes, k) && k !in store.rows) ==> Check(store, writes) == Some(NotFound)
  {
    hide Supported, Rivals, CheckPuts, CheckDeletes, Free;
    var ks := InOrder(writes.Keys);
    DeletesExact(store, writes, ks);
    OrderedOnce(ks);
    assert [] + ks == ks;
    PutsExact(store, writes, [], ks, map[]);
    FreeMeans(store, writes, ks);
    SupportedParts(store, writes);
  }

  lemma SupportedParts(store: Store, writes: Writes)
    ensures (forall k :: k in writes ==> Supported(store, writes, k))
            <==> && (forall k :: k in writes && Deletes(writes, k) ==> k in store.rows)
                 && (forall k :: k in writes && Puts(writes, k) ==> Supported(store, writes, k))
  {
  }

  // ------------------------------------------------------- what is acceptable

  /** Writes go to rows of the store, or are inserts at handles. */
  ghost predicate AtPlaces(writes: Writes)
  {
    forall k :: k in writes ==> (writes[k].Insert? <==> k.row.Provisional?)
  }

  /** The row at `k` once the writes are made; inserts are still at handles. */
  function RowAfter(store: Store, writes: Writes, k: Key): Option<Row>
  {
    if k !in writes then store.RowAt(k) else if writes[k].Delete? then None else Some(writes[k].row)
  }

  predicate HasAfter(store: Store, writes: Writes, k: Key, c: IndexKey)
  {
    RowAfter(store, writes, k).Some? && c in store.uniqueKeys(k.table, RowAfter(store, writes, k).value)
  }

  /** No unique key has two owners once the writes are made. */
  ghost predicate UniqueAfter(store: Store, writes: Writes)
  {
    forall j: Key, k: Key, c :: j.table == k.table && HasAfter(store, writes, j, c) && HasAfter(store, writes, k, c) ==> j == k
  }

  /** A write takes a key from a row that is updated, not deleted: such a key is
      not released. */
  ghost predicate Overtakes(store: Store, writes: Writes)
  {
    exists k, o, c :: k in writes && o in writes && o != k && writes[o].Update?
      && c in KeysPut(store, writes, k) && Owns(store, o, k.table, c)
  }

  ghost predicate TargetsFine(store: Store, writes: Writes)
  {
    forall k :: k in writes ==>
      (!writes[k].Insert? ==> k in store.rows) && (!writes[k].Delete? ==> store.rowValid(k.table, writes[k].row))
  }

  /** Validation is no stricter than it says: a write set is acceptable exactly
      if its rows exist and are valid, no unique key has two owners afterwards,
      and none is taken from a row that is only updated. */
  lemma AcceptableExact(store: Store, writes: Writes)
    requires SoundStore(store) && AtPlaces(writes)
    ensures Acceptable(store, writes) <==>
      TargetsFine(store, writes) && UniqueAfter(store, writes) && !Overtakes(store, writes)
  {
    hide Blocked, Rivals, RowsValid, HasAfter, KeysPut;
    if Acceptable(store, writes) {
      assert forall k :: k in writes ==> Supported(store, writes, k);
      if Overtakes(store, writes) { OvertakenBlocked(store, writes); }
      forall j: Key, k: Key, c | j.table == k.table && HasAfter(store, writes, j, c) && HasAfter(store, writes, k, c)
        ensures j == k
      {
        if j != k { SharedClashes(store, writes, j, k, c); }
      }
    }
    if TargetsFine(store, writes) && UniqueAfter(store, writes) && !Overtakes(store, writes) {
      forall k | k in writes
        ensures Supported(store, writes, k)
      {
        if Blocked(store, writes, k) { BlockedShares(store, writes, k); }
      }
      forall j, k | j in writes && k in writes
        ensures !Rivals(store, writes, j, k)
      {
        if Rivals(store, writes, j, k) { RivalsShare(store, writes, j, k); }
      }
    }
  }

  lemma OvertakenBlocked(store: Store, writes: Writes)
    requires Overtakes(store, writes)
    ensures exists k :: Puts(writes, k) && Blocked(store, writes, k)
  {
    var k, o, c :| k in writes && o in writes && o != k && writes[o].Update?
                   && c in KeysPut(store, writes, k) && Owns(store, o, k.table, c);
    assert Blocked(store, writes, k);
  }

  lemma SharedClashes(store: Store, writes: Writes, j: Key, k: Key, c: IndexKey)
    requires KeysUnique(store) && j != k && j.table == k.table
    requires HasAfter(store, writes, j, c) && HasAfter(store, writes, k, c)
    ensures || (j in writes && k in writes && Rivals(store, writes, j, k))
            || (Puts(writes, j) && Blocked(store, writes, j)) || (Puts(writes, k) && Blocked(store, writes, k))
  {
    assert j in writes ==> c in KeysPut(store, writes, j);
    assert k in writes ==> c in KeysPut(store, writes, k);
    assert j !in writes ==> Owns(store, j, k.table, c);
    assert k !in writes ==> Owns(store, k, k.table, c);
  }

  lemma BlockedShares(store: Store, writes: Writes, k: Key)
    requires IdsUsed(store) && AtPlaces(writes) && k in writes && Blocked(store, writes, k)
    ensures Overtakes(store, writes) || !UniqueAfter(store, writes)
  {
    var o, c :| o in store.rows && c in KeysPut(store, writes, k) && Owns(store, o, k.table, c)
                && !Deletes(writes, o) && !(k in writes && writes[k].Update? && o == k);
    if o !in writes {
      assert HasAfter(store, writes, o, c) && HasAfter(store, writes, k, c);
    }
  }

  lemma RivalsShare(store: Store, writes: Writes, j: Key, k: Key)
    requires Rivals(store, writes, j, k)
    ensures !UniqueAfter(store, writes)
  {
    var c :| c in KeysPut(store, writes, j) && c in KeysPut(store, writes, k);
    assert HasAfter(store, writes, j, c) && HasAfter(store, writes, k, c);
  }
}
