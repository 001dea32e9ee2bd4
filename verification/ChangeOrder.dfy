/** The order of the change records of a commit (`crates/nexum-tx/src/commit.rs`):
    in every table the deletes, then the updates, then the inserts, each in the
    order of their row ids. */
module ChangeOrder {
  import opened Values
  import opened Transaction
  import opened Sorting
  import opened Storage
  import opened Validation
  import opened Apply
  import opened Commit
  import opened ReadYourWrites

  /** Deletes, then updates, then inserts. */
  function Phase(c: Change): nat { if c.after.None? then 0 else if c.before.Some? then 1 else 2 }

  predicate Sooner(a: Change, b: Change)
  {
    a.key.table == b.key.table ==> Phase(a) < Phase(b) || (Phase(a) == Phase(b) && a.key.row.n < b.key.row.n)
  }

  ghost predicate InSequence(cs: seq<Change>)
  {
    forall i, j :: 0 <= i < j < |cs| ==> Sooner(cs[i], cs[j])
  }

  // ------------------------------------------------------------------- steps

  function StepPhase(writes: Writes, k: Key): nat
  {
    if k !in writes || writes[k].Delete? then 0 else if writes[k].Update? then 1 else 2
  }

  predicate Earlier(writes: Writes, j: Key, k: Key)
  {
    j.table == k.table ==>
      StepPhase(writes, j) < StepPhase(writes, k) || (StepPhase(writes, j) == StepPhase(writes, k) && j.row.n < k.row.n)
  }

  ghost predicate AllEarlier(writes: Writes, ks: seq<Key>)
  {
    forall i, j :: 0 <= i < j < |ks| ==> Earlier(writes, ks[i], ks[j])
  }

  lemma StepsEarlier(writes: Writes)
    requires AtPlaces(writes)
    ensures AllEarlier(writes, Steps(writes))
  {
    var ks := InOrder(writes.Keys);
    hide InOrder, Pick;
    PickOrdered(writes, ks, true);
    PickOrdered(writes, ks, false);
    var a, b := Pick(writes, ks, true), Pick(writes, ks, false);
    assert forall i :: 0 <= i < |a| ==> a[i] in a;
    assert forall i :: 0 <= i < |b| ==> b[i] in b;
  }

  /** Where the records come from: writes in `done`, inserts under ids handed
      out by now. */
  ghost predicate Traced(writes: Writes, done: seq<Key>, s: Store, c: Change)
  {
    match Phase(c)
    case 0 => c.key in done && StepPhase(writes, c.key) == 0
    case 1 => c.key in done && StepPhase(writes, c.key) == 1
    case _ =>
      && c.key.row.n < s.NextId(c.key.table)
      && exists h :: h in done && h.table == c.key.table && StepPhase(writes, h) == 2
  }

  lemma TracedStill(writes: Writes, done: seq<Key>, k: Key, s: Store, s': Store, c: Change)
    requires Traced(writes, done, s, c) && s.NextId(c.key.table) <= s'.NextId(c.key.table)
    ensures Traced(writes, done + [k], s', c)
  {
    assert forall h :: h in done ==> h in done + [k];
  }

  /** One more write: its record comes after all the others. */
  lemma SequenceStep(writes: Writes, done: seq<Key>, s: Store, cs: seq<Change>, k: Key)
    requires SoundStore(s) && k in writes && Mutate(s, writes, k).Some?
    requires InSequence(cs) && (forall c :: c in cs ==> Traced(writes, done, s, c))
    requires forall d :: d in done ==> Earlier(writes, d, k)
    ensures var (s', more) := Mutate(s, writes, k).value;
      InSequence(cs + more) && forall c :: c in cs + more ==> Traced(writes, done + [k], s', c)
  {
    hide SoundStore, Later, Mutate, InSequence, Traced;
    var (s', more) := Mutate(s, writes, k).value;
    MutateStep(s, writes, k);
    NoneForgotten(s, s');
    forall c | c in cs
      ensures Traced(writes, done + [k], s', c)
    {
      TracedStill(writes, done, k, s, s', c);
    }
    if more == [] {
      assert cs + more == cs;
    } else {
      LastInSequence(writes, done, s, cs, k);
    }
  }

  lemma NoneForgotten(s: Store, s': Store)
    requires Later(s, s')
    ensures forall t :: s.NextId(t) <= s'.NextId(t)
  {
    forall t
      ensures s.NextId(t) <= s'.NextId(t)
    {
      assert TableLater(s, s', t);
    }
  }

  lemma LastInSequence(writes: Writes, done: seq<Key>, s: Store, cs: seq<Change>, k: Key)
    requires SoundStore(s) && k in writes && Mutate(s, writes, k).Some? && Mutate(s, writes, k).value.1 != []
    requires InSequence(cs) && (forall c :: c in cs ==> Traced(writes, done, s, c))
    requires forall d :: d in done ==> Earlier(writes, d, k)
    ensures var (s', more) := Mutate(s, writes, k).value;
      && InSequence(cs + more) && |more| == 1 && Traced(writes, done + [k], s', more[0])
  {
    hide SoundStore, Later, Mutate;
    var (s', more) := Mutate(s, writes, k).value;
    MutateStep(s, writes, k);
    NoneForgotten(s, s');
    SoundIds(s);
    var c := more[0];
    assert k in done + [k];
    assert Phase(c) == StepPhase(writes, k);
    forall i | 0 <= i < |cs|
      ensures Sooner(cs[i], c)
    {
      assert cs[i] in cs;
      assert Traced(writes, done, s, cs[i]);
    }
  }

  lemma {:induction false} AllInSequence(writes: Writes, done: seq<Key>, ks: seq<Key>, s: Store, cs: seq<Change>)
    requires SoundStore(s) && (forall k :: k in ks ==> k in writes) && MutateAll(s, writes, ks).Some?
    requires InSequence(cs) && (forall c :: c in cs ==> Traced(writes, done, s, c))
    requires AllEarlier(writes, done + ks)
    ensures InSequence(cs + MutateAll(s, writes, ks).value.1)
    decreases |ks|
  {
    hide SoundStore, Mutate, InSequence, Traced, Earlier;
    if ks == [] {
      assert cs + [] == cs;
    } else {
      var k := ks[0];
      assert done + ks == done + [k] + ks[1..];
      forall d | d in done
        ensures Earlier(writes, d, k)
      {
        var i :| 0 <= i < |done| && done[i] == d;
        assert (done + ks)[i] == d && (done + ks)[|done|] == k;
      }
      var (s', c) := Mutate(s, writes, k).value;
      assert SoundStore(s') by { MutateStep(s, writes, k); }
      SequenceStep(writes, done, s, cs, k);
      AllInSequence(writes, done + [k], ks[1..], s', cs + c);
      var more := MutateAll(s', writes, ks[1..]).value.1;
      assert cs + c + more == cs + (c + more);
    }
  }

  // ------------------------------------------------------------------ tables

  lemma {:induction false} OfTableSequence(cs: seq<Change>, t: TableId)
    requires InSequence(cs)
    ensures InSequence(OfTable(cs, t))
  {
    hide Sooner;
    if cs != [] {
      var rest := cs[1..];
      assert forall i :: 0 <= i < |rest| ==> rest[i] == cs[i + 1];
      OfTableSequence(rest, t);
      assert forall c :: c in rest ==> Sooner(cs[0], c);
      assert forall i :: 0 <= i < |OfTable(rest, t)| ==> OfTable(rest, t)[i] in OfTable(rest, t);
    }
  }

  lemma {:induction false} CollectedSequence(cs: seq<Change>, ts: seq<TableId>)
    requires InSequence(cs) && Ascending(ts)
    ensures InSequence(Collected(cs, ts)) && forall c :: c in Collected(cs, ts) ==> c.key.table in ts
    decreases |ts|
  {
    if ts != [] {
      var rest := ts[1..];
      assert forall i :: 0 <= i < |rest| ==> rest[i] == ts[i + 1];
      CollectedSequence(cs, rest);
      OfTableSequence(cs, ts[0]);
      var a, b := OfTable(cs, ts[0]), Collected(cs, rest);
      assert ts == [ts[0]] + rest;
      assert forall i :: 0 <= i < |a| ==> a[i] in a;
      assert forall i :: 0 <= i < |b| ==> b[i] in b;
      assert forall t :: t in rest ==> ts[0] < t;
    }
  }

  // ------------------------------------------------------------------ commit

  lemma AppliedInSequence(store: Store, writes: Writes)
    requires SoundStore(store) && AtPlaces(writes) && ApplyAll(store, writes).Some?
    ensures InSequence(ApplyAll(store, writes).value.1)
  {
    hide SoundStore, AtPlaces, Steps, MutateAll, InSequence, Earlier, Traced;
    var ks := Steps(writes);
    StepsEarlier(writes);
    NothingInSequence();
    assert [] + ks == ks;
    AllInSequence(writes, [], ks, store, []);
    var cs := MutateAll(store, writes, ks).value.1;
    assert [] + cs == cs;
  }

  /** The records of a commit are in order of their tables, and within a table
      deletes come first, then updates, then inserts, each by row id. */
  lemma CommitSequenced(store: Store, tx: Tx)
    requires SoundStore(store) && Placed(tx.writes) && CommitTo(store, tx).Accepted?
    ensures ByTable(CommitTo(store, tx).changes) && InSequence(CommitTo(store, tx).changes)
  {
    hide SoundStore, Placed, InOrder, Holds, TablesOf, Collected, InSequence, ByTable, Records, Later, ApplyAll, Acceptable,
         AtPlaces, Validate, Before, Ascending;
    var writes := tx.writes.View();
    CommitExact(store, tx);
    SupportedPlaces(store, tx);
    AppliedInSequence(store, writes);
    TablesAscend(InOrder(writes.Keys));
    CollectedSequence(ApplyAll(store, writes).value.1, TablesOf(InOrder(writes.Keys)));
  }

  lemma NothingInSequence()
    ensures InSequence([])
  {
  }

  lemma SupportedPlaces(store: Store, tx: Tx)
    requires SoundStore(store) && Placed(tx.writes) && Acceptable(store, tx.writes.View())
    ensures AtPlaces(tx.writes.View())
  {
    hide KeysUnique, RowsValid, Blocked;
    var writes := tx.writes.View();
    forall k | k in writes
      ensures writes[k].Insert? <==> k.row.Provisional?
    {
      assert Supported(store, writes, k);
    }
  }
}
