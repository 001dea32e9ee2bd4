/** The system registry (`crates/nexum-execution/src/systems.rs`): always in
    `(priority, id)` order. */
module Systems {
  import opened Bits
  import opened Values
  import opened Transaction
  import opened Program
  import opened Sorting
  import TickPlan

  /** The input frame of one tick. */
  datatype Frame = Frame(tick: nat, commands: seq<Bytes>)

  /** A system: what it runs depends on the tick and its inputs. */
  datatype System = System(
    id: nat, name: string, priority: nat, access: TickPlan.Declaration, body: (nat, Frame) -> Program)

  function Place(d: System): Rank { Rank(d.priority, d.id, 0) }

  predicate Taken(s: seq<System>, d: System)
  {
    exists i :: 0 <= i < |s| && (s[i].id == d.id || s[i].name == d.name)
  }

  /** The registry after a registration attempt. */
  function Registered(s: seq<System>, d: System): seq<System>
  {
    if Taken(s, d) then s
    else
      var i := Slot(s, Place, d);
      s[..i] + [d] + s[i..]
  }

  ghost predicate Unique(s: seq<System>)
  {
    forall i, j :: 0 <= i < j < |s| ==> s[i].id != s[j].id && s[i].name != s[j].name
  }

  ghost predicate InOrder(s: seq<System>)
  {
    Ordered(s, Place) && Unique(s)
  }

  /** Systems run by priority, then by id. */
  lemma RunOrder(s: seq<System>, i: nat, j: nat)
    requires InOrder(s) && i < j < |s|
    ensures s[i].priority < s[j].priority || (s[i].priority == s[j].priority && s[i].id < s[j].id)
  {
    assert !Below(Place(s[j]), Place(s[i]));
  }

  lemma RegisteredInOrder(s: seq<System>, d: System)
    requires InOrder(s)
    ensures InOrder(Registered(s, d))
    ensures !Taken(s, d) ==> forall x :: x in Registered(s, d) <==> x in s || x == d
  {
    hide Slot, Below;
    if !Taken(s, d) {
      InsertOrdered(s, Place, d);
      var i := Slot(s, Place, d);
      assert s == s[..i] + s[i..];
      InsertUnique(s, d, i);
    }
  }

  lemma InsertUnique(s: seq<System>, d: System, i: nat)
    requires Unique(s) && !Taken(s, d) && i <= |s|
    ensures Unique(s[..i] + [d] + s[i..])
  {
  }

  class SystemRegistry {
    var systems: seq<System>

    ghost predicate Valid()
      reads this
    {
      InOrder(systems)
    }

    constructor ()
      ensures Valid() && systems == []
    {
      systems := [];
    }

    /** The binary search for the insertion point of an absent id. */
    method Position(d: System) returns (i: nat)
      requires Valid() && !Taken(systems, d)
      ensures i == Slot(systems, Place, d)
    {
      hide Slot;
      var lo, hi := 0, |systems|;
      while lo < hi
        invariant 0 <= lo <= hi <= |systems|
        invariant lo > 0 ==> Below(Place(systems[lo - 1]), Place(d))
        invariant hi < |systems| ==> Below(Place(d), Place(systems[hi]))
      {
        var mid := (lo + hi) / 2;
        if Below(Place(systems[mid]), Place(d)) {
          lo := mid + 1;
        } else {
          assert systems[mid].id != d.id;
          hi := mid;
        }
      }
      i := lo;
      var slot := Slot(systems, Place, d);
      assert slot < lo ==> Below(Place(d), Place(systems[lo - 1]));
    }

    /** Returns the error, if any. */
    method Register(d: System) returns (error: Option<Error>)
      requires Valid()
      modifies this
      ensures Valid() && systems == Registered(old(systems), d)
      ensures error == if Taken(old(systems), d) then Some(AlreadyExists) else None
    {
      RegisteredInOrder(systems, d);
      for k := 0 to |systems|
        invariant forall j :: 0 <= j < k ==> systems[j].id != d.id
        invariant systems == old(systems)
      {
        if systems[k].id == d.id {
          return Some(AlreadyExists);
        }
      }
      for k := 0 to |systems|
        invariant forall j :: 0 <= j < k ==> systems[j].name != d.name
        invariant systems == old(systems)
      {
        if systems[k].name == d.name {
          return Some(AlreadyExists);
        }
      }
      var i := Position(d);
      systems := systems[..i] + [d] + systems[i..];
      error := None;
    }

    method Remove(id: nat) returns (error: Option<Error>)
      requires Valid()
      modifies this
      ensures Valid()
      ensures error == if exists i :: 0 <= i < |old(systems)| && old(systems)[i].id == id then None else Some(NotFound)
      ensures error.Some? ==> systems == old(systems)
      ensures error.None? ==> forall x :: x in systems <==> x in old(systems) && x.id != id
    {
      hide InOrder;
      for k := 0 to |systems|
        invariant forall j :: 0 <= j < k ==> systems[j].id != id
        invariant systems == old(systems)
      {
        if systems[k].id == id {
          OneRemoved(systems, k);
          systems := systems[..k] + systems[k + 1..];
          return None;
        }
      }
      error := Some(NotFound);
    }
  }

  /** Taking one system out keeps the others, in order. */
  lemma OneRemoved(s: seq<System>, k: nat)
    requires k < |s| && InOrder(s)
    ensures InOrder(s[..k] + s[k + 1..])
    ensures forall x :: x in s[..k] + s[k + 1..] <==> x in s && x.id != s[k].id
  {
    hide Ordered;
    var rest := s[..k] + s[k + 1..];
    OrderedWithout(s, k);
    assert forall i :: 0 <= i < |rest| ==> rest[i] == if i < k then s[i] else s[i + 1];
    forall x | x in s && x.id != s[k].id
      ensures x in rest
    {
      var i :| 0 <= i < |s| && s[i] == x;
      assert rest[if i < k then i else i - 1] == x;
    }
  }

  lemma OrderedWithout(s: seq<System>, k: nat)
    requires k < |s| && Ordered(s, Place)
    ensures Ordered(s[..k] + s[k + 1..], Place)
  {
    var rest := s[..k] + s[k + 1..];
    assert forall i :: 0 <= i < |rest| ==> rest[i] == if i < k then s[i] else s[i + 1];
  }

  // -------------------------------------------------- registration order

  ghost function AllRegistered(ds: seq<System>): (s: seq<System>)
  {
    if ds == [] then [] else Registered(AllRegistered(ds[..|ds| - 1]), ds[|ds| - 1])
  }

  lemma {:induction false} AllInOrder(ds: seq<System>)
    requires Unique(ds)
    ensures InOrder(AllRegistered(ds)) && forall x :: x in AllRegistered(ds) <==> x in ds
  {
    hide Registered;
    if ds != [] {
      var front, d := ds[..|ds| - 1], ds[|ds| - 1];
      AllInOrder(front);
      var s := AllRegistered(front);
      forall i | 0 <= i < |s|
        ensures s[i].id != d.id && s[i].name != d.name
      {
        assert s[i] in front;
        var j :| 0 <= j < |front| && front[j] == s[i];
        assert ds[j] == s[i];
      }
      assert ds == front + [d];
      RegisteredInOrder(s, d);
    }
  }

  /** The ordered list does not depend on the order of registration. */
  lemma RegistrationOrder(ds: seq<System>, es: seq<System>)
    requires Unique(ds) && Unique(es) && forall x :: x in ds <==> x in es
    ensures AllRegistered(ds) == AllRegistered(es)
  {
    hide AllRegistered, Below;
    AllInOrder(ds);
    AllInOrder(es);
    SameEntries(AllRegistered(ds), AllRegistered(es), Place);
    OrderedUnique(AllRegistered(ds), AllRegistered(es), Place);
  }
}
