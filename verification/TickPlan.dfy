/** The tick plan (`crates/nexum-execution/src/parallel.rs`, `TickPlan::build`):
    consecutive systems grouped while their table footprints do not conflict. */
module TickPlan {
  import opened Values
  import opened Transaction
  import opened GroupEquivalence

  /** A declared access, as table names in set order. */
  datatype Declaration = Opaque | Declared(readNames: seq<string>, writeNames: seq<string>)

  /** `None` stands for an opaque system. */
  type Prints = seq<Option<Footprint>>

  // ------------------------------------------------------------- resolve

  ghost function IdsOf(store: Store, names: seq<string>): set<TableId>
  {
    set n | n in names && n in store.names :: store.names[n]
  }

  ghost predicate Known(store: Store, d: Declaration)
  {
    d.Declared? ==> forall n :: n in d.readNames || n in d.writeNames ==> n in store.names
  }

  ghost function PrintOf(store: Store, d: Declaration): Option<Footprint>
  {
    if d.Opaque? then None else Some(Footprint(IdsOf(store, d.readNames), IdsOf(store, d.writeNames)))
  }

  ghost function PrintsOf(store: Store, ds: seq<Declaration>): Prints
  {
    seq(|ds|, i requires 0 <= i < |ds| => PrintOf(store, ds[i]))
  }

  method ResolveNames(store: Store, names: seq<string>) returns (r: Option<set<TableId>>)
    ensures r.None? <==> exists n :: n in names && n !in store.names
    ensures r.Some? ==> r.value == IdsOf(store, names)
  {
    var ids: set<TableId> := {};
    for i := 0 to |names|
      invariant ids == IdsOf(store, names[..i])
      invariant forall n :: n in names[..i] ==> n in store.names
    {
      assert names[..i + 1] == names[..i] + [names[i]];
      if names[i] !in store.names {
        return None;
      }
      ids := ids + {store.names[names[i]]};
    }
    assert names[..|names|] == names;
    r := Some(ids);
  }

  /** `resolve`: the outer option is the unknown-table error, the inner one
      the opaque system. */
  method Resolve(store: Store, d: Declaration) returns (r: Option<Option<Footprint>>)
    ensures r.Some? <==> Known(store, d)
    ensures r.Some? ==> r.value == PrintOf(store, d)
  {
    if d.Opaque? {
      return Some(None);
    }
    var rs := ResolveNames(store, d.readNames);
    if rs.None? {
      return None;
    }
    var ws := ResolveNames(store, d.writeNames);
    if ws.None? {
      return None;
    }
    r := Some(Some(Footprint(rs.value, ws.value)));
  }

  // -------------------------------------------------------------- groups

  /** Systems `a..b` may run together: one system of any kind, or declared
      systems without a conflict. */
  ghost predicate GroupOk(fs: Prints, a: nat, b: nat)
    requires b <= |fs|
  {
    a < b && (b > a + 1 ==>
      (forall i :: a <= i < b ==> fs[i].Some?)
      && (forall i, j :: a <= i < j < b ==> !Interferes(fs[i].value, fs[j].value)))
  }

  /** A partition of `from..|fs|` into consecutive groups, given by their ends. */
  ghost predicate Partition(fs: Prints, from: nat, ends: seq<nat>)
    decreases |ends|
  {
    if ends == [] then from == |fs|
    else from < ends[0] <= |fs| && GroupOk(fs, from, ends[0]) && Partition(fs, ends[0], ends[1..])
  }

  /** The longest group that starts at `a` and reaches at least `e`. */
  ghost function Extent(fs: Prints, a: nat, e: nat): (r: nat)
    requires a < e <= |fs|
    ensures e <= r <= |fs|
    ensures GroupOk(fs, a, e) ==> GroupOk(fs, a, r)
    ensures r < |fs| ==> !GroupOk(fs, a, r + 1)
    decreases |fs| - e
  {
    if e < |fs| && GroupOk(fs, a, e + 1) then Extent(fs, a, e + 1) else e
  }

  /** The greedy plan from system `a` on. */
  ghost function Greedy(fs: Prints, a: nat): (ends: seq<nat>)
    requires a <= |fs|
    ensures Partition(fs, a, ends)
    decreases |fs| - a
  {
    if a == |fs| then []
    else
      var e := Extent(fs, a, a + 1);
      [e] + Greedy(fs, e)
  }

  lemma Hereditary(fs: Prints, a: nat, b: nat, c: nat, d: nat)
    requires a <= c < d <= b <= |fs| && GroupOk(fs, a, b)
    ensures GroupOk(fs, c, d)
  {
  }

  /** Greedy from a later start needs no more groups than any partition. */
  lemma {:induction false} GreedyFewest(fs: Prints, a: nat, from: nat, ends: seq<nat>)
    requires from <= a <= |fs| && Partition(fs, from, ends)
    ensures |Greedy(fs, a)| <= |ends|
    decreases |ends|
  {
    if a < |fs| {
      var b, e := ends[0], Extent(fs, a, a + 1);
      if b <= a {
        GreedyFewest(fs, a, b, ends[1..]);
      } else {
        if e < b { Hereditary(fs, from, b, a, e + 1); }
        GreedyFewest(fs, e, b, ends[1..]);
      }
    }
  }

  // --------------------------------------------------------------- build

  ghost function Range(a: nat, b: nat): (r: seq<nat>)
    requires a <= b
    ensures |r| == b - a && forall i :: 0 <= i < b - a ==> r[i] == a + i
  {
    seq(b - a, i => a + i)
  }

  /** The groups of a partition as index lists. */
  ghost function Lists(from: nat, ends: seq<nat>): seq<seq<nat>>
    decreases |ends|
  {
    if ends == [] then []
    else (if from <= ends[0] then [Range(from, ends[0])] else [[]]) + Lists(ends[0], ends[1..])
  }

  /** The groups from system `a` on. */
  ghost function PlanFrom(fs: Prints, a: nat): seq<seq<nat>>
    requires a <= |fs|
  {
    Lists(a, Greedy(fs, a))
  }

  /** The union of the footprints of declared systems `a..b`. */
  ghost predicate Unions(fs: Prints, a: nat, b: nat, r: set<TableId>, w: set<TableId>)
    requires b <= |fs|
  {
    && (forall i :: a <= i < b ==> fs[i].Some?)
    && (forall t :: t in r <==> exists i :: a <= i < b && fs[i].Some? && t in fs[i].value.readTables)
    && (forall t :: t in w <==> exists i :: a <= i < b && fs[i].Some? && t in fs[i].value.writeTables)
  }

  /** A system conflicts with the accumulated footprints exactly when it
      conflicts with a member. */
  lemma UnionConflict(fs: Prints, a: nat, b: nat, r: set<TableId>, w: set<TableId>, f: Footprint)
    requires b <= |fs| && Unions(fs, a, b, r, w)
    ensures (f.writeTables * r != {} || f.writeTables * w != {} || f.readTables * w != {})
            <==> exists i :: a <= i < b && Interferes(fs[i].value, f)
  {
    if i :| a <= i < b && Interferes(fs[i].value, f) {
      var g := fs[i].value;
      if t :| t in g.writeTables * f.readTables {
        assert t in f.readTables * w;
      } else if t :| t in g.writeTables * f.writeTables {
        assert t in f.writeTables * w;
      } else if t :| t in g.readTables * f.writeTables {
        assert t in f.writeTables * r;
      }
    }
    if t :| t in f.writeTables * r {
      var i :| a <= i < b && t in fs[i].value.readTables;
      assert t in fs[i].value.readTables * f.writeTables;
    } else if t :| t in f.writeTables * w {
      var i :| a <= i < b && t in fs[i].value.writeTables;
      assert t in fs[i].value.writeTables * f.writeTables;
    } else if t :| t in f.readTables * w {
      var i :| a <= i < b && t in fs[i].value.writeTables;
      assert t in fs[i].value.writeTables * f.readTables;
    }
  }

  /** Joining needs declared systems throughout and no conflict. */
  lemma JoinOk(fs: Prints, a: nat, b: nat, r: set<TableId>, w: set<TableId>)
    requires a < b < |fs| && GroupOk(fs, a, b) && Unions(fs, a, b, r, w) && fs[b].Some?
    ensures var f := fs[b].value;
      (f.writeTables * r == {} && f.writeTables * w == {} && f.readTables * w == {}) <==> GroupOk(fs, a, b + 1)
  {
    UnionConflict(fs, a, b, r, w, fs[b].value);
  }

  /** `TickPlan::build`: one greedy pass. The result is `None` for an unknown
      declared table. */
  method Build(store: Store, ds: seq<Declaration>) returns (r: Option<seq<seq<nat>>>)
    ensures r.Some? <==> forall d :: d in ds ==> Known(store, d)
    ensures r.Some? ==> r.value == PlanFrom(PrintsOf(store, ds), 0)
  {
    hide GroupOk, Unions, Interferes, PrintOf, IdsOf, Known, Extent, PlanFrom, Greedy;
    ghost var fs := PrintsOf(store, ds);
    var groups: seq<seq<nat>> := [];
    var current: seq<nat> := [];
    var curReads, curWrites := {}, {};
    ghost var start := 0;
    EmptyUnions(fs, 0);
    for i := 0 to |ds|
      invariant start <= i && current == Range(start, i)
      invariant Unions(fs, start, i, curReads, curWrites)
      invariant start < i ==> GroupOk(fs, start, i) && Extent(fs, start, i) == Extent(fs, start, start + 1)
      invariant groups + PlanFrom(fs, start) == PlanFrom(fs, 0)
      invariant forall j :: 0 <= j < i ==> Known(store, ds[j])
    {
      var resolved := Resolve(store, ds[i]);
      if resolved.None? {
        return None;
      }
      match resolved.value {
        case None =>
          if current != [] {
            Closes(fs, start, i);
            groups := groups + [current];
          }
          OpaqueAlone(fs, i);
          groups := groups + [[i]];
          current, curReads, curWrites, start := [], {}, {}, i + 1;
          EmptyUnions(fs, start);
        case Some(f) =>
          var conflicts := f.writeTables * curReads != {} || f.writeTables * curWrites != {}
                           || f.readTables * curWrites != {};
          if current == [] || !conflicts {
            Joins(fs, start, i, curReads, curWrites);
            current, curReads, curWrites := current + [i], curReads + f.readTables, curWrites + f.writeTables;
          } else {
            JoinOk(fs, start, i, curReads, curWrites);
            Closes(fs, start, i);
            groups := groups + [current];
            EmptyUnions(fs, i);
            Joins(fs, i, i, {}, {});
            current, curReads, curWrites, start := [i], {} + f.readTables, {} + f.writeTables, i;
          }
      }
    }
    if current != [] {
      Closes(fs, start, |ds|);
      groups := groups + [current];
    }
    assert PlanFrom(fs, |ds|) == [] by { PlanEnds(fs); }
    r := Some(groups);
  }

  lemma PlanEnds(fs: Prints)
    ensures PlanFrom(fs, |fs|) == []
  {
  }

  lemma EmptyUnions(fs: Prints, a: nat)
    requires a <= |fs|
    ensures Unions(fs, a, a, {}, {})
  {
  }

  /** When the next system cannot join, the greedy group ends here. */
  lemma Closes(fs: Prints, a: nat, b: nat)
    requires a < b <= |fs| && GroupOk(fs, a, b) && Extent(fs, a, b) == Extent(fs, a, a + 1)
    requires b < |fs| ==> fs[b].None? || !GroupOk(fs, a, b + 1)
    ensures PlanFrom(fs, a) == [Range(a, b)] + PlanFrom(fs, b)
  {
  }

  lemma OpaqueAlone(fs: Prints, i: nat)
    requires i < |fs| && fs[i].None?
    ensures PlanFrom(fs, i) == [[i]] + PlanFrom(fs, i + 1)
  {
    assert i + 2 <= |fs| ==> !GroupOk(fs, i, i + 2);
    assert Range(i, i + 1) == [i];
  }

  /** A system without a conflict extends the running group. */
  lemma Joins(fs: Prints, a: nat, b: nat, r: set<TableId>, w: set<TableId>)
    requires a <= b < |fs| && Unions(fs, a, b, r, w) && fs[b].Some?
    requires a < b ==> GroupOk(fs, a, b) && Extent(fs, a, b) == Extent(fs, a, a + 1)
    requires var f := fs[b].value;
      a < b ==> f.writeTables * r == {} && f.writeTables * w == {} && f.readTables * w == {}
    ensures Unions(fs, a, b + 1, r + fs[b].value.readTables, w + fs[b].value.writeTables)
    ensures GroupOk(fs, a, b + 1) && Extent(fs, a, b + 1) == Extent(fs, a, a + 1)
  {
    hide Interferes, Greedy, Extent;
    if a < b { JoinOk(fs, a, b, r, w); }
    UnionsGrow(fs, a, b, r, w);
    if a < b { Reaches(fs, a, b); }
  }

  lemma Reaches(fs: Prints, a: nat, b: nat)
    requires a < b < |fs| && GroupOk(fs, a, b + 1)
    ensures Extent(fs, a, b) == Extent(fs, a, b + 1)
  {
  }

  lemma UnionsGrow(fs: Prints, a: nat, b: nat, r: set<TableId>, w: set<TableId>)
    requires a <= b < |fs| && Unions(fs, a, b, r, w) && fs[b].Some?
    ensures Unions(fs, a, b + 1, r + fs[b].value.readTables, w + fs[b].value.writeTables)
  {
  }

  // ----------------------------------------------------------- guarantees

  ghost function Flatten(groups: seq<seq<nat>>): seq<nat>
  {
    if groups == [] then [] else groups[0] + Flatten(groups[1..])
  }

  /** A partition lists every system once, in order. */
  lemma {:induction false} InOrder(fs: Prints, from: nat, ends: seq<nat>)
    requires from <= |fs| && Partition(fs, from, ends)
    ensures |Lists(from, ends)| == |ends| && Flatten(Lists(from, ends)) == Range(from, |fs|)
    decreases |ends|
  {
    hide GroupOk;
    if ends != [] {
      InOrder(fs, ends[0], ends[1..]);
      assert Range(from, |fs|) == Range(from, ends[0]) + Range(ends[0], |fs|);
      assert Lists(from, ends)[1..] == Lists(ends[0], ends[1..]);
    }
  }

  /** The plan lists every system once in order, in groups that may run
      together, and no other such division into groups is shorter. */
  lemma PlanOptimal(fs: Prints, ends: seq<nat>)
    requires Partition(fs, 0, ends)
    ensures Flatten(PlanFrom(fs, 0)) == Range(0, |fs|) && Partition(fs, 0, Greedy(fs, 0))
    ensures |PlanFrom(fs, 0)| <= |ends|
  {
    InOrder(fs, 0, Greedy(fs, 0));
    GreedyFewest(fs, 0, 0, ends);
  }
}
