/** Executing one group of the tick plan concurrently
    (`crates/nexum-execution/src/parallel.rs`, `execute_group`): every member
    runs on a branch of the tick transaction, and the branches merge back in
    slot order after the undeclared-overlap checks. */
module Groups {
  import opened Values
  import opened Transaction
  import opened Branching
  import opened Program
  import opened Runs

  datatype Result = Success(m: Machine) | Failure(error: Error, left: Machine)

  ghost predicate AllTerminate(ps: seq<Program>)
  {
    forall i :: 0 <= i < |ps| ==> Terminates(ps[i])
  }

  // -------------------------------------------------------------- serial

  /** The reference loop: members run one after another on the tick machine. */
  function Serial(store: Store, env: Env, ps: seq<Program>, m: Machine): Result
    requires AllTerminate(ps)
    decreases |ps|
  {
    if ps == [] then Success(m)
    else
      var (o, m') := Execute(store, env, ps[0], m, []);
      match o
      case Err(e) => Failure(e, m')
      case Ok(_) => Serial(store, env, ps[1..], m')
  }

  // ------------------------------------------------------------ parallel

  /** One member on its own branch with empty buffers. */
  function RunSlot(store: Store, env: Env, p: Program, parent: Tx): (Outcome, Machine)
    requires Terminates(p)
  {
    Execute(store, env, p, FreshMachine(parent), [])
  }

  /** The keys a child wrote that were not pending when the group started. */
  function FreshKeys(child: Tx, snapshot: set<Key>): set<Key>
  {
    child.writes.View().Keys - snapshot
  }

  /** The undeclared-overlap check of one child against its earlier siblings. */
  predicate Overlaps(child: Tx, snapshot: set<Key>, siblings: set<Key>)
  {
    || FreshKeys(child, snapshot) * siblings != {}
    || child.seen.rows.Keys * siblings != {}
    || (exists k :: k in siblings && k.table in child.seen.tables)
  }

  /** One merge: absorb the child, append its events and messages within the
      budgets, and renumber. A failure leaves the machine partly merged. */
  function MergeOne(env: Env, acc: Machine, child: Machine, snapshot: set<Key>, siblings: set<Key>): Result
  {
    if Overlaps(child.tx, snapshot, siblings) then Failure(Internal, acc)
    else
      var m := acc.(tx := Absorb(acc.tx, child.tx));
      match AppendEvents(m.events, child.events, env.maxEvents)
      case None => Failure(Capacity, m)
      case Some(events) =>
        var m' := m.(events := events);
        if |m'.outbound| + |child.outbound| > env.maxMessages then Failure(Capacity, m')
        else Success(m'.(outbound := Renumber(m'.outbound + child.outbound)))
  }

  /** Merges finished children in slot order. */
  function MergeAll(env: Env, children: seq<Machine>, acc: Machine, snapshot: set<Key>, siblings: set<Key>): Result
    decreases |children|
  {
    if children == [] then Success(acc)
    else
      match MergeOne(env, acc, children[0], snapshot, siblings)
      case Failure(e, m) => Failure(e, m)
      case Success(m) =>
        MergeAll(env, children[1..], m, snapshot, siblings + FreshKeys(children[0].tx, snapshot))
  }

  function Children(store: Store, env: Env, ps: seq<Program>, parent: Tx): (cs: seq<(Outcome, Machine)>)
    requires AllTerminate(ps)
    ensures |cs| == |ps|
    ensures forall i :: 0 <= i < |ps| ==> cs[i] == RunSlot(store, env, ps[i], parent)
  {
    seq(|ps|, i requires 0 <= i < |ps| && AllTerminate(ps) => RunSlot(store, env, ps[i], parent))
  }

  /** The first failure in slot order. */
  function FirstError(cs: seq<(Outcome, Machine)>): Option<Error>
  {
    if cs == [] then None
    else if cs[0].0.Err? then Some(cs[0].0.error)
    else FirstError(cs[1..])
  }

  function Machines(cs: seq<(Outcome, Machine)>): (ms: seq<Machine>)
    ensures |ms| == |cs| && forall i :: 0 <= i < |cs| ==> ms[i] == cs[i].1
  {
    seq(|cs|, i requires 0 <= i < |cs| => cs[i].1)
  }

  /** What `execute_group` computes. */
  function Group(store: Store, env: Env, ps: seq<Program>, m: Machine): Result
    requires AllTerminate(ps)
  {
    var cs := Children(store, env, ps, m.tx);
    match FirstError(cs)
    case Some(e) => Failure(e, m)
    case None => MergeAll(env, Machines(cs), m, m.tx.writes.View().Keys, {})
  }

  /** The result slots after every member finished. `order` is the order in
      which slots complete: any order that fills each slot. */
  method RunSlots(store: Store, env: Env, ps: seq<Program>, parent: Tx, order: seq<nat>)
    returns (results: seq<(Outcome, Machine)>)
    requires AllTerminate(ps)
    requires forall i :: 0 <= i < |ps| ==> i in order
    requires forall s :: s in order ==> s < |ps|
    ensures results == Children(store, env, ps, parent)
  {
    hide Execute, RunSlot;
    var slots: seq<Option<(Outcome, Machine)>> := seq(|ps|, _ => None);
    for j := 0 to |order|
      invariant |slots| == |ps|
      invariant forall s :: 0 <= s < |ps| ==> (s in order[..j] ==> slots[s].Some?)
      invariant forall s :: 0 <= s < |ps| && slots[s].Some? ==>
        slots[s].value == RunSlot(store, env, ps[s], parent)
    {
      var slot := order[j];
      assert slot in order;
      slots := slots[slot := Some(RunSlot(store, env, ps[slot], parent))];
    }
    assert order[..|order|] == order;
    results := seq(|ps|, i requires 0 <= i < |ps| && slots[i].Some? => slots[i].value);
  }

  /** The merge loop, in slot order. */
  method MergeChildren(env: Env, children: seq<Machine>, m: Machine) returns (r: Result)
    ensures r == MergeAll(env, children, m, m.tx.writes.View().Keys, {})
  {
    hide MergeOne, FreshKeys;
    var snapshot := m.tx.writes.View().Keys;
    var siblings: set<Key> := {};
    var acc := m;
    var i := 0;
    while i < |children|
      invariant 0 <= i <= |children|
      invariant MergeAll(env, children, m, snapshot, {}) == MergeAll(env, children[i..], acc, snapshot, siblings)
    {
      var merged := MergeOne(env, acc, children[i], snapshot, siblings);
      if merged.Failure? {
        return merged;
      }
      siblings := siblings + FreshKeys(children[i].tx, snapshot);
      acc := merged.m;
      i := i + 1;
    }
    r := Success(acc);
  }

  /** `execute_group`: run every slot, fail on the first error in slot order
      without merging anything, otherwise merge. */
  method ExecuteGroup(store: Store, env: Env, ps: seq<Program>, m: Machine, order: seq<nat>) returns (r: Result)
    requires AllTerminate(ps)
    requires forall i :: 0 <= i < |ps| ==> i in order
    requires forall s :: s in order ==> s < |ps|
    ensures r == Group(store, env, ps, m)
  {
    hide Execute, RunSlot, MergeAll;
    var results := RunSlots(store, env, ps, m.tx, order);
    var i := 0;
    while i < |results|
      invariant 0 <= i <= |results|
      invariant FirstError(results) == FirstError(results[i..])
    {
      if results[i].0.Err? {
        return Failure(results[i].0.error, m);
      }
      i := i + 1;
    }
    r := MergeChildren(env, Machines(results), m);
  }
}
