/** The lock-free single-producer single-consumer ring
    (`crates/nexum-network/src/spsc.rs`) as a state machine over its individual
    atomic loads, slot accesses and atomic stores.

    Memory is release/acquire: an acquire load of the other side's index may
    return any value stored since the last one this side saw, and a slot read
    may return any write that is not older than the newest write made visible
    by the acquire load. Indices are 64-bit words that wrap around. */
module SpscRing {
  import opened Bits

  const M: nat := 0x1_0000_0000_0000_0000

  /** `a.wrapping_sub(b)` on words. */
  function WrappingSub(a: nat, b: nat): nat { (a - b) % M }

  /** Program counter of the producer inside `push`. */
  datatype Producer<T> =
    | PIdle
    | PCalled(item: T)
    | PGotWrite(item: T, w: nat)
    | PGotRead(item: T, w: nat, r: nat)
    | PWritten(item: T, w: nat)

  /** Program counter of the consumer inside `pop`. */
  datatype Consumer<T> =
    | CIdle
    | CCalled
    | CGotRead(r: nat)
    | CGotWrite(r: nat, w: nat)
    | CTaken(r: nat, item: T)

  /** `writeVals` and `readVals` list every value stored in the two indices.
      `slots[s]` lists the numbers of the writes to slot `s`; write number `n`
      stored `items[n]`. `released[i][s]` is how many writes to slot `s` the
      store `writeVals[i]` made visible. `seenRead` and `seenWrite` are the
      newest stores each side has observed of the other's index. */
  datatype State<T> = State(
    bits: nat,
    items: seq<T>,
    slots: seq<seq<nat>>,
    writeVals: seq<nat>,
    released: seq<seq<nat>>,
    readVals: seq<nat>,
    popped: seq<T>,
    seenRead: nat,
    seenWrite: nat,
    p: Producer<T>,
    c: Consumer<T>)
  {
    function Capacity(): nat { Pow2(bits) }
    function Pushes(): int { |writeVals| - 1 }
    function Pops(): int { |readVals| - 1 }

    /** The abstract queue: published items that have not been popped. */
    function Queue(): seq<T>
      requires 0 <= Pops() <= Pushes() <= |items|
    {
      items[Pops()..Pushes()]
    }
  }

  /** `SpscRing::new` with a power-of-two capacity of at least two. */
  ghost predicate Init<T>(s: State<T>)
  {
    && 1 <= s.bits < 64
    && s.items == [] && s.popped == []
    && |s.slots| == Pow2(s.bits) && (forall i :: 0 <= i < |s.slots| ==> s.slots[i] == [])
    && s.writeVals == [0] && s.readVals == [0]
    && s.released == [Lengths(s.slots)]
    && s.seenRead == 0 && s.seenWrite == 0
    && s.p.PIdle? && s.c.CIdle?
  }

  function Lengths(slots: seq<seq<nat>>): seq<nat>
  {
    seq(|slots|, i requires 0 <= i < |slots| => |slots[i]|)
  }

  // --------------------------------------------------------------- steps

  datatype Action<T> =
    | CallPush(x: T) | LoadOwnWrite | LoadRead(i: nat) | ReturnFull | WriteSlot | StoreWrite
    | CallPop | LoadOwnRead | LoadWrite(i: nat) | ReturnEmpty | ReadSlot(j: nat) | StoreRead

  /** One atomic step of either thread. */
  ghost predicate Step<T>(s: State<T>, a: Action<T>, t: State<T>)
  {
    match a
    case CallPush(x) =>
      s.p.PIdle? && t == s.(p := PCalled(x))
    case LoadOwnWrite =>
      s.p.PCalled? && s.writeVals != []
      && t == s.(p := PGotWrite(s.p.item, s.writeVals[|s.writeVals| - 1]))
    case LoadRead(i) =>
      s.p.PGotWrite? && s.seenRead <= i < |s.readVals|
      && t == s.(p := PGotRead(s.p.item, s.p.w, s.readVals[i]), seenRead := i)
    case ReturnFull =>
      s.p.PGotRead? && WrappingSub(s.p.w, s.p.r) >= s.Capacity()
      && t == s.(p := PIdle)
    case WriteSlot =>
      s.p.PGotRead? && WrappingSub(s.p.w, s.p.r) < s.Capacity()
      && var slot := And(s.p.w, s.Capacity() - 1);
      slot < |s.slots|
      && t == s.(items := s.items + [s.p.item],
                 slots := s.slots[slot := s.slots[slot] + [|s.items|]],
                 p := PWritten(s.p.item, s.p.w))
    case StoreWrite =>
      s.p.PWritten?
      && t == s.(writeVals := s.writeVals + [(s.p.w + 1) % M],
                 released := s.released + [Lengths(s.slots)],
                 p := PIdle)
    case CallPop =>
      s.c.CIdle? && t == s.(c := CCalled)
    case LoadOwnRead =>
      s.c.CCalled? && s.readVals != []
      && t == s.(c := CGotRead(s.readVals[|s.readVals| - 1]))
    case LoadWrite(i) =>
      s.c.CGotRead? && s.seenWrite <= i < |s.writeVals|
      && t == s.(c := CGotWrite(s.c.r, s.writeVals[i]), seenWrite := i)
    case ReturnEmpty =>
      s.c.CGotWrite? && s.c.r == s.c.w && t == s.(c := CIdle)
    case ReadSlot(j) =>
      s.c.CGotWrite? && s.c.r != s.c.w
      && var slot := And(s.c.r, s.Capacity() - 1);
      slot < |s.slots| && s.seenWrite < |s.released| && slot < |s.released[s.seenWrite]|
      && s.released[s.seenWrite][slot] - 1 <= j < |s.slots[slot]|
      && s.slots[slot][j] < |s.items|
      && t == s.(c := CTaken(s.c.r, s.items[s.slots[slot][j]]))
    case StoreRead =>
      s.c.CTaken?
      && t == s.(readVals := s.readVals + [(s.c.r + 1) % M],
                 popped := s.popped + [s.c.item],
                 c := CIdle)
  }

  // ----------------------------------------------------------- invariant

  /** Each stored index value is its position modulo 2^64. */
  ghost predicate Counts(vals: seq<nat>)
  {
    vals != [] && forall i :: 0 <= i < |vals| ==> vals[i] == i % M
  }

  /** The writes to a slot: ascending, all of the slot's residue. */
  ghost predicate SlotWrites(s: seq<nat>, slot: nat, cap: nat, n: nat)
    requires cap > 0
  {
    && (forall j :: 0 <= j < |s| ==> s[j] < n && s[j] % cap == slot)
    && (forall i, j :: 0 <= i < j < |s| ==> s[i] < s[j])
  }

  /** The slots record all of the first `n` writes and nothing else. */
  ghost predicate Slots(slots: seq<seq<nat>>, cap: nat, n: nat)
  {
    && |slots| == cap > 0
    && (forall i :: 0 <= i < cap ==> SlotWrites(slots[i], i, cap, n))
    && (forall m :: 0 <= m < n ==> m in slots[m % cap])
  }

  /** Store number `i` releases exactly the slot writes numbered below `i`. */
  ghost predicate Releases(released: seq<seq<nat>>, slots: seq<seq<nat>>)
  {
    forall i :: 0 <= i < |released| ==> ReleasesAt(released[i], slots, i)
  }

  ghost predicate ReleasesAt(lens: seq<nat>, slots: seq<seq<nat>>, i: nat)
  {
    && |lens| == |slots|
    && (forall k :: 0 <= k < |slots| ==> lens[k] <= |slots[k]|)
    && (forall k, j :: 0 <= k < |slots| && 0 <= j < |slots[k]| ==> (j < lens[k] <==> slots[k][j] < i))
  }

  ghost predicate ProducerInv<T>(s: State<T>)
    requires s.writeVals != [] && s.readVals != []
  {
    && |s.items| == s.Pushes() + (if s.p.PWritten? then 1 else 0)
    && s.seenRead <= s.Pops() && |s.items| <= s.seenRead + s.Capacity()
    && match s.p
       case PIdle => true
       case PCalled(x) => true
       case PGotWrite(x, w) => w == s.Pushes() % M
       case PGotRead(x, w, r) => w == s.Pushes() % M && r == s.seenRead % M
       case PWritten(x, w) => w == s.Pushes() % M && s.items[|s.items| - 1] == x
  }

  ghost predicate ConsumerInv<T>(s: State<T>)
    requires s.writeVals != [] && s.readVals != []
  {
    && s.Pops() <= s.seenWrite <= s.Pushes() <= |s.items|
    && s.popped == s.items[..s.Pops()]
    && match s.c
       case CIdle => true
       case CCalled => true
       case CGotRead(r) => r == s.Pops() % M
       case CGotWrite(r, w) => r == s.Pops() % M && w == s.seenWrite % M
       case CTaken(r, x) => r == s.Pops() % M && s.Pops() < s.seenWrite && x == s.items[s.Pops()]
  }

  ghost predicate Inv<T>(s: State<T>)
  {
    && 1 <= s.bits < 64
    && Counts(s.writeVals) && Counts(s.readVals)
    && ProducerInv(s) && ConsumerInv(s)
    && Slots(s.slots, s.Capacity(), |s.items|)
    && |s.released| == |s.writeVals| && Releases(s.released, s.slots)
  }

  // -------------------------------------------------------- word lemmas

  lemma {:induction false} CapacityDivides(k: nat)
    requires k <= 64
    ensures Pow2(k) <= M && M % Pow2(k) == 0
    decreases 64 - k
  {
    if k < 64 {
      CapacityDivides(k + 1);
      HalfDivides(M, Pow2(k));
    } else {
      WordSize();
    }
  }

  lemma HalfDivides(m: nat, p: nat)
    requires p > 0 && m % (2 * p) == 0
    ensures m % p == 0
  {
    var q := m / (2 * p);
    assert m == p * (2 * q);
    DivUnique(m, p, 2 * q, 0);
  }

  lemma WordSize()
    ensures Pow2(64) == M
  {
    Pow2Byte(0);
    Pow2Byte(8);
    Pow2Byte(16);
    Pow2Byte(24);
    Pow2Byte(32);
    Pow2Byte(40);
    Pow2Byte(48);
    Pow2Byte(56);
  }

  lemma SmallCapacity(k: nat)
    requires k < 64
    ensures Pow2(k) < M
  {
    CapacityDivides(k + 1);
  }

  /** Masking a wrapped index selects the slot of the unwrapped index. */
  lemma SlotOf(n: nat, k: nat)
    requires k < 64
    ensures And(n % M, Pow2(k) - 1) == n % Pow2(k)
  {
    CapacityDivides(k);
    AndMask(n % M, k);
    ModOfMod(n, M, Pow2(k));
  }

  lemma ModOfMod(n: nat, m: nat, c: nat)
    requires m > 0 && c > 0 && m % c == 0
    ensures (n % m) % c == n % c
  {
    var a, b, r := n / m, m / c, n % m;
    assert m * a == c * (b * a);
    DivUnique(n, c, b * a + r / c, r % c);
  }

  /** Wrapped distances are true distances while they stay below 2^64. */
  lemma WrappedDistance(a: nat, b: nat)
    requires b <= a < b + M
    ensures WrappingSub(a % M, b % M) == a - b
    ensures (a % M == b % M) <==> a == b
    ensures (a % M + 1) % M == (a + 1) % M
  {
  }

  // ------------------------------------------------------- preservation

  lemma InitInv<T>(s: State<T>)
    requires Init(s)
    ensures Inv(s)
  {
  }

  /** Once a push passed its test, the slot it writes is outside the queue and
      the queue is not full. */
  lemma RoomToWrite<T>(s: State<T>)
    requires Inv(s) && s.p.PGotRead?
    ensures WrappingSub(s.p.w, s.p.r) == s.Pushes() - s.seenRead
    ensures And(s.p.w, s.Capacity() - 1) == s.Pushes() % s.Capacity()
  {
    SmallCapacity(s.bits);
    WrappedDistance(s.Pushes(), s.seenRead);
    SlotOf(s.Pushes(), s.bits);
  }

  /** A pop past its test sees exactly one candidate write in its slot: the
      one that stored the queue's head. */
  lemma HeadIsOnlyCandidate<T>(s: State<T>, slot: nat, j: int)
    requires Inv(s) && s.c.CGotWrite? && s.c.r != s.c.w
    requires slot == And(s.c.r, s.Capacity() - 1)
    ensures slot == s.Pops() % s.Capacity() && s.Pops() < s.seenWrite
    ensures slot < |s.released[s.seenWrite]| && s.released[s.seenWrite][slot] >= 1
    ensures s.released[s.seenWrite][slot] - 1 <= j < |s.slots[slot]| ==> s.slots[slot][j] == s.Pops()
  {
    var r, cap := s.Pops(), s.Capacity();
    SmallCapacity(s.bits);
    WrappedDistance(s.seenWrite, r);
    SlotOf(r, s.bits);
    assert r in s.slots[slot];
    var i :| 0 <= i < |s.slots[slot]| && s.slots[slot][i] == r;
    assert ReleasesAt(s.released[s.seenWrite], s.slots, s.seenWrite);
    if i < j < |s.slots[slot]| {
      SameResidue(r, s.slots[slot][j], cap);
    }
  }

  lemma WriteSlotInv<T>(s: State<T>, t: State<T>)
    requires Inv(s) && Step(s, WriteSlot, t)
    ensures Inv(t)
  {
    RoomToWrite(s);
    WriteKeepsSlots(s.slots, s.Capacity(), |s.items|);
    WriteKeepsReleases(s.released, s.slots, |s.items| % s.Capacity(), |s.items|);
  }

  lemma WriteKeepsSlots(slots: seq<seq<nat>>, cap: nat, n: nat)
    requires Slots(slots, cap, n)
    ensures Slots(slots[n % cap := slots[n % cap] + [n]], cap, n + 1)
  {
    var slots' := slots[n % cap := slots[n % cap] + [n]];
    forall i | 0 <= i < cap
      ensures SlotWrites(slots'[i], i, cap, n + 1)
    {
      assert SlotWrites(slots[i], i, cap, n);
    }
    forall m | 0 <= m < n + 1
      ensures m in slots'[m % cap]
    {
      if m < n { assert m in slots[m % cap]; }
    }
  }

  lemma WriteKeepsReleases(released: seq<seq<nat>>, slots: seq<seq<nat>>, slot: nat, n: nat)
    requires Releases(released, slots) && slot < |slots| && |released| <= n + 1
    ensures Releases(released, slots[slot := slots[slot] + [n]])
  {
    forall i | 0 <= i < |released|
      ensures ReleasesAt(released[i], slots[slot := slots[slot] + [n]], i)
    {
      assert ReleasesAt(released[i], slots, i);
    }
  }

  lemma StoreWriteInv<T>(s: State<T>, t: State<T>)
    requires Inv(s) && Step(s, StoreWrite, t)
    ensures Inv(t)
  {
    WrappedDistance(s.Pushes(), s.Pushes());
    forall i | 0 <= i < |t.released|
      ensures ReleasesAt(t.released[i], t.slots, i)
    {
      if i < |s.released| {
        assert ReleasesAt(s.released[i], s.slots, i);
      } else {
        assert forall k :: 0 <= k < |s.slots| ==> SlotWrites(s.slots[k], k, s.Capacity(), |s.items|);
      }
    }
  }

  lemma StoreReadInv<T>(s: State<T>, t: State<T>)
    requires Inv(s) && Step(s, StoreRead, t)
    ensures Inv(t)
  {
    WrappedDistance(s.Pops(), s.Pops());
    assert s.items[..s.Pops() + 1] == s.items[..s.Pops()] + [s.items[s.Pops()]];
  }

  lemma LoadInv<T>(s: State<T>, a: Action<T>, t: State<T>)
    requires Inv(s) && Step(s, a, t)
    requires a.LoadOwnWrite? || a.LoadRead? || a.LoadOwnRead? || a.LoadWrite?
    ensures Inv(t)
  {
    hide Slots, Releases, Pow2, And;
  }

  /** Every step keeps the invariant. */
  lemma StepInv<T>(s: State<T>, a: Action<T>, t: State<T>)
    requires Inv(s) && Step(s, a, t)
    ensures Inv(t)
  {
    hide Slots, Releases, Counts, Pow2, And;
    match a
    case LoadOwnWrite => LoadInv(s, a, t);
    case LoadRead(i) => LoadInv(s, a, t);
    case LoadOwnRead => LoadInv(s, a, t);
    case LoadWrite(i) => LoadInv(s, a, t);
    case WriteSlot => WriteSlotInv(s, t);
    case StoreWrite => StoreWriteInv(s, t);
    case StoreRead => StoreReadInv(s, t);
    case ReadSlot(j) => HeadIsOnlyCandidate(s, And(s.c.r, s.Capacity() - 1), j);
    case _ =>
  }

  // ----------------------------------------------------------- theorems

  /** The two threads never access one slot at the same time: a push about to
      write and a pop about to read are at different slots. */
  lemma NoSlotRace<T>(s: State<T>)
    requires Inv(s) && s.p.PGotRead? && s.c.CGotWrite?
    requires WrappingSub(s.p.w, s.p.r) < s.Capacity() && s.c.r != s.c.w
    ensures And(s.p.w, s.Capacity() - 1) != And(s.c.r, s.Capacity() - 1)
  {
    RoomToWrite(s);
    HeadIsOnlyCandidate(s, And(s.c.r, s.Capacity() - 1), 0);
    SameResidue(s.Pops(), s.Pushes(), s.Capacity());
  }

  /** A bounded FIFO queue. */
  ghost predicate QueueStep<T>(q: seq<T>, a: Action<T>, item: T, q': seq<T>, cap: nat)
  {
    match a
    case StoreWrite => |q| < cap && q' == q + [item]
    case StoreRead => q != [] && item == q[0] && q' == q[1..]
    case _ => q' == q
  }

  ghost function Carried<T>(s: State<T>, a: Action<T>, default: T): T
  {
    if a.StoreWrite? && s.p.PWritten? then s.p.item
    else if a.StoreRead? && s.c.CTaken? then s.c.item
    else default
  }

  /** Refinement: the store of the write index enqueues the pushed item, the
      store of the read index dequeues the item that pop returns, and no other
      step is visible. */
  lemma Refines<T>(s: State<T>, a: Action<T>, t: State<T>, default: T)
    requires Inv(s) && Step(s, a, t)
    ensures Inv(t)
    ensures QueueStep(s.Queue(), a, Carried(s, a, default), t.Queue(), s.Capacity())
  {
    hide Slots, Releases, Counts;
    StepInv(s, a, t);
    var r, w := s.Pops(), s.Pushes();
    if a.StoreWrite? {
      assert s.items[r..w + 1] == s.items[r..w] + [s.p.item];
    } else if a.WriteSlot? {
      assert t.items[r..w] == s.items[r..w];
    }
  }

  /** `push` fails only when the queue is full counting the pops it has seen,
      and with an up-to-date load exactly when it is full. `pop` fails only
      when it has taken everything it has seen published. */
  lemma Refusals<T>(s: State<T>)
    requires Inv(s)
    ensures s.p.PGotRead? ==>
      (WrappingSub(s.p.w, s.p.r) >= s.Capacity() <==> s.Pushes() - s.seenRead == s.Capacity())
    ensures s.p.PGotRead? && s.seenRead == s.Pops() ==>
      (WrappingSub(s.p.w, s.p.r) >= s.Capacity() <==> |s.Queue()| == s.Capacity())
    ensures s.c.CGotWrite? ==> (s.c.r == s.c.w <==> s.Pops() == s.seenWrite)
    ensures s.c.CGotWrite? && s.seenWrite == s.Pushes() ==> (s.c.r == s.c.w <==> s.Queue() == [])
  {
    if s.p.PGotRead? { RoomToWrite(s); }
    if s.c.CGotWrite? {
      SmallCapacity(s.bits);
      WrappedDistance(s.seenWrite, s.Pops());
    }
  }

  /** A run: consecutive states linked by steps from an initial state. */
  ghost predicate Run<T>(states: seq<State<T>>, actions: seq<Action<T>>)
  {
    && |states| == |actions| + 1
    && Init(states[0])
    && forall i :: 0 <= i < |actions| ==> Step(states[i], actions[i], states[i + 1])
  }

  /** In every run, under every interleaving and every choice of stale loads,
      the popped items are exactly the first published items in order, and
      the rest, at most a capacity of them, is the queue. */
  lemma {:induction false} FifoOverRuns<T>(states: seq<State<T>>, actions: seq<Action<T>>)
    requires Run(states, actions)
    ensures var s := states[|actions|];
      && Inv(s)
      && s.popped + s.Queue() == s.items[..s.Pushes()]
      && |s.Queue()| <= s.Capacity()
    decreases |actions|
  {
    hide Step, Slots, Releases, Counts;
    if actions == [] {
      InitInv(states[0]);
    } else {
      var n := |actions| - 1;
      FifoOverRuns(states[..n + 1], actions[..n]);
      StepInv(states[n], actions[n], states[n + 1]);
    }
    var s := states[|actions|];
    assert s.items[..s.Pops()] + s.items[s.Pops()..s.Pushes()] == s.items[..s.Pushes()];
  }
}
