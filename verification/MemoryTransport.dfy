/** The in-process transport (`crates/nexum-network/src/transport.rs`,
    `crates/nexum-network/src/spsc.rs`): the ring's storage and wrapped indices
    as one thread at a time sees them, and the capacity shared by the two
    outbound rings of a memory connection. */
module MemoryTransport {
  import opened Bits
  import SpscRing

  const M: nat := SpscRing.M

  class Ring<T(0)> {
    const cap: nat
    const mask: nat
    const buf: array<T>
    var writeIdx: nat
    var readIdx: nat
    ghost const bits: nat
    ghost var pushes: nat
    ghost var pops: nat

    ghost predicate Valid()
      reads this
    {
      && 1 <= bits < 64 && cap == Pow2(bits) == buf.Length && mask == cap - 1
      && writeIdx == pushes % M && readIdx == pops % M
      && pops <= pushes <= pops + cap
    }

    ghost function Contents(): (s: seq<T>)
      reads this, buf
      requires Valid()
    {
      seq(pushes - pops, i requires 0 <= i < pushes - pops reads this, buf requires Valid() =>
        buf[(pops + i) % cap])
    }

    constructor (capacity: nat, ghost k: nat)
      requires 1 <= k < 64 && capacity == Pow2(k)
      ensures Valid() && fresh(buf) && cap == capacity && Contents() == []
    {
      cap, mask, bits := capacity, capacity - 1, k;
      buf := new T[capacity];
      writeIdx, readIdx, pushes, pops := 0, 0, 0, 0;
    }

    method Push(item: T) returns (ok: bool)
      requires Valid()
      modifies this, buf
      ensures Valid()
      ensures ok <==> |old(Contents())| < cap
      ensures Contents() == if ok then old(Contents()) + [item] else old(Contents())
    {
      hide And, Pow2;
      SpscRing.SmallCapacity(bits);
      SpscRing.WrappedDistance(pushes, pops);
      if SpscRing.WrappingSub(writeIdx, readIdx) >= cap {
        return false;
      }
      SpscRing.SlotOf(pushes, bits);
      forall i | pops <= i < pushes
        ensures i % cap != pushes % cap
      {
        SameResidue(i, pushes, cap);
      }
      buf[And(writeIdx, mask)] := item;
      SpscRing.WrappedDistance(pushes, pushes);
      writeIdx := (writeIdx + 1) % M;
      pushes := pushes + 1;
      ok := true;
    }

    method Pop() returns (ok: bool, item: T)
      requires Valid()
      modifies this
      ensures Valid()
      ensures ok <==> old(Contents()) != []
      ensures ok ==> old(Contents()) == [item] + Contents()
      ensures !ok ==> Contents() == old(Contents())
    {
      hide And, Pow2;
      item := *;
      SpscRing.SmallCapacity(bits);
      SpscRing.WrappedDistance(pushes, pops);
      if readIdx == writeIdx {
        return false, item;
      }
      SpscRing.SlotOf(pops, bits);
      item := buf[And(readIdx, mask)];
      assert item == Contents()[0];
      SpscRing.WrappedDistance(pops, pops);
      readIdx := (readIdx + 1) % M;
      pops := pops + 1;
      ok := true;
      assert Contents() == old(Contents())[1..] by { Shifted(); }
    }

    /** Dropping the head shifts every remaining item by one. */
    twostate lemma Shifted()
      requires old(Valid()) && Valid() && old(pops) < old(pushes)
      requires pops == old(pops) + 1 && pushes == old(pushes) && unchanged(buf)
      ensures Contents() == old(Contents())[1..]
    {
      hide Pow2;
      forall i | 0 <= i < pushes - pops
        ensures Contents()[i] == old(Contents())[1..][i]
      {
        assert pops + i == old(pops) + (i + 1);
      }
    }

    method Len() returns (n: nat)
      requires Valid()
      ensures n == |Contents()|
    {
      SpscRing.SmallCapacity(bits);
      SpscRing.WrappedDistance(pushes, pops);
      n := SpscRing.WrappingSub(writeIdx, readIdx);
    }
  }

  // ------------------------------------------- shared outbound capacity

  /** One outbound ring seen through its counters; `seen` is the newest pop
      the server has observed. */
  datatype Side = Side(pushes: nat, pops: nat, seen: nat)

  datatype Kind = Frame | Message

  /** Where the server is inside `try_send_frame` / `try_send_direct`. */
  datatype Sender =
    | Idle
    | Started(kind: Kind)
    | CountedFrames(kind: Kind, frames: nat)
    | Counted(kind: Kind, frames: nat, msgs: nat)

  datatype Link = Link(cap: nat, frames: Side, msgs: Side, sender: Sender)

  datatype LinkAction =
    | Begin(kind: Kind) | CountFrames(i: nat) | CountMsgs(i: nat) | Refuse | Enqueue | RingFull
    | PopFrame | PopMsg

  ghost predicate LinkInit(l: Link)
  {
    l.frames == Side(0, 0, 0) && l.msgs == Side(0, 0, 0) && l.sender == Idle
  }

  /** One step; the client's pops interleave anywhere between the server's two
      length reads and its push, and each length read may miss recent pops. */
  ghost predicate LinkStep(l: Link, a: LinkAction, l': Link)
  {
    match a
    case Begin(k) => l.sender.Idle? && l' == l.(sender := Started(k))
    case CountFrames(i) =>
      l.sender.Started? && l.frames.seen <= i <= l.frames.pops && i <= l.frames.pushes
      && l' == l.(frames := l.frames.(seen := i),
                  sender := CountedFrames(l.sender.kind, l.frames.pushes - i))
    case CountMsgs(i) =>
      l.sender.CountedFrames? && l.msgs.seen <= i <= l.msgs.pops && i <= l.msgs.pushes
      && l' == l.(msgs := l.msgs.(seen := i),
                  sender := Counted(l.sender.kind, l.sender.frames, l.msgs.pushes - i))
    case Refuse =>
      l.sender.Counted? && l.sender.frames + l.sender.msgs >= l.cap && l' == l.(sender := Idle)
    case Enqueue =>
      l.sender.Counted? && l.sender.frames + l.sender.msgs < l.cap
      && l' == (match l.sender.kind
                case Frame => l.(frames := l.frames.(pushes := l.frames.pushes + 1), sender := Idle)
                case Message => l.(msgs := l.msgs.(pushes := l.msgs.pushes + 1), sender := Idle))
    case RingFull => l.sender.Counted? && l' == l.(sender := Idle)
    case PopFrame =>
      l.frames.pops < l.frames.pushes && l' == l.(frames := l.frames.(pops := l.frames.pops + 1))
    case PopMsg =>
      l.msgs.pops < l.msgs.pushes && l' == l.(msgs := l.msgs.(pops := l.msgs.pops + 1))
  }

  function Queued(l: Link): int
  {
    (l.frames.pushes - l.frames.pops) + (l.msgs.pushes - l.msgs.pops)
  }

  ghost predicate LinkInv(l: Link)
  {
    && l.frames.seen <= l.frames.pops <= l.frames.pushes
    && l.msgs.seen <= l.msgs.pops <= l.msgs.pushes
    && Queued(l) <= l.cap
    && (l.sender.CountedFrames? ==> l.frames.pushes - l.frames.pops <= l.sender.frames)
    && (l.sender.Counted? ==> l.frames.pushes - l.frames.pops <= l.sender.frames
                              && l.msgs.pushes - l.msgs.pops <= l.sender.msgs)
  }

  ghost predicate LinkRun(links: seq<Link>, actions: seq<LinkAction>)
  {
    && |links| == |actions| + 1
    && LinkInit(links[0])
    && forall i :: 0 <= i < |actions| ==> LinkStep(links[i], actions[i], links[i + 1])
  }

  /** In every run the two outbound rings together hold at most `outbound_cap`
      entries, although the server reads their lengths at different times. */
  lemma {:induction false} OutboundBounded(links: seq<Link>, actions: seq<LinkAction>)
    requires LinkRun(links, actions)
    ensures LinkInv(links[|actions|])
    ensures Queued(links[|actions|]) <= links[|actions|].cap
    decreases |actions|
  {
    if actions != [] {
      var n := |actions| - 1;
      OutboundBounded(links[..n + 1], actions[..n]);
      assert LinkStep(links[n], actions[n], links[n + 1]);
    }
  }
}
