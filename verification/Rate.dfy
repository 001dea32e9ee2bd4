/** Fixed-window rate limiting (`crates/nexum-network/src/rate.rs`). Instants
    are integers; successive requests carry non-decreasing instants. */
module Rate {
  import opened Values

  /** One fixed-window counter. */
  datatype Window = Window(start: Option<int>, count: nat, limit: nat, length: nat)

  /** `now.duration_since(start)`, which saturates at zero. */
  function Elapsed(now: int, start: int): int { if now < start then 0 else now - start }

  function TryTake(w: Window, now: int): (bool, Window)
  {
    if w.start.None? || Elapsed(now, w.start.value) >= w.length then
      (true, w.(start := Some(now), count := 1))
    else if w.count >= w.limit then (false, w)
    else (true, w.(count := w.count + 1))
  }

  class RateWindow {
    var start: Option<int>
    var count: nat
    const limit: nat
    const length: nat
    ghost var asked: seq<int>
    ghost var accepted: seq<int>

    function Value(): Window
      reads this
    {
      Window(start, count, limit, length)
    }

    constructor (limit: nat, length: nat)
      ensures Recorded() && asked == [] && this.limit == limit && this.length == length
    {
      start, count, this.limit, this.length := None, 0, limit, length;
      asked, accepted := [], [];
    }

    /** The window is where the requests so far have brought it, and exactly
        the accepted ones are recorded. */
    ghost predicate Recorded()
      reads this
    {
      var first := Window(None, 0, limit, length);
      accepted == Accepted(first, asked) && Value() == After(first, asked)
    }

    /** One more request. While requests come in order, no interval one window
        long ever holds twice the limit of accepted ones. */
    method Take(now: int) returns (allowed: bool)
      requires Recorded()
      modifies this
      ensures Recorded() && (allowed, Value()) == TryTake(old(Value()), now)
      ensures asked == old(asked) + [now] && accepted == old(accepted) + if allowed then [now] else []
      ensures limit >= 1 && Ordered(asked) ==> forall lo :: CountIn(accepted, lo, length) <= 2 * limit - 1
    {
      AcceptedNext(Window(None, 0, limit, length), asked, now);
      match start {
        case Some(s) =>
          if Elapsed(now, s) >= length {
            start, count, allowed := Some(now), 1, true;
          } else if count >= limit {
            allowed := false;
          } else {
            count, allowed := count + 1, true;
          }
        case None =>
          start, count, allowed := Some(now), 1, true;
      }
      asked, accepted := asked + [now], accepted + if allowed then [now] else [];
      if limit >= 1 && Ordered(asked) {
        forall lo
          ensures CountIn(accepted, lo, length) <= 2 * limit - 1
        {
          WindowBound(limit, length, asked, lo);
        }
      }
    }
  }

  /** The instants accepted over a sequence of requests. */
  function Accepted(w: Window, times: seq<int>): seq<int>
    decreases |times|
  {
    if times == [] then []
    else
      var (ok, w') := TryTake(w, times[0]);
      (if ok then [times[0]] else []) + Accepted(w', times[1..])
  }

  /** The window once the requests have been made. */
  function After(w: Window, times: seq<int>): Window
    decreases |times|
  {
    if times == [] then w else After(TryTake(w, times[0]).1, times[1..])
  }

  lemma {:induction false} AcceptedNext(w: Window, times: seq<int>, now: int)
    ensures var (ok, w') := TryTake(After(w, times), now);
      && After(w, times + [now]) == w'
      && Accepted(w, times + [now]) == Accepted(w, times) + if ok then [now] else []
    decreases |times|
  {
    if times == [] {
      assert times + [now] == [now] && [now][1..] == [];
    } else {
      AcceptedNext(TryTake(w, times[0]).1, times[1..], now);
      assert (times + [now])[1..] == times[1..] + [now];
    }
  }

  ghost predicate Ordered(times: seq<int>)
  {
    forall i, j :: 0 <= i <= j < |times| ==> times[i] <= times[j]
  }

  /** How many of `times` lie in the half-open interval `[lo, lo + length)`. */
  function CountIn(times: seq<int>, lo: int, length: nat): nat
  {
    if times == [] then 0
    else (if lo <= times[0] < lo + length then 1 else 0) + CountIn(times[1..], lo, length)
  }

  ghost predicate Valid(w: Window)
  {
    1 <= w.limit && w.count <= w.limit && (w.start.Some? ==> 1 <= w.count)
  }

  /** Room left for the interval `[lo, lo + length)` from state `w`: a window
      opened before the interval spent its first slot outside it, and a window
      opened inside lasts beyond its end. */
  function Slack(w: Window, lo: int): int
  {
    if w.start.None? || w.start.value + w.length <= lo then 2 * w.limit - 1
    else if w.start.value < lo then 2 * w.limit - w.count
    else if w.start.value < lo + w.length then w.limit - w.count
    else 0
  }

  lemma {:induction false} FutureFits(w: Window, times: seq<int>, lo: int)
    requires Valid(w) && Ordered(times)
    requires w.start.Some? && times != [] ==> w.start.value <= times[0]
    ensures CountIn(Accepted(w, times), lo, w.length) <= Slack(w, lo)
    decreases |times|
  {
    if times != [] {
      var now, rest := times[0], times[1..];
      var (ok, w') := TryTake(w, now);
      assert forall i :: 0 <= i < |rest| ==> rest[i] == times[i + 1];
      FutureFits(w', rest, lo);
      if ok {
        assert Accepted(w, times) == [now] + Accepted(w', rest);
        assert ([now] + Accepted(w', rest))[1..] == Accepted(w', rest);
      } else {
        assert Accepted(w, times) == Accepted(w', rest);
      }
    }
  }

  /** Over any non-decreasing request times, any half-open interval one window
      long holds fewer than twice the limit of accepted operations. */
  lemma WindowBound(limit: nat, length: nat, times: seq<int>, lo: int)
    requires limit >= 1 && Ordered(times)
    ensures CountIn(Accepted(Window(None, 0, limit, length), times), lo, length) <= 2 * limit - 1
  {
    FutureFits(Window(None, 0, limit, length), times, lo);
  }

  // ----------------------------------------------------------- tightness

  function Repeat(t: int, n: nat): (r: seq<int>)
    ensures |r| == n && forall i :: 0 <= i < n ==> r[i] == t
  {
    if n == 0 then [] else [t] + Repeat(t, n - 1)
  }

  /** One request at time 0, the rest of its window at its last instant, and
      a full second window one instant later. */
  function Burst(limit: nat, length: nat): seq<int>
    requires limit >= 1 && length >= 1
  {
    [0] + (Repeat(length - 1, limit - 1) + Repeat(length, limit))
  }

  lemma {:induction false} AcceptsAll(w: Window, t: int, n: nat, rest: seq<int>)
    requires w.start.Some? && w.start.value <= t < w.start.value + w.length
    requires w.count + n <= w.limit
    ensures Accepted(w, Repeat(t, n) + rest)
            == Repeat(t, n) + Accepted(w.(count := w.count + n), rest)
    decreases n
  {
    if n == 0 {
      assert Repeat(t, 0) + rest == rest;
    } else {
      var w', more := w.(count := w.count + 1), Repeat(t, n - 1);
      assert Repeat(t, n) + rest == [t] + (more + rest);
      assert Accepted(w, [t] + (more + rest)) == [t] + Accepted(w', more + rest) by {
        assert ([t] + (more + rest))[1..] == more + rest;
      }
      AcceptsAll(w', t, n - 1, rest);
      var after := Accepted(w.(count := w.count + n), rest);
      assert [t] + (more + after) == Repeat(t, n) + after;
    }
  }

  lemma {:induction false} CountConcat(a: seq<int>, b: seq<int>, lo: int, length: nat)
    ensures CountIn(a + b, lo, length) == CountIn(a, lo, length) + CountIn(b, lo, length)
    decreases |a|
  {
    if a == [] {
      assert a + b == b;
    } else {
      assert (a + b)[1..] == a[1..] + b;
      CountConcat(a[1..], b, lo, length);
    }
  }

  lemma {:induction false} CountRepeat(t: int, n: nat, lo: int, length: nat)
    requires lo <= t < lo + length
    ensures CountIn(Repeat(t, n), lo, length) == n
    decreases n
  {
    if n > 0 {
      assert Repeat(t, n)[1..] == Repeat(t, n - 1);
      CountRepeat(t, n - 1, lo, length);
    }
  }

  lemma BurstAccepted(limit: nat, length: nat)
    requires limit >= 1 && length >= 2
    ensures Accepted(Window(None, 0, limit, length), Burst(limit, length))
            == [0] + (Repeat(length - 1, limit - 1) + Repeat(length, limit))
  {
    var a, b := Repeat(length - 1, limit - 1), Repeat(length, limit);
    var w := Window(Some(0), 1, limit, length);
    assert ([0] + (a + b))[1..] == a + b;
    AcceptsAll(w, length - 1, limit - 1, b);
    var w' := w.(count := limit);
    assert b == [length] + Repeat(length, limit - 1);
    var tail := Repeat(length, limit - 1);
    assert b[1..] == tail;
    assert tail + [] == tail;
    AcceptsAll(Window(Some(length), 1, limit, length), length, limit - 1, []);
    assert Accepted(w', b) == b;
  }


  /** The bound is attained by every limit and every window of at least two
      instants. */
  lemma BoundAttained(limit: nat, length: nat)
    requires limit >= 1 && length >= 2
    ensures Ordered(Burst(limit, length))
    ensures CountIn(Accepted(Window(None, 0, limit, length), Burst(limit, length)), length - 1, length)
            == 2 * limit - 1
  {
    var a, b := Repeat(length - 1, limit - 1), Repeat(length, limit);
    BurstAccepted(limit, length);
    CountConcat([0], a + b, length - 1, length);
    CountConcat(a, b, length - 1, length);
    CountRepeat(length - 1, limit - 1, length - 1, length);
    CountRepeat(length, limit, length - 1, length);
  }
}
