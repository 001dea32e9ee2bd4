/** Scheduled events (`crates/nexum-execution/src/schedule.rs`), and what
    becomes of each of them over a run of the partition that owns them
    (`world.rs`). */
module Schedule {
  import opened Values
  import opened Transaction
  import opened Sorting
  import Program

  type Args = Program.Args

  datatype Scheduled = Scheduled(id: nat, atTick: nat, reducer: string, args: Args)

  datatype Attempt<T> = Ok(value: T) | Err(error: Error)

  function Due(e: Scheduled): Rank { Rank(e.atTick, e.id, 0) }

  /** Sorted by `(at_tick, id)`, with unique ids below the next one. */
  ghost predicate Kept(events: seq<Scheduled>, nextId: nat)
  {
    && Ordered(events, Due)
    && (forall i :: 0 <= i < |events| ==> events[i].id < nextId)
    && (forall i, j :: 0 <= i < j < |events| ==> events[i].id != events[j].id)
  }

  /** The events that come due at `tick`, and those that do not. */
  function Taken(events: seq<Scheduled>, tick: nat): seq<Scheduled>
  {
    if events == [] then []
    else (if events[0].atTick <= tick then [events[0]] else []) + Taken(events[1..], tick)
  }

  function Later(events: seq<Scheduled>, tick: nat): seq<Scheduled>
  {
    if events == [] then []
    else (if events[0].atTick > tick then [events[0]] else []) + Later(events[1..], tick)
  }

  lemma {:induction false} DueExactly(events: seq<Scheduled>, tick: nat)
    ensures forall e :: e in Taken(events, tick) <==> e in events && e.atTick <= tick
    ensures forall e :: e in Later(events, tick) <==> e in events && e.atTick > tick
  {
    if events != [] { DueExactly(events[1..], tick); }
  }

  /** In a sorted list the due events are a prefix. */
  lemma {:induction false} DuePrefix(events: seq<Scheduled>, tick: nat, split: nat)
    requires split <= |events|
    requires forall i :: 0 <= i < |events| ==> (events[i].atTick <= tick <==> i < split)
    ensures Taken(events, tick) == events[..split] && Later(events, tick) == events[split..]
  {
    if events == [] {
    } else if split == 0 {
      DuePrefix(events[1..], tick, 0);
    } else {
      DuePrefix(events[1..], tick, split - 1);
      assert events[..split] == [events[0]] + events[1..][..split - 1];
      assert events[split..] == events[1..][split - 1..];
    }
  }

  // ------------------------------------------------------------ history

  /** What has become of an event: still pending, cancelled, or taken by the
      n-th tick that took events. */
  datatype Fate = Waiting | Cancelled | Ran(n: nat)

  /** An accepted event, and how many ticks had taken events before it came. */
  datatype Life = Life(event: Scheduled, since: nat, fate: Fate)

  /** Every accepted event waits in the list, was cancelled, or was taken. */
  ghost predicate Accounted(lives: seq<Life>, events: seq<Scheduled>)
  {
    && (forall i :: 0 <= i < |lives| ==> lives[i].event.id == i)
    && (forall i :: 0 <= i < |lives| ==> (lives[i].fate.Waiting? <==> lives[i].event in events))
    && (forall e :: e in events ==> e.id < |lives| && lives[e.id].event == e)
  }

  /** A tick hands out exactly the events it takes. */
  ghost predicate HandedOut(lives: seq<Life>, batches: seq<seq<Scheduled>>)
  {
    forall n, e :: 0 <= n < |batches| ==>
      (e in batches[n] <==> e.id < |lives| && lives[e.id].event == e && lives[e.id].fate == Ran(n))
  }

  /** Ticks `from..to` were too early for the event. */
  ghost predicate TooEarly(ran: seq<nat>, from: nat, to: nat, at: nat)
    requires to <= |ran|
  {
    forall n :: from <= n < to ==> ran[n] < at
  }

  /** An event is taken by the first tick at or after its target that runs
      once it is scheduled; it waits while there is none. */
  ghost predicate FirstTick(life: Life, ran: seq<nat>)
  {
    && life.since <= |ran|
    && (life.fate.Waiting? ==> TooEarly(ran, life.since, |ran|, life.event.atTick))
    && (life.fate.Ran? ==>
          && life.since <= life.fate.n < |ran|
          && ran[life.fate.n] >= life.event.atTick
          && TooEarly(ran, life.since, life.fate.n, life.event.atTick))
  }

  ghost predicate AllFirst(lives: seq<Life>, ran: seq<nat>)
  {
    forall i :: 0 <= i < |lives| ==> FirstTick(lives[i], ran)
  }

  class Schedule {
    var events: seq<Scheduled>
    var nextId: nat
    const max: nat

    /** The ticks that took events, the events each took, and what became of
        every accepted event. */
    ghost var ran: seq<nat>
    ghost var batches: seq<seq<Scheduled>>
    ghost var lives: seq<Life>

    ghost predicate Valid()
      reads this
    {
      && Kept(events, nextId) && |events| <= max
      && |lives| == nextId && |batches| == |ran|
      && Accounted(lives, events) && HandedOut(lives, batches) && AllFirst(lives, ran)
    }

    constructor (max: nat)
      ensures Valid() && events == [] && nextId == 0 && this.max == max && ran == [] && lives == []
    {
      events, nextId, this.max := [], 0, max;
      ran, batches, lives := [], [], [];
    }

    method Add(atTick: nat, reducer: string, args: Args) returns (r: Attempt<nat>)
      requires Valid()
      modifies this
      ensures Valid() && ran == old(ran) && batches == old(batches)
      ensures r.Err? ==> events == old(events) && nextId == old(nextId) && lives == old(lives)
      ensures r == if reducer == "" then Err(InvalidArgument)
                   else if |old(events)| >= max then Err(Capacity) else Ok(old(nextId))
      ensures r.Ok? ==> nextId == old(nextId) + 1 && |events| == |old(events)| + 1
      ensures r.Ok? ==> forall e :: e in events <==> e in old(events) || e == Scheduled(r.value, atTick, reducer, args)
      ensures r.Ok? ==> lives == old(lives) + [Life(Scheduled(r.value, atTick, reducer, args), |ran|, Waiting)]
    {
      hide StableSort, Below, FirstTick, Ordered;
      if reducer == "" {
        return Err(InvalidArgument);
      }
      if |events| >= max {
        return Err(Capacity);
      }
      var e := Scheduled(nextId, atTick, reducer, args);
      nextId := nextId + 1;
      SortKept(events, nextId - 1, e);
      events := StableSort(events + [e], Due);
      NewLife(e, ran);
      lives := lives + [Life(e, |ran|, Waiting)];
      r := Ok(e.id);
    }

    method Cancel(id: nat) returns (error: Option<Error>)
      requires Valid()
      modifies this`events, this`lives
      ensures Valid()
      ensures error == if exists i :: 0 <= i < |old(events)| && old(events)[i].id == id then None else Some(NotFound)
      ensures error.Some? ==> events == old(events) && lives == old(lives)
      ensures error.None? ==> forall e :: e in events <==> e in old(events) && e.id != id
      ensures error.None? ==> id < |old(lives)| && lives == old(lives)[id := old(lives)[id].(fate := Cancelled)]
    {
      hide Below, FirstTick, Ordered;
      for k := 0 to |events|
        invariant forall j :: 0 <= j < k ==> events[j].id != id
        invariant events == old(events) && lives == old(lives)
      {
        if events[k].id == id {
          assert events[k] in events;
          Removed(events, nextId, k);
          CancelledLife(lives[id], ran);
          events := events[..k] + events[k + 1..];
          lives := lives[id := lives[id].(fate := Cancelled)];
          return None;
        }
      }
      error := Some(NotFound);
    }

    /** The partition point of a sorted list. */
    method Split(tick: nat) returns (split: nat)
      requires Valid()
      ensures split <= |events|
      ensures forall i :: 0 <= i < |events| ==> (events[i].atTick <= tick <==> i < split)
    {
      hide HandedOut, Accounted, AllFirst;
      var lo, hi := 0, |events|;
      while lo < hi
        invariant 0 <= lo <= hi <= |events|
        invariant lo > 0 ==> events[lo - 1].atTick <= tick
        invariant hi < |events| ==> events[hi].atTick > tick
      {
        var mid := (lo + hi) / 2;
        if events[mid].atTick <= tick {
          lo := mid + 1;
        } else {
          hi := mid;
        }
      }
      assert forall i :: 0 <= i < lo ==> !Below(Due(events[lo - 1]), Due(events[i])) || i == lo - 1;
      assert forall i :: lo <= i < |events| ==> !Below(Due(events[i]), Due(events[lo])) || i == lo;
      split := lo;
    }

    method TakeDue(tick: nat) returns (due: seq<Scheduled>)
      requires Valid()
      modifies this`events, this`ran, this`batches, this`lives
      ensures Valid() && ran == old(ran) + [tick] && batches == old(batches) + [due]
      ensures due == Taken(old(events), tick) && events == Later(old(events), tick)
      ensures Ordered(due, Due)
      ensures lives == AfterTick(old(lives), |old(ran)|, tick)
    {
      hide Taken, Later, Below, HandedOut, Accounted, AllFirst, AfterTick;
      var split := Split(tick);
      DuePrefix(events, tick, split);
      due := events[..split];
      TickAccounts(lives, events, batches, ran, tick);
      events := events[split..];
      lives := AfterTick(lives, |ran|, tick);
      ran := ran + [tick];
      batches := batches + [due];
    }
  }

  /** A tick takes every waiting event it is late enough for. */
  ghost function AfterTick(lives: seq<Life>, n: nat, tick: nat): (after: seq<Life>)
    ensures |after| == |lives|
  {
    seq(|lives|, i requires 0 <= i < |lives| =>
      if lives[i].fate.Waiting? && lives[i].event.atTick <= tick then lives[i].(fate := Ran(n)) else lives[i])
  }

  lemma NewLife(e: Scheduled, ran: seq<nat>)
    ensures FirstTick(Life(e, |ran|, Waiting), ran)
  {
  }

  lemma CancelledLife(life: Life, ran: seq<nat>)
    requires FirstTick(life, ran)
    ensures FirstTick(life.(fate := Cancelled), ran)
  {
  }

  lemma TickAccounts(lives: seq<Life>, events: seq<Scheduled>, batches: seq<seq<Scheduled>>, ran: seq<nat>, tick: nat)
    requires |batches| == |ran|
    requires Accounted(lives, events) && HandedOut(lives, batches) && AllFirst(lives, ran)
    ensures var after := AfterTick(lives, |ran|, tick);
      && Accounted(after, Later(events, tick))
      && HandedOut(after, batches + [Taken(events, tick)])
      && AllFirst(after, ran + [tick])
  {
    hide Taken, Later;
    DueExactly(events, tick);
    TickFirst(lives, ran, tick);
    TickHandsOut(lives, events, batches, ran, tick);
  }

  lemma TickFirst(lives: seq<Life>, ran: seq<nat>, tick: nat)
    requires AllFirst(lives, ran)
    ensures AllFirst(AfterTick(lives, |ran|, tick), ran + [tick])
  {
    var after := AfterTick(lives, |ran|, tick);
    forall i | 0 <= i < |after|
      ensures FirstTick(after[i], ran + [tick])
    {
      assert FirstTick(lives[i], ran);
    }
  }

  lemma TickHandsOut(lives: seq<Life>, events: seq<Scheduled>, batches: seq<seq<Scheduled>>, ran: seq<nat>, tick: nat)
    requires |batches| == |ran| && Accounted(lives, events) && HandedOut(lives, batches) && AllFirst(lives, ran)
    ensures HandedOut(AfterTick(lives, |ran|, tick), batches + [Taken(events, tick)])
  {
    hide Taken;
    DueExactly(events, tick);
    var after, more := AfterTick(lives, |ran|, tick), batches + [Taken(events, tick)];
    forall n: nat, e: Scheduled | n < |more|
      ensures e in more[n] <==> e.id < |after| && after[e.id].event == e && after[e.id].fate == Ran(n)
    {
      assert e.id < |lives| ==> FirstTick(lives[e.id], ran);
      if n < |batches| {
        assert e in batches[n] <==> e.id < |lives| && lives[e.id].event == e && lives[e.id].fate == Ran(n);
      }
    }
  }

  lemma SortKept(events: seq<Scheduled>, nextId: nat, e: Scheduled)
    requires Kept(events, nextId) && e.id == nextId
    ensures Kept(StableSort(events + [e], Due), nextId + 1)
    ensures forall x :: x in StableSort(events + [e], Due) <==> x in events || x == e
  {
    hide StableSort, Below;
    var s := StableSort(events + [e], Due);
    assert forall x :: x in events + [e] <==> x in events || x == e;
    forall i | 0 <= i < |s|
      ensures s[i].id < nextId + 1
    {
      assert s[i] in s;
    }
    DistinctSorts(events + [e], s);
  }

  lemma {:induction false} DistinctSorts(s: seq<Scheduled>, t: seq<Scheduled>)
    requires forall i, j :: 0 <= i < j < |s| ==> s[i].id != s[j].id
    requires Rearranged(s, t, Due) && forall x :: x in t <==> x in s
    ensures forall i, j :: 0 <= i < j < |t| ==> t[i].id != t[j].id
  {
    hide Of, Below;
    forall i, j | 0 <= i < j < |t|
      ensures t[i].id != t[j].id
    {
      if t[i].id == t[j].id {
        SameId(s, t[i], t[j]);
        AtMostOne(s, Due, Due(t[i]));
        TwoOf(t, Due, i, j);
      }
    }
  }

  lemma SameId(s: seq<Scheduled>, x: Scheduled, y: Scheduled)
    requires forall i, j :: 0 <= i < j < |s| ==> s[i].id != s[j].id
    requires x in s && y in s && x.id == y.id
    ensures x == y
  {
  }

  lemma {:induction false} TwoOf<T(!new)>(t: seq<T>, rank: T -> Rank, i: nat, j: nat)
    requires i < j < |t| && rank(t[i]) == rank(t[j])
    ensures |Of(t, rank, rank(t[i]))| >= 2
  {
    if i > 0 {
      TwoOf(t[1..], rank, i - 1, j - 1);
    } else {
      assert t[j] in t[1..];
      assert t[j] in Of(t[1..], rank, rank(t[j]));
    }
  }

  lemma Removed(events: seq<Scheduled>, nextId: nat, k: nat)
    requires k < |events| && Kept(events, nextId)
    ensures var rest := events[..k] + events[k + 1..];
      Kept(rest, nextId) && forall e :: e in rest <==> e in events && e.id != events[k].id
  {
    var rest := events[..k] + events[k + 1..];
    assert events == events[..k] + [events[k]] + events[k + 1..];
    forall x | x in rest
      ensures x.id != events[k].id
    {
      var i :| 0 <= i < |rest| && rest[i] == x;
      assert rest[i] == if i < k then events[i] else events[i + 1];
    }
  }
}
