/** The TCP transport (`crates/nexum-network/src/transport.rs`): frames cut
    into arbitrary partial writes and reads. A socket is the script of what its
    calls return; a call past the end of the script would block. */
module Tcp {
  import opened Bits
  import opened Values
  import opened Codec
  import opened Frames

  /** What a read returns: some bytes, end of file, or an error. */
  datatype Read = Data(bytes: Bytes) | Eof | ReadError

  /** What a write returns: how many bytes it took, or an error. */
  datatype Write = Accept(n: nat) | WriteError

  datatype Received = Frame(frame: Bytes) | Nothing | Closed | Io | Bad(error: ProtocolError)
  datatype Sent = Done | SendClosed | Full | SendIo

  const SCRATCH: nat := 8192

  /** All bytes up to the first read that is not data. */
  function Arrived(script: seq<Read>): Bytes
  {
    if script == [] || !script[0].Data? then [] else script[0].bytes + Arrived(script[1..])
  }

  /** The read that ends the draining, if any. */
  function Stop(script: seq<Read>): Option<Read>
  {
    if script == [] then None else if script[0].Data? then Stop(script[1..]) else Some(script[0])
  }

  function Flat(frames: seq<Bytes>): Bytes
  {
    if frames == [] then [] else frames[0] + Flat(frames[1..])
  }

  /** Queued bytes not yet written. */
  function Unsent(queue: seq<(Bytes, nat)>): Bytes
    requires forall i :: 0 <= i < |queue| ==> queue[i].1 <= |queue[i].0|
  {
    if queue == [] then [] else queue[0].0[queue[0].1..] + Unsent(queue[1..])
  }

  lemma {:induction false} UnsentAppend(queue: seq<(Bytes, nat)>, frame: Bytes)
    requires forall i :: 0 <= i < |queue| ==> queue[i].1 <= |queue[i].0|
    ensures Unsent(queue + [(frame, 0)]) == Unsent(queue) + frame
  {
    if queue != [] {
      assert (queue + [(frame, 0)])[1..] == queue[1..] + [(frame, 0)];
      UnsentAppend(queue[1..], frame);
    }
  }

  /** The queue once `taken` more bytes of its first frame are written. */
  function Advanced(queue: seq<(Bytes, nat)>, taken: nat): (q: seq<(Bytes, nat)>)
    requires queue != [] && forall i :: 0 <= i < |queue| ==> queue[i].1 <= |queue[i].0|
    requires queue[0].1 + taken <= |queue[0].0|
    ensures forall i :: 0 <= i < |q| ==> q[i].1 <= |q[i].0|
  {
    var (frame, offset) := queue[0];
    if offset + taken >= |frame| then queue[1..] else queue[0 := (frame, offset + taken)]
  }

  lemma SplitAt(frame: Bytes, offset: nat, taken: nat, tail: Bytes)
    requires offset + taken <= |frame|
    ensures frame[offset..] + tail == frame[offset..offset + taken] + (frame[offset + taken..] + tail)
  {
    assert frame[offset..] == frame[offset..offset + taken] + frame[offset + taken..];
  }

  lemma UnsentStep(queue: seq<(Bytes, nat)>, taken: nat)
    requires queue != [] && forall i :: 0 <= i < |queue| ==> queue[i].1 <= |queue[i].0|
    requires queue[0].1 + taken <= |queue[0].0|
    ensures var (frame, offset) := queue[0];
      Unsent(queue) == frame[offset..offset + taken] + Unsent(Advanced(queue, taken))
  {
    var (frame, offset) := queue[0];
    var tail := Unsent(queue[1..]);
    if offset + taken < |frame| {
      var next := Advanced(queue, taken);
      assert next[1..] == queue[1..];
      assert Unsent(next) == frame[offset + taken..] + tail;
      hide Unsent, Advanced;
      SplitAt(frame, offset, taken, tail);
    } else {
      assert frame[offset..offset + taken] == frame[offset..];
    }
  }

  // ------------------------------------------------------------ flushing

  ghost predicate Offsets(queue: seq<(Bytes, nat)>)
  {
    forall i :: 0 <= i < |queue| ==> queue[i].1 <= |queue[i].0|
  }

  /** How many bytes a write that would take `n` takes of the first frame. */
  function Taken(queue: seq<(Bytes, nat)>, n: nat): nat
    requires queue != [] && queue[0].1 <= |queue[0].0|
  {
    var left := |queue[0].0| - queue[0].1;
    if n <= left then n else left
  }

  /** The bytes that write puts on the wire. */
  function Piece(queue: seq<(Bytes, nat)>, taken: nat): Bytes
    requires queue != [] && queue[0].1 + taken <= |queue[0].0|
  {
    queue[0].0[queue[0].1..queue[0].1 + taken]
  }

  /** What the writes of a script leave: the queue, the bytes written, how many
      writes were made, and whether the last one failed. */
  datatype Flushed = Flushed(queue: seq<(Bytes, nat)>, written: Bytes, writes: nat, failed: bool)

  function Drain(queue: seq<(Bytes, nat)>, script: seq<Write>): (f: Flushed)
    requires forall i :: 0 <= i < |queue| ==> queue[i].1 <= |queue[i].0|
    ensures forall i :: 0 <= i < |f.queue| ==> f.queue[i].1 <= |f.queue[i].0|
    ensures |f.queue| <= |queue|
    decreases |script|
  {
    if queue == [] || script == [] then Flushed(queue, [], 0, false)
    else if script[0].WriteError? then Flushed(queue, [], 1, true)
    else
      var taken := Taken(queue, script[0].n);
      var rest := Drain(Advanced(queue, taken), script[1..]);
      Flushed(rest.queue, Piece(queue, taken) + rest.written, rest.writes + 1, rest.failed)
  }

  lemma FlushStep(queue: seq<(Bytes, nat)>, script: seq<Write>)
    requires Offsets(queue) && queue != [] && script != [] && script[0].Accept?
    ensures var taken := Taken(queue, script[0].n);
      var rest := Drain(Advanced(queue, taken), script[1..]);
      Drain(queue, script) == Flushed(rest.queue, Piece(queue, taken) + rest.written, rest.writes + 1, rest.failed)
  {
  }

  lemma FlushStop(queue: seq<(Bytes, nat)>, script: seq<Write>)
    requires Offsets(queue) && (queue == [] || script == [] || script[0].WriteError?)
    ensures Drain(queue, script)
            == if queue == [] || script == [] then Flushed(queue, [], 0, false) else Flushed(queue, [], 1, true)
  {
  }

  /** No byte is lost, repeated or moved. */
  lemma {:induction false} FlushKeeps(queue: seq<(Bytes, nat)>, script: seq<Write>)
    requires Offsets(queue)
    ensures Drain(queue, script).written + Unsent(Drain(queue, script).queue) == Unsent(queue)
    decreases |script|
  {
    hide Unsent, Drain, Piece, Advanced, Taken;
    if queue != [] && script != [] && script[0].Accept? {
      FlushStep(queue, script);
      var taken := Taken(queue, script[0].n);
      TakenFits(queue, script[0].n);
      UnsentPiece(queue, taken);
      FlushKeeps(Advanced(queue, taken), script[1..]);
      var rest := Drain(Advanced(queue, taken), script[1..]);
      assert Piece(queue, taken) + rest.written + Unsent(rest.queue)
             == Piece(queue, taken) + (rest.written + Unsent(rest.queue));
    } else {
      FlushStop(queue, script);
      assert [] + Unsent(queue) == Unsent(queue);
    }
  }

  lemma TakenFits(queue: seq<(Bytes, nat)>, n: nat)
    requires Offsets(queue) && queue != []
    ensures queue[0].1 + Taken(queue, n) <= |queue[0].0|
  {
  }

  lemma UnsentPiece(queue: seq<(Bytes, nat)>, taken: nat)
    requires Offsets(queue) && queue != [] && queue[0].1 + taken <= |queue[0].0|
    ensures Unsent(queue) == Piece(queue, taken) + Unsent(Advanced(queue, taken)) && |Piece(queue, taken)| == taken
  {
    hide Unsent;
    UnsentStep(queue, taken);
  }

  /** Flushing stops only at an empty queue, the end of the script, or a failed
      write, and every write before the last succeeded. */
  lemma {:induction false} FlushStops(queue: seq<(Bytes, nat)>, script: seq<Write>)
    requires Offsets(queue)
    ensures var f := Drain(queue, script);
      && f.writes <= |script|
      && (f.queue == [] || f.failed || f.writes == |script|)
      && (f.failed <==> f.writes > 0 && script[f.writes - 1].WriteError?)
      && (forall i :: 0 <= i < f.writes - 1 ==> script[i].Accept?)
      && (f.failed ==> f.queue != [])
    decreases |script|
  {
    hide Unsent, Drain, Piece, Advanced, Taken;
    if queue != [] && script != [] && script[0].Accept? {
      FlushStep(queue, script);
      TakenFits(queue, script[0].n);
      FlushStops(Advanced(queue, Taken(queue, script[0].n)), script[1..]);
    } else {
      FlushStop(queue, script);
    }
  }

  /** A failed write leaves everything after it unwritten: a flush is cut there,
      and one that did not fail goes on with what comes next. */
  lemma {:induction false} FlushContinues(queue: seq<(Bytes, nat)>, script: seq<Write>, more: seq<Write>)
    requires Offsets(queue)
    ensures var f, g := Drain(queue, script), Drain(queue, script + more);
      if f.failed then g == f
      else
        var h := Drain(f.queue, more);
        g == Flushed(h.queue, f.written + h.written, f.writes + h.writes, h.failed)
    decreases |script|
  {
    hide Drain, Piece, Advanced, Taken;
    if queue == [] || script == [] {
      FlushStop(queue, script);
      assert script == [] ==> script + more == more;
      var h := Drain(queue, more);
      assert [] + h.written == h.written;
      if queue == [] {
        FlushStop(queue, more);
        FlushStop(queue, script + more);
      }
    } else if script[0].Accept? {
      FlushStep(queue, script);
      FlushStep(queue, script + more);
      assert (script + more)[1..] == script[1..] + more;
      var taken := Taken(queue, script[0].n);
      TakenFits(queue, script[0].n);
      FlushContinues(Advanced(queue, taken), script[1..], more);
      var rest := Drain(Advanced(queue, taken), script[1..]);
      var h := Drain(rest.queue, more);
      assert Piece(queue, taken) + rest.written + h.written == Piece(queue, taken) + (rest.written + h.written);
    } else {
      FlushStop(queue, script);
      FlushStop(queue, script + more);
    }
  }

  /** After `i` writes: what is left of the script does the rest. */
  ghost predicate Underway(start: seq<(Bytes, nat)>, script: seq<Write>, i: nat, queue: seq<(Bytes, nat)>, written: Bytes)
  {
    && Offsets(start) && Offsets(queue) && i <= |script|
    && var f, rest := Drain(start, script), Drain(queue, script[i..]);
    f.queue == rest.queue && f.written == written + rest.written && f.failed == rest.failed
  }

  lemma UnderwayBegins(start: seq<(Bytes, nat)>, script: seq<Write>)
    requires Offsets(start)
    ensures Underway(start, script, 0, start, [])
  {
    hide Drain;
    assert script[0..] == script;
    assert [] + Drain(start, script).written == Drain(start, script).written;
  }

  lemma UnderwayWrites(start: seq<(Bytes, nat)>, script: seq<Write>, i: nat, queue: seq<(Bytes, nat)>, written: Bytes)
    requires Underway(start, script, i, queue, written) && i < |script| && queue != [] && script[i].Accept?
    ensures var taken := Taken(queue, script[i].n);
      Underway(start, script, i + 1, Advanced(queue, taken), written + Piece(queue, taken))
  {
    hide Drain, Piece, Advanced, Taken;
    FlushStep(queue, script[i..]);
    assert script[i..][1..] == script[i + 1..];
    var taken := Taken(queue, script[i].n);
    TakenFits(queue, script[i].n);
    var rest := Drain(Advanced(queue, taken), script[i + 1..]);
    assert written + (Piece(queue, taken) + rest.written) == written + Piece(queue, taken) + rest.written;
  }

  lemma UnderwayEnds(start: seq<(Bytes, nat)>, script: seq<Write>, i: nat, queue: seq<(Bytes, nat)>, written: Bytes)
    requires Underway(start, script, i, queue, written)
    requires queue == [] || i == |script| || script[i].WriteError?
    ensures var f := Drain(start, script);
      f.queue == queue && f.written == written && f.failed == (queue != [] && i < |script|)
  {
    hide Drain;
    FlushStop(queue, script[i..]);
    assert written + [] == written;
  }

  /** One write takes the smaller of what it offers and what is left of the
      first frame. */
  lemma OneWrite(queue: seq<(Bytes, nat)>, n: nat)
    requires Offsets(queue) && queue != []
    ensures var left := queue[0].0[queue[0].1..];
      var f := Drain(queue, [Accept(n)]);
      && f.writes == 1 && !f.failed
      && f.written == left[..if n <= |left| then n else |left|]
      && (if n >= |left| then f.queue == queue[1..]
          else f.queue != [] && f.queue[1..] == queue[1..] && f.queue[0].0[f.queue[0].1..] == left[n..])
  {
    var (frame, offset) := queue[0];
    var taken := Taken(queue, n);
    FlushStep(queue, [Accept(n)]);
    FlushStop(Advanced(queue, taken), [Accept(n)][1..]);
    hide Drain;
    assert Piece(queue, taken) + [] == Piece(queue, taken);
    assert frame[offset..offset + taken] == frame[offset..][..taken];
    assert frame[offset + taken..] == frame[offset..][taken..];
  }

  ghost predicate AllAccept(script: seq<Write>, least: nat)
  {
    forall i :: 0 <= i < |script| ==> script[i].Accept? && script[i].n >= least
  }

  /** Enough writes of at least one byte each empty the queue. */
  lemma {:induction false} FlushEmpties(queue: seq<(Bytes, nat)>, script: seq<Write>)
    requires Offsets(queue) && AllAccept(script, 1) && |script| >= |Unsent(queue)| + |queue|
    ensures Drain(queue, script).queue == [] && Drain(queue, script).written == Unsent(queue)
    decreases |script|
  {
    hide Unsent;
    if queue != [] {
      var taken := Taken(queue, script[0].n);
      var next := Advanced(queue, taken);
      UnsentStep(queue, taken);
      assert |Unsent(queue)| == taken + |Unsent(next)|;
      FlushEmpties(next, script[1..]);
    } else {
      assert Unsent(queue) == [] by { EmptyUnsent(); }
    }
  }

  lemma EmptyUnsent()
    ensures Unsent([]) == []
  {
  }

  /** So does one write per frame that is at least as large as the frame. */
  lemma {:induction false} FlushWhole(queue: seq<(Bytes, nat)>, script: seq<Write>)
    requires Offsets(queue) && |script| >= |queue|
    requires forall i :: 0 <= i < |queue| ==> script[i].Accept? && script[i].n >= |queue[i].0|
    ensures Drain(queue, script).queue == [] && !Drain(queue, script).failed && Drain(queue, script).writes == |queue|
    decreases |script|
  {
    if queue != [] {
      assert Advanced(queue, Taken(queue, script[0].n)) == queue[1..];
      FlushWhole(queue[1..], script[1..]);
    }
  }

  lemma {:induction false} FlatAppend(frames: seq<Bytes>, frame: Bytes)
    ensures Flat(frames + [frame]) == Flat(frames) + frame
  {
    if frames == [] {
      assert [] + [frame] == [frame];
    } else {
      assert (frames + [frame])[1..] == frames[1..] + [frame];
      FlatAppend(frames[1..], frame);
    }
  }

  class TcpConnection {
    var readBuf: Bytes
    var outbound: seq<(Bytes, nat)>
    var closed: bool
    const outboundCap: nat
    const maxPayload: U32

    ghost predicate Valid()
      reads this
    {
      |outbound| <= outboundCap && forall i :: 0 <= i < |outbound| ==> outbound[i].1 <= |outbound[i].0|
    }

    constructor (outboundCap: nat, maxPayload: U32)
      ensures Valid() && readBuf == [] && outbound == [] && !closed
      ensures this.outboundCap == outboundCap && this.maxPayload == maxPayload
    {
      readBuf, outbound, closed := [], [], false;
      this.outboundCap, this.maxPayload := outboundCap, maxPayload;
    }

    /** Drains the socket, then takes one frame off the buffer. End of file
        closes the connection and leaves buffered frames unread. */
    method TryRecvFrame(script: seq<Read>) returns (r: Received)
      requires Valid() && forall x :: x in script && x.Data? ==> 0 < |x.bytes| <= SCRATCH
      modifies this`readBuf, this`closed
      ensures Valid()
      ensures old(closed) ==> r == Closed && readBuf == old(readBuf) && closed
      ensures !old(closed) && Stop(script).Some? ==>
        closed && r == (if Stop(script).value.Eof? then Closed else Io) && readBuf == old(readBuf) + Arrived(script)
      ensures !old(closed) && Stop(script).None? ==>
        var buf := old(readBuf) + Arrived(script);
        match Scan(buf, maxPayload)
        case Invalid(e) => r == Bad(e) && closed && readBuf == buf
        case Incomplete => r == Nothing && !closed && readBuf == buf
        case Whole(_, _, total) => r == Frame(buf[..total]) && !closed && readBuf == buf[total..]
    {
      hide Scan;
      if closed {
        return Closed;
      }
      var i := 0;
      assert script[0..] == script;
      while i < |script|
        invariant 0 <= i <= |script| && !closed && Valid()
        invariant readBuf + Arrived(script[i..]) == old(readBuf) + Arrived(script)
        invariant Stop(script[i..]) == Stop(script)
      {
        assert script[i..][1..] == script[i + 1..];
        match script[i] {
          case Eof =>
            closed := true;
            return Closed;
          case Data(bytes) =>
            readBuf := readBuf + bytes;
          case ReadError =>
            closed := true;
            return Io;
        }
        i := i + 1;
      }
      assert script[i..] == [] && readBuf + [] == readBuf;
      match ParseFrame(readBuf, maxPayload) {
        case Ok(Some((frame, consumed))) =>
          r := Frame(frame);
          readBuf := readBuf[consumed..];
        case Ok(None) =>
          r := Nothing;
        case Err(e) =>
          closed := true;
          r := Bad(e);
      }
    }

    method TrySendFrame(frame: Bytes) returns (r: Sent)
      requires Valid()
      modifies this`outbound
      ensures Valid()
      ensures r == if closed then SendClosed else if |old(outbound)| >= outboundCap then Full else Done
      ensures Unsent(outbound) == old(Unsent(outbound)) + if r.Done? then frame else []
    {
      if closed {
        return SendClosed;
      }
      if |outbound| >= outboundCap {
        return Full;
      }
      UnsentAppend(outbound, frame);
      outbound := outbound + [(frame, 0)];
      r := Done;
    }

    /** Writes queued frames until the queue is empty, a write would block, or
        one fails, which closes the connection. A write never takes more than
        it is given. */
    method FlushOutbound(script: seq<Write>) returns (r: Sent, written: Bytes)
      requires Valid()
      modifies this`outbound, this`closed
      ensures Valid()
      ensures written + Unsent(outbound) == old(Unsent(outbound))
      ensures old(closed) ==> r == SendClosed && written == [] && closed && outbound == old(outbound)
      ensures !old(closed) ==>
        var f := Drain(old(outbound), script);
        && outbound == f.queue && written == f.written && closed == f.failed
        && r == (if closed then SendIo else Done)
    {
      hide Unsent, Drain, Underway;
      written := [];
      assert [] + Unsent(outbound) == Unsent(outbound);
      if closed {
        return SendClosed, [];
      }
      FlushKeeps(outbound, script);
      UnderwayBegins(outbound, script);
      var i := 0;
      while outbound != [] && i < |script|
        invariant 0 <= i <= |script| && !closed && Valid()
        invariant Underway(old(outbound), script, i, outbound, written)
        decreases |script| - i
      {
        var (frame, offset) := outbound[0];
        match script[i] {
          case Accept(n) =>
            UnderwayWrites(old(outbound), script, i, outbound, written);
            var taken := if n <= |frame| - offset then n else |frame| - offset;
            written := written + frame[offset..offset + taken];
            outbound := if offset + taken >= |frame| then outbound[1..] else outbound[0 := (frame, offset + taken)];
          case WriteError =>
            UnderwayEnds(old(outbound), script, i, outbound, written);
            closed := true;
            return SendIo, written;
        }
        i := i + 1;
      }
      UnderwayEnds(old(outbound), script, i, outbound, written);
      r := Done;
    }
  }

  // ------------------------------------------------------------- the link

  /** A frame the protocol builds within the limit. */
  ghost predicate IsFrame(f: Bytes, maxPayload: U32)
  {
    exists kind, payload :: |payload| <= maxPayload && f == FrameOf(kind, payload)
  }

  /** What is buffered is cut from the frames to come: it holds the first of
      them whole, or only a part of it. */
  lemma NextFrame(buf: Bytes, ahead: Bytes, frames: seq<Bytes>, maxPayload: U32)
    requires buf + ahead == Flat(frames) && forall f :: f in frames ==> IsFrame(f, maxPayload)
    ensures var s := Scan(buf, maxPayload);
      || (s.Incomplete? && (frames == [] || |buf| < |frames[0]|))
      || (s.Whole? && frames != [] && buf[..s.total] == frames[0] && buf[s.total..] + ahead == Flat(frames[1..]))
  {
    hide Scan, FrameOf;
    if frames == [] {
      assert buf == [];
      EmptyBuffer(maxPayload);
    } else {
      var f := frames[0];
      assert f in frames;
      var kind, payload :| |payload| <= maxPayload && f == FrameOf(kind, payload);
      var rest := Flat(frames[1..]);
      if |buf| < |f| {
        assert buf == (buf + ahead)[..|buf|] == (f + rest)[..|buf|] == f[..|buf|];
        ScanPrefix(kind, payload, |buf|, maxPayload);
      } else {
        assert buf[..|f|] == (buf + ahead)[..|f|] == (f + rest)[..|f|] == f;
        assert buf == f + buf[|f|..];
        ScanFrame(kind, payload, buf[|f|..], maxPayload);
        assert buf[|f|..] + ahead == (buf + ahead)[|f|..] == (f + rest)[|f|..] == rest;
      }
    }
  }

  lemma EmptyBuffer(maxPayload: U32)
    ensures Scan([], maxPayload) == Incomplete
  {
  }

  /** One direction of a connection: a sender, the bytes in flight, and a
      receiver. */
  class Link {
    const sender: TcpConnection
    const receiver: TcpConnection
    var wire: Bytes
    ghost var accepted: seq<Bytes>
    ghost var got: seq<Bytes>

    /** The frames received are the first of those accepted, and every byte of
        the others is buffered, in flight, or queued, in order. */
    ghost predicate Valid()
      reads this, sender, receiver
    {
      && sender != receiver && sender.Valid() && receiver.Valid()
      && (forall f :: f in accepted ==> IsFrame(f, receiver.maxPayload))
      && got <= accepted
      && receiver.readBuf + (wire + Unsent(sender.outbound)) == Flat(accepted[|got|..])
    }

    constructor (outboundCap: nat, maxPayload: U32)
      ensures Valid() && fresh(sender) && fresh(receiver)
      ensures accepted == [] && got == [] && wire == [] && receiver.maxPayload == maxPayload
      ensures !sender.closed && !receiver.closed
    {
      sender := new TcpConnection(outboundCap, maxPayload);
      receiver := new TcpConnection(outboundCap, maxPayload);
      wire, accepted, got := [], [], [];
    }

    method Send(frame: Bytes) returns (r: Sent)
      requires Valid() && IsFrame(frame, receiver.maxPayload)
      modifies this`accepted, sender`outbound
      ensures Valid()
      ensures accepted == old(accepted) + if r.Done? then [frame] else []
    {
      hide IsFrame, Unsent, Flat;
      ghost var queued := Unsent(sender.outbound);
      r := sender.TrySendFrame(frame);
      if r.Done? {
        FlatAppend(accepted[|got|..], frame);
        assert (accepted + [frame])[|got|..] == accepted[|got|..] + [frame];
        assert receiver.readBuf + (wire + (queued + frame)) == receiver.readBuf + (wire + queued) + frame;
        accepted := accepted + [frame];
      } else {
        assert queued + [] == queued;
      }
    }

    /** Any partial writes: what was written is in flight. Writes of at least
        one byte, as many as there are bytes and frames, or one large enough
        write per frame, put everything in flight. */
    method Flush(script: seq<Write>)
      requires Valid()
      modifies this`wire, sender`outbound, sender`closed
      ensures Valid() && old(wire) <= wire
      ensures wire + Unsent(sender.outbound) == old(wire + Unsent(sender.outbound))
      ensures !old(sender.closed) ==>
        var f := Drain(old(sender.outbound), script);
        sender.outbound == f.queue && wire == old(wire) + f.written && sender.closed == f.failed
      ensures !old(sender.closed) && AllAccept(script, 1) && |script| >= old(|Unsent(sender.outbound)| + |sender.outbound|)
        ==> sender.outbound == [] && !sender.closed
      ensures !old(sender.closed) && |script| >= |old(sender.outbound)|
        && (forall i :: 0 <= i < |old(sender.outbound)| ==> script[i].Accept? && script[i].n >= |old(sender.outbound)[i].0|)
        ==> sender.outbound == [] && !sender.closed
    {
      hide IsFrame, Unsent, Flat, Drain;
      ghost var queue := sender.outbound;
      ghost var queued := Unsent(queue);
      FlushStops(queue, script);
      if AllAccept(script, 1) && |script| >= |queued| + |queue| {
        FlushEmpties(queue, script);
      }
      if |script| >= |queue| && forall i :: 0 <= i < |queue| ==> script[i].Accept? && script[i].n >= |queue[i].0| {
        FlushWhole(queue, script);
      }
      var _, written := sender.FlushOutbound(script);
      assert wire + queued == wire + written + Unsent(sender.outbound);
      wire := wire + written;
    }

    /** Any partial reads of what is in flight. The receiver never sees an
        invalid frame, and it sees nothing only when the next frame has not
        fully arrived. */
    method Receive(script: seq<Read>) returns (r: Received)
      requires Valid() && !receiver.closed
      requires forall x :: x in script ==> x.Data? && 0 < |x.bytes| <= SCRATCH
      requires Arrived(script) <= wire
      modifies this`wire, this`got, receiver`readBuf, receiver`closed
      ensures Valid() && !receiver.closed && (r.Frame? || r.Nothing?)
      ensures got == old(got) + if r.Frame? then [r.frame] else []
      ensures wire == old(wire)[|Arrived(script)|..]
      ensures r.Nothing? ==> got == accepted || |receiver.readBuf| < |accepted[|got|]|
      ensures r.Nothing? && wire == [] && sender.outbound == [] ==> got == accepted
    {
      hide IsFrame, Scan;
      ghost var rest := accepted[|got|..];
      var data := Arrived(script);
      NoStop(script);
      ghost var buf, ahead := receiver.readBuf + data, wire[|data|..] + Unsent(sender.outbound);
      assert wire == data + wire[|data|..];
      assert buf + ahead == receiver.readBuf + (wire + Unsent(sender.outbound));
      NextFrame(buf, ahead, rest, receiver.maxPayload);
      r := receiver.TryRecvFrame(script);
      wire := wire[|data|..];
      if r.Frame? {
        assert rest[1..] == accepted[|got| + 1..];
        got := got + [r.frame];
      } else if wire == [] && sender.outbound == [] {
        assert buf == Flat(rest);
        FlatLonger(rest);
      }
    }
  }

  lemma {:induction false} NoStop(script: seq<Read>)
    requires forall x :: x in script ==> x.Data?
    ensures Stop(script) == None
  {
    if script != [] { NoStop(script[1..]); }
  }

  lemma FlatLonger(frames: seq<Bytes>)
    ensures frames != [] ==> |Flat(frames)| >= |frames[0]|
  {
  }
}
