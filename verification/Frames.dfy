/** Frames of the wire protocol (`crates/nexum-network/src/protocol.rs`):
    magic, version, kind, length, payload and checksum. */
module Frames {
  import opened Bits
  import opened Values
  import opened Codec
  import opened Payloads
  import opened Crc

  const MAGIC: Bytes := [0x4E, 0x45, 0x58, 0x4E]
  const VERSION: U16 := 2
  const HEADER_LEN: nat := 11
  const FRAME_OVERHEAD: nat := 15

  datatype ProtocolError =
    | Truncated | BadMagic | UnsupportedVersion(version: U16) | Oversized(len: nat, max: nat)
    | BadChecksum | Malformed | UnknownKind(kind: Byte)

  /** The checksummed part of a frame. */
  function Covered(kind: Byte, payload: Bytes): Bytes
  {
    PutU16(VERSION) + [kind] + payload
  }

  function Trailer(kind: Byte, payload: Bytes): (t: Bytes)
    ensures |t| == 4
  {
    PutUint(Checksum(Covered(kind, payload)), W4)
  }

  function FrameOf(kind: Byte, payload: Bytes): (f: Bytes)
    requires |payload| < 0x1_0000_0000
    ensures |f| == FRAME_OVERHEAD + |payload|
  {
    MAGIC + PutU16(VERSION) + [kind] + PutU32(|payload|) + payload + Trailer(kind, payload)
  }

  /** `build_frame`; `None` is the capacity error of an over-limit payload. */
  method BuildFrame(kind: Byte, payload: Bytes, maxPayload: U32) returns (r: Option<Bytes>)
    ensures |payload| > maxPayload ==> r == None
    ensures |payload| <= maxPayload ==> r == Some(FrameOf(kind, payload))
  {
    hide BitSerial, Xor, PutUint;
    if |payload| > maxPayload {
      return None;
    }
    var frame := MAGIC + PutU16(VERSION) + [kind] + PutU32(|payload|) + payload;
    var crc := new Crc32();
    crc.Chain(PutU16(VERSION));
    crc.Chain([kind]);
    crc.Chain(payload);
    assert crc.fed == Covered(kind, payload);
    var sum := crc.Finalize();
    frame := frame + PutUint(sum, W4);
    r := Some(frame);
  }

  // --------------------------------------------------------------- parsing

  /** What the front of a buffer holds: something provably invalid, an
      incomplete frame, or a whole one of `total` bytes. */
  datatype Front = Invalid(error: ProtocolError) | Incomplete | Whole(kind: Byte, payload: Bytes, total: nat)

  function Scan(b: Bytes, maxPayload: U32): (f: Front)
    ensures f.Whole? ==> HEADER_LEN <= f.total <= |b|
  {
    if |b| < HEADER_LEN then Incomplete
    else if b[..4] != MAGIC then Invalid(BadMagic)
    else
      UintExact(b[4..6]);
      Widths();
      var version := LittleEndian(b[4..6]);
      if version != VERSION then Invalid(UnsupportedVersion(version))
      else
        var len := LittleEndian(b[7..11]);
        var total := HEADER_LEN + len + 4;
        if len > maxPayload then Invalid(Oversized(len, maxPayload))
        else if |b| < total then Incomplete
        else
          var payload := b[HEADER_LEN..HEADER_LEN + len];
          if LittleEndian(b[HEADER_LEN + len..total]) != Checksum(Covered(b[6], payload)) then Invalid(BadChecksum)
          else Whole(b[6], payload, total)
  }

  datatype Decoded<T> = Ok(value: T) | Err(error: ProtocolError)

  /** `decode_frame`: a buffer that must hold a whole frame. */
  function DecodeFrame(b: Bytes, maxPayload: U32): Decoded<(Byte, Bytes)>
  {
    match Scan(b, maxPayload)
    case Invalid(e) => Err(e)
    case Incomplete => Err(Truncated)
    case Whole(kind, payload, _) => Ok((kind, payload))
  }

  /** `parse_frame`: one frame off the front of a stream, or `None` when more
      bytes are needed. */
  function ParseFrame(b: Bytes, maxPayload: U32): Decoded<Option<(Bytes, nat)>>
  {
    match Scan(b, maxPayload)
    case Invalid(e) => Err(e)
    case Incomplete => Ok(None)
    case Whole(_, _, total) => Ok(Some((b[..total], total)))
  }

  lemma Layout(kind: Byte, payload: Bytes, rest: Bytes)
    requires |payload| < 0x1_0000_0000
    ensures var b := FrameOf(kind, payload) + rest;
      && b[..4] == MAGIC && b[4..6] == PutU16(VERSION) && b[6] == kind
      && b[7..11] == PutU32(|payload|)
      && b[11..11 + |payload|] == payload
      && b[11 + |payload|..15 + |payload|] == Trailer(kind, payload)
  {
    hide PutUint, Trailer;
    var b := FrameOf(kind, payload) + rest;
    assert |PutU16(VERSION)| == 2 && |PutU32(|payload|)| == 4;
  }

  /** A frame is read back whole before any suffix. */
  lemma ScanFrame(kind: Byte, payload: Bytes, rest: Bytes, maxPayload: U32)
    requires |payload| <= maxPayload
    ensures Scan(FrameOf(kind, payload) + rest, maxPayload) == Whole(kind, payload, FRAME_OVERHEAD + |payload|)
  {
    hide PutUint, LittleEndian, Checksum, FrameOf;
    Layout(kind, payload, rest);
    Widths();
    UintTrip(VERSION, W2);
    UintTrip(|payload|, W4);
    ChecksumFits(Covered(kind, payload));
    Sizes();
    UintTrip(Checksum(Covered(kind, payload)), W4);
  }

  /** Every proper prefix of a frame waits for more. */
  lemma ScanPrefix(kind: Byte, payload: Bytes, n: nat, maxPayload: U32)
    requires |payload| <= maxPayload && n < FRAME_OVERHEAD + |payload|
    ensures Scan(FrameOf(kind, payload)[..n], maxPayload) == Incomplete
  {
    hide PutUint, LittleEndian, Checksum, FrameOf;
    var f := FrameOf(kind, payload);
    assert f + [] == f;
    Layout(kind, payload, []);
    Widths();
    UintTrip(VERSION, W2);
    UintTrip(|payload|, W4);
    if n >= HEADER_LEN {
      assert f[..n][..4] == f[..4] && f[..n][4..6] == f[4..6] && f[..n][7..11] == f[7..11];
    }
  }

  /** Only the frame of a payload is read back as that payload. */
  lemma ScanExact(b: Bytes, maxPayload: U32)
    requires Scan(b, maxPayload).Whole?
    ensures var f := Scan(b, maxPayload);
      |f.payload| <= maxPayload && b[..f.total] == FrameOf(f.kind, f.payload)
  {
    hide PutUint, LittleEndian, Checksum;
    var f := Scan(b, maxPayload);
    var len := |f.payload|;
    UintExact(b[4..6]);
    UintExact(b[7..11]);
    UintExact(b[11 + len..15 + len]);
    assert b[..f.total] == b[..4] + b[4..6] + [b[6]] + b[7..11] + b[11..11 + len] + b[11 + len..15 + len];
  }

  /** What is wrong with a buffer, by what its fields were built from: the
      magic, the version, the length and the checksum, in this order. */
  lemma RefusalExact(magic: Bytes, version: U16, kind: Byte, len: U32, rest: Bytes, maxPayload: U32)
    requires |magic| == 4
    ensures DecodeFrame(magic + PutU16(version) + [kind] + PutU32(len) + rest, maxPayload) ==
      if magic != MAGIC then Err(BadMagic)
      else if version != VERSION then Err(UnsupportedVersion(version))
      else if len > maxPayload then Err(Oversized(len, maxPayload))
      else if |rest| < len + 4 then Err(Truncated)
      else if rest[len..len + 4] != Trailer(kind, rest[..len]) then Err(BadChecksum)
      else Ok((kind, rest[..len]))
  {
    hide PutUint, LittleEndian, Checksum;
    var b := magic + PutU16(version) + [kind] + PutU32(len) + rest;
    Widths();
    UintTrip(version, W2);
    UintTrip(len, W4);
    assert |PutU16(version)| == 2 && |PutU32(len)| == 4;
    assert b[..4] == magic && b[4..6] == PutU16(version) && b[6] == kind && b[7..11] == PutU32(len);
    if |rest| >= len + 4 {
      assert b[11..11 + len] == rest[..len] && b[11 + len..15 + len] == rest[len..len + 4];
      ChecksumFits(Covered(kind, rest[..len]));
      Sizes();
      UintTrip(Checksum(Covered(kind, rest[..len])), W4);
      UintExact(rest[len..len + 4]);
    }
  }

  // ------------------------------------------------------------ corruption

  /** Two buffers that agree except within four consecutive bytes. */
  ghost predicate NearlySame(a: Bytes, b: Bytes, i: nat)
  {
    |a| == |b| && forall k :: 0 <= k < |a| && !(i <= k < i + 4) ==> a[k] == b[k]
  }

  /** Any corruption of a frame within four consecutive bytes that leaves its
      length field alone is rejected. */
  lemma CorruptionDetected(f: Bytes, g: Bytes, i: nat, maxPayload: U32)
    requires Scan(f, maxPayload).Whole? && Scan(f, maxPayload).total == |f|
    requires NearlySame(f, g, i) && f != g && f[7..11] == g[7..11]
    ensures Scan(g, maxPayload).Invalid?
  {
    hide LittleEndian, Checksum, BitSerial, Steps;
    var len := |f| - 15;
    assert len == |Scan(f, maxPayload).payload|;
    UintExact(f[4..6]);
    UintExact(g[4..6]);
    if g[..4] == MAGIC && g[4..6] == f[4..6] {
      var cf, cg := f[4..7] + f[11..], g[4..7] + g[11..];
      CoveredParts(f, len);
      CoveredParts(g, len);
      forall k | 0 <= k < |cf| && !(Shifted(i) <= k < Shifted(i) + 4)
        ensures cf[k] == cg[k]
      {
        assert k < 3 ==> cf[k] == f[4 + k] && cg[k] == g[4 + k];
        assert k >= 3 ==> cf[k] == f[8 + k] && cg[k] == g[8 + k];
      }
      SameParts(f, g);
      BurstDiffers(cf, cg, Shifted(i));
      ResidueExact(f[4..7] + f[11..11 + len], f[11 + len..15 + len]);
      ResidueExact(g[4..7] + g[11..11 + len], g[11 + len..15 + len]);
    }
  }

  /** Where a window of the frame starts in its checksummed part. */
  function Shifted(i: nat): nat { if i >= 8 then i - 8 else if i >= 4 then i - 4 else 0 }

  lemma SameParts(f: Bytes, g: Bytes)
    requires |f| == |g| >= 11 && f[..4] == g[..4] && f[7..11] == g[7..11]
    ensures f[4..7] + f[11..] == g[4..7] + g[11..] ==> f == g
  {
    assert f == f[..4] + f[4..7] + f[7..11] + f[11..];
    assert g == g[..4] + g[4..7] + g[7..11] + g[11..];
    var x, y := f[4..7] + f[11..], g[4..7] + g[11..];
    assert f[4..7] == x[..3] && f[11..] == x[3..] && g[4..7] == y[..3] && g[11..] == y[3..];
  }

  lemma CoveredParts(f: Bytes, len: nat)
    requires |f| == len + 15 && f[4..6] == PutU16(VERSION)
    ensures Covered(f[6], f[11..11 + len]) == f[4..7] + f[11..11 + len]
    ensures f[4..7] + f[11..11 + len] + f[11 + len..15 + len] == f[4..7] + f[11..]
  {
    assert f[4..7] == f[4..6] + [f[6]];
  }
}
