/** Messages of the wire protocol (`crates/nexum-network/src/protocol.rs`). */
module Protocol {
  import opened Bits
  import opened Values
  import opened Codec
  import opened Schema
  import opened Payloads
  import opened Frames

  datatype ClientMessage =
    | Handshake(version: U16, name: Str)
    | Authenticate(credentials: Str)
    | AttachWorld(world: U64)
    | Input(frame: InputFrame)
    | Subscribe(requestId: U64, query: Query)
    | Unsubscribe(subscription: U64)
    | Resync(subscription: U64)
    | Ping(nonce: U64)
    | DetachWorld
    | CallReducer(requestId: U64, reducer: Str, args: seq<Named>)

  datatype Principal = Principal(id: U64, name: Str)

  datatype ServerMessage =
    | HandshakeResponse(version: U16, serverName: Str)
    | AuthResult(ok: bool, principal: Option<Principal>, error: Option<Str>)
    | AttachResult(ok: bool, attached: Option<U64>, error: Option<Str>)
    | DetachResult(ok: bool, error: Option<Str>)
    | TickUpdate(world: U64, tick: U64, txId: U64, changes: seq<Change>, events: seq<Named>)
    | Snapshot(requestId: U64, subscription: U64, seqNo: U64, rows: seq<Delivered>)
    | SubscriptionDelta(subscription: U64, delta: Delta)
    | Stale(subscription: U64, seqNo: U64)
    | Error(code: U16, message: Str, requestId: U64)
    | Pong(nonce: U64)
    | Disconnect(reason: Str)
    | ReducerResult(requestId: U64, ok: bool, value: Option<Value>, error: Option<Str>)
    | DeltaBatch(subscription: U64, requestId: U64, deltas: seq<Delta>)

  // ---------------------------------------------------------------- client

  function ClientKind(m: ClientMessage): Byte
  {
    match m
    case Handshake(_, _) => 0x01 case Authenticate(_) => 0x02 case AttachWorld(_) => 0x03 case Input(_) => 0x04
    case Subscribe(_, _) => 0x05 case Unsubscribe(_) => 0x06 case Resync(_) => 0x07 case Ping(_) => 0x08
    case DetachWorld => 0x09 case CallReducer(_, _, _) => 0x0A
  }

  function PutClient(m: ClientMessage): Bytes
  {
    match m
    case Handshake(version, name) => PutU16(version) + PutStr(name)
    case Authenticate(credentials) => PutStr(credentials)
    case AttachWorld(world) => PutU64(world)
    case Input(frame) => PutFrame(frame)
    case Subscribe(requestId, query) => PutU64(requestId) + PutQuery(query)
    case Unsubscribe(subscription) => PutU64(subscription)
    case Resync(subscription) => PutU64(subscription)
    case Ping(nonce) => PutU64(nonce)
    case DetachWorld => []
    case CallReducer(requestId, reducer, args) => PutU64(requestId) + (PutStr(reducer) + PutArgs(args))
  }

  /** `ensure_consumed`: nothing may follow a message. */
  function Whole<T>(p: Parsed<T>): Option<T>
  {
    if p.Some? && p.value.1 == [] then Some(p.value.0) else None
  }

  function GetHandshake(b: Bytes): Parsed<(U16, Str)>
  {
    var (version, b1) :- GetU16(b);
    var (name, end) :- GetStr(b1);
    Some(((version, name), end))
  }

  function GetSubscribe(b: Bytes): Parsed<ClientMessage>
  {
    var (requestId, b1) :- GetU64(b);
    var (query, end) :- GetQuery(b1);
    Some((Subscribe(requestId, query), end))
  }

  function GetCall(b: Bytes): Parsed<ClientMessage>
  {
    var (requestId, b1) :- GetU64(b);
    var (reducer, b2) :- GetStr(b1);
    if reducer == [] then None
    else
      var (args, end) :- GetArgs(b2);
      Some((CallReducer(requestId, reducer, args), end))
  }

  /** The payload decoder of a known kind. */
  function ParseClient(kind: Byte, b: Bytes): Parsed<ClientMessage>
  {
    match kind
    case 0x01 => var ((version, name), end) :- GetHandshake(b); Some((Handshake(version, name), end))
    case 0x02 => var (credentials, end) :- GetStr(b); Some((Authenticate(credentials), end))
    case 0x03 => var (world, end) :- GetU64(b); Some((AttachWorld(world), end))
    case 0x04 => var (frame, end) :- GetFrame(b); Some((Input(frame), end))
    case 0x05 => GetSubscribe(b)
    case 0x06 => var (subscription, end) :- GetU64(b); Some((Unsubscribe(subscription), end))
    case 0x07 => var (subscription, end) :- GetU64(b); Some((Resync(subscription), end))
    case 0x08 => var (nonce, end) :- GetU64(b); Some((Ping(nonce), end))
    case 0x09 => Some((DetachWorld, b))
    case 0x0A => GetCall(b)
    case _ => None
  }

  function GetClient(kind: Byte, b: Bytes): Option<ClientMessage> { Whole(ParseClient(kind, b)) }

  ghost predicate ClientOk(m: ClientMessage)
  {
    match m
    case Handshake(_, name) => StrOk(name)
    case Authenticate(credentials) => StrOk(credentials)
    case Input(frame) => FrameOk(frame)
    case Subscribe(_, query) => QueryOk(query)
    case CallReducer(_, reducer, args) => reducer != [] && StrOk(reducer) && ArgsOk(args)
    case _ => true
  }

  lemma HandshakeTrip(version: U16, name: Str, rest: Bytes)
    requires StrOk(name)
    ensures GetHandshake(PutU16(version) + PutStr(name) + rest) == Some(((version, name), rest))
  {
    hide GetU16, PutU16, GetStr, PutStr;
    assert PutU16(version) + PutStr(name) + rest == PutU16(version) + (PutStr(name) + rest);
    SmallTrip(version, PutStr(name) + rest);
    StrTrip(name, rest);
  }

  lemma CallTrip(m: ClientMessage, rest: Bytes)
    requires m.CallReducer? && ClientOk(m)
    ensures GetCall(PutClient(m) + rest) == Some((m, rest))
  {
    hide GetU64, PutU64, GetStr, PutStr, GetArgs, PutArgs;
    var b2 := PutArgs(m.args) + rest;
    assert PutClient(m) + rest == PutU64(m.requestId) + (PutStr(m.reducer) + b2);
    U64Trip(m.requestId, PutStr(m.reducer) + b2);
    StrTrip(m.reducer, b2);
    ArgsTrip(m.args, rest);
  }

  lemma SubscribeTrip(m: ClientMessage, rest: Bytes)
    requires m.Subscribe? && ClientOk(m)
    ensures GetSubscribe(PutClient(m) + rest) == Some((m, rest))
  {
    hide GetU64, PutU64, GetQuery, PutQuery;
    assert PutClient(m) + rest == PutU64(m.requestId) + (PutQuery(m.query) + rest);
    U64Trip(m.requestId, PutQuery(m.query) + rest);
    QueryTrip(m.query, rest);
  }

  /** A message decodes from its payload before any suffix. */
  lemma ClientPayloadTrip(m: ClientMessage, rest: Bytes)
    requires ClientOk(m)
    ensures ParseClient(ClientKind(m), PutClient(m) + rest) == Some((m, rest))
  {
    hide GetHandshake, GetSubscribe, GetCall, GetStr, PutStr, GetU64, PutU64, GetFrame, PutFrame, PutU16;
    match m
    case Handshake(version, name) => HandshakeTrip(version, name, rest);
    case Authenticate(credentials) => StrTrip(credentials, rest);
    case AttachWorld(world) => U64Trip(world, rest);
    case Input(frame) => FrameTrip(frame, rest);
    case Subscribe(_, _) => SubscribeTrip(m, rest);
    case Unsubscribe(subscription) => U64Trip(subscription, rest);
    case Resync(subscription) => U64Trip(subscription, rest);
    case Ping(nonce) => U64Trip(nonce, rest);
    case DetachWorld => assert [] + rest == rest;
    case CallReducer(_, _, _) => CallTrip(m, rest);
  }

  /** Nothing superfluous is listed in the payload: the presence flags of a
      query are 0 or 1, and arguments come in key order. */
  ghost predicate ClientCanonical(kind: Byte, b: Bytes)
  {
    && (kind == 0x05 && GetU64(b).Some? && QueryFlags(GetU64(b).value.1).Some? ==>
          var (f, g, h) := QueryFlags(GetU64(b).value.1).value; f <= 1 && g <= 1 && h <= 1)
    && (kind == 0x0A && GetU64(b).Some? && GetStr(GetU64(b).value.1).Some?
        && ListedArgs(GetStr(GetU64(b).value.1).value.1).Some? ==>
          InKeyOrder(ListedArgs(GetStr(GetU64(b).value.1).value.1).value))
  }

  lemma HandshakeExact(b: Bytes)
    requires GetHandshake(b).Some?
    ensures var ((version, name), end) := GetHandshake(b).value; b == PutU16(version) + PutStr(name) + end && StrOk(name)
  {
    hide GetU16, PutU16, GetStr, PutStr;
    SmallExact(b);
    StrExact(GetU16(b).value.1);
  }

  lemma SubscribeExact(b: Bytes)
    requires GetSubscribe(b).Some?
    ensures var (m, end) := GetSubscribe(b).value;
      && m.Subscribe? && ClientOk(m) && (b == PutClient(m) + end <==> ClientCanonical(0x05, b))
  {
    hide GetU64, PutU64, GetQuery, PutQuery, QueryFlags, QueryOk;
    WordExact(b);
    var (requestId, b1) := GetU64(b).value;
    QueryExact(b1);
    var (m, end) := GetSubscribe(b).value;
    assert PutClient(m) + end == PutU64(requestId) + (PutQuery(m.query) + end);
    SameTail(PutU64(requestId), b1, PutQuery(m.query) + end);
  }

  lemma CallExact(b: Bytes)
    requires GetCall(b).Some?
    ensures var (m, end) := GetCall(b).value;
      && m.CallReducer? && ClientOk(m) && (b == PutClient(m) + end <==> ClientCanonical(0x0A, b))
  {
    hide GetU64, PutU64, GetStr, PutStr, GetArgs, PutArgs, ListedArgs, ArgsOk, InKeyOrder;
    WordExact(b);
    var (requestId, b1) := GetU64(b).value;
    StrExact(b1);
    var (reducer, b2) := GetStr(b1).value;
    ArgsExact(b2);
    var (m, end) := GetCall(b).value;
    assert PutClient(m) + end == PutU64(requestId) + PutStr(reducer) + (PutArgs(m.args) + end);
    SameTail(PutU64(requestId) + PutStr(reducer), b2, PutArgs(m.args) + end);
  }

  /** What is accepted is a well-formed message of its kind, and its bytes are
      the encoding exactly if they are canonical. */
  lemma ClientPayloadExact(kind: Byte, b: Bytes)
    requires ParseClient(kind, b).Some?
    ensures var (m, end) := ParseClient(kind, b).value;
      && ClientKind(m) == kind && ClientOk(m)
      && (b == PutClient(m) + end <==> ClientCanonical(kind, b))
  {
    hide GetHandshake, GetSubscribe, GetCall, GetStr, PutStr, GetU64, PutU64, GetFrame, PutFrame, PutU16, QueryFlags,
         ListedArgs, FrameOk, QueryOk, ArgsOk, InKeyOrder;
    match kind
    case 0x01 => HandshakeExact(b);
    case 0x02 => StrExact(b);
    case 0x03 => WordExact(b);
    case 0x04 => FrameExact(b);
    case 0x05 => SubscribeExact(b);
    case 0x06 => WordExact(b);
    case 0x07 => WordExact(b);
    case 0x08 => WordExact(b);
    case 0x09 => assert [] + b == b;
    case 0x0A => CallExact(b);
  }

  // ---------------------------------------------------------------- server

  function ServerKind(m: ServerMessage): Byte
  {
    match m
    case HandshakeResponse(_, _) => 0x81 case AuthResult(_, _, _) => 0x82 case AttachResult(_, _, _) => 0x83
    case TickUpdate(_, _, _, _, _) => 0x84 case Snapshot(_, _, _, _) => 0x85 case SubscriptionDelta(_, _) => 0x86
    case Stale(_, _) => 0x87 case Error(_, _, _) => 0x88 case Pong(_) => 0x89 case Disconnect(_) => 0x8A
    case DetachResult(_, _) => 0x8B case ReducerResult(_, _, _, _) => 0x8C case DeltaBatch(_, _, _) => 0x8D
  }

  /** Successful results carry their value, and deltas their row; encoding
      them without would panic. */
  predicate Encodable(m: ServerMessage)
  {
    match m
    case AuthResult(ok, principal, _) => ok ==> principal.Some?
    case AttachResult(ok, world, _) => ok ==> world.Some?
    case ReducerResult(_, ok, value, _) => ok ==> value.Some?
    case SubscriptionDelta(_, d) => HasRow(d)
    case DeltaBatch(_, _, ds) => forall d :: d in ds ==> HasRow(d)
    case _ => true
  }

  function Ascii(text: string): (s: Str)
    requires forall i :: 0 <= i < |text| ==> text[i] < 128 as char
  {
    var s := seq(|text|, i requires 0 <= i < |text| => text[i] as int);
    AsciiUtf8(s);
    s
  }

  lemma {:induction false} AsciiUtf8(s: Bytes)
    requires forall i :: 0 <= i < |s| ==> s[i] < 128
    ensures Utf8(s)
  {
    if s != [] { AsciiUtf8(s[1..]); }
  }

  const AUTH_FAILED: Str := Ascii("authentication failed")
  const ATTACH_FAILED: Str := Ascii("attach failed")
  const DETACH_FAILED: Str := Ascii("detach failed")
  const CALL_FAILED: Str := Ascii("reducer call failed")

  /** The text of a failure, or the default one. */
  function Text(error: Option<Str>, default: Str): Str
  {
    if error.Some? then error.value else default
  }

  function PutPrincipal(p: Principal): Bytes { PutU64(p.id) + PutStr(p.name) }

  function PutServer(m: ServerMessage): Bytes
    requires Encodable(m)
  {
    match m
    case HandshakeResponse(version, name) => PutU16(version) + PutStr(name)
    case AuthResult(ok, principal, error) =>
      PutBool(ok) + (if ok then PutPrincipal(principal.value) else PutStr(Text(error, AUTH_FAILED)))
    case AttachResult(ok, world, error) =>
      PutBool(ok) + (if ok then PutU64(world.value) else PutStr(Text(error, ATTACH_FAILED)))
    case DetachResult(ok, error) =>
      PutBool(ok) + (if ok then [] else PutStr(Text(error, DETACH_FAILED)))
    case TickUpdate(world, tick, txId, changes, events) =>
      PutU64(world) + (PutU64(tick) + (PutU64(txId) + (PutList(changes, PutChange) + PutList(events, PutNamed))))
    case Snapshot(requestId, subscription, seqNo, rows) =>
      PutU64(requestId) + (PutU64(subscription) + (PutU64(seqNo) + PutList(rows, PutDelivered)))
    case SubscriptionDelta(subscription, delta) => PutU64(subscription) + PutDelta(delta)
    case Stale(subscription, seqNo) => PutU64(subscription) + PutU64(seqNo)
    case Error(code, message, requestId) => PutU16(code) + (PutStr(message) + PutU64(requestId))
    case Pong(nonce) => PutU64(nonce)
    case Disconnect(reason) => PutStr(reason)
    case ReducerResult(requestId, ok, value, error) =>
      PutU64(requestId) + (PutBool(ok) + (if ok then PutValue(value.value) else PutStr(Text(error, CALL_FAILED))))
    case DeltaBatch(subscription, requestId, deltas) =>
      PutU64(subscription) + (PutU64(requestId) + PutList(deltas, PutDelta))
  }

  function GetPrincipal(b: Bytes): Parsed<Principal>
  {
    var (id, b1) :- GetU64(b);
    var (name, end) :- GetStr(b1);
    Some((Principal(id, name), end))
  }

  /** A success flag, then a result or an error text. */
  function GetEither<T>(get: Bytes -> Parsed<T>, b: Bytes): Parsed<(Option<T>, Option<Str>)>
  {
    var (ok, b1) :- GetBool(b);
    if ok then
      var (x, end) :- get(b1);
      Some(((Some(x), None), end))
    else
      var (e, end) :- GetStr(b1);
      Some(((None, Some(e)), end))
  }

  function GetNothing(b: Bytes): Parsed<()> { Some(((), b)) }

  function GetTickUpdate(b: Bytes): Parsed<ServerMessage>
  {
    var (world, b1) :- GetU64(b);
    var (tick, b2) :- GetU64(b1);
    var (txId, b3) :- GetU64(b2);
    var (changes, b4) :- GetList(GetChange, b3);
    var (events, end) :- GetList(GetNamed, b4);
    Some((TickUpdate(world, tick, txId, changes, events), end))
  }

  function GetSnapshot(b: Bytes): Parsed<ServerMessage>
  {
    var (requestId, b1) :- GetU64(b);
    var (subscription, b2) :- GetU64(b1);
    var (seqNo, b3) :- GetU64(b2);
    var (rows, end) :- GetList(GetDelivered, b3);
    Some((Snapshot(requestId, subscription, seqNo, rows), end))
  }

  function GetSubscriptionDelta(b: Bytes): Parsed<ServerMessage>
  {
    var (subscription, b1) :- GetU64(b);
    var (delta, end) :- GetDelta(b1);
    Some((SubscriptionDelta(subscription, delta), end))
  }

  function GetStale(b: Bytes): Parsed<ServerMessage>
  {
    var (subscription, b1) :- GetU64(b);
    var (seqNo, end) :- GetU64(b1);
    Some((Stale(subscription, seqNo), end))
  }

  function GetError(b: Bytes): Parsed<ServerMessage>
  {
    var (code, b1) :- GetU16(b);
    var (message, b2) :- GetStr(b1);
    var (requestId, end) :- GetU64(b2);
    Some((Error(code, message, requestId), end))
  }

  function GetReducerResult(b: Bytes): Parsed<ServerMessage>
  {
    var (requestId, b1) :- GetU64(b);
    var ((value, error), end) :- GetEither(GetValue, b1);
    Some((ReducerResult(requestId, value.Some?, value, error), end))
  }

  function GetDeltaBatch(b: Bytes): Parsed<ServerMessage>
  {
    var (subscription, b1) :- GetU64(b);
    var (requestId, b2) :- GetU64(b1);
    var (deltas, end) :- GetList(GetDelta, b2);
    Some((DeltaBatch(subscription, requestId, deltas), end))
  }

  function ParseServer(kind: Byte, b: Bytes): Parsed<ServerMessage>
  {
    match kind
    case 0x81 => var ((version, name), end) :- GetHandshake(b); Some((HandshakeResponse(version, name), end))
    case 0x82 => var ((p, e), end) :- GetEither(GetPrincipal, b); Some((AuthResult(p.Some?, p, e), end))
    case 0x83 => var ((w, e), end) :- GetEither(GetU64, b); Some((AttachResult(w.Some?, w, e), end))
    case 0x84 => GetTickUpdate(b)
    case 0x85 => GetSnapshot(b)
    case 0x86 => GetSubscriptionDelta(b)
    case 0x87 => GetStale(b)
    case 0x88 => GetError(b)
    case 0x89 => var (nonce, end) :- GetU64(b); Some((Pong(nonce), end))
    case 0x8A => var (reason, end) :- GetStr(b); Some((Disconnect(reason), end))
    case 0x8B => var ((u, e), end) :- GetEither(GetNothing, b); Some((DetachResult(u.Some?, e), end))
    case 0x8C => GetReducerResult(b)
    case 0x8D => GetDeltaBatch(b)
    case _ => None
  }

  function GetServer(kind: Byte, b: Bytes): Option<ServerMessage> { Whole(ParseServer(kind, b)) }

  /** A result has a value or an error text, as its flag says. */
  predicate Settled<T>(ok: bool, value: Option<T>, error: Option<Str>)
  {
    ok == value.Some? && ok == error.None? && (error.Some? ==> StrOk(error.value))
  }

  ghost predicate ServerOk(m: ServerMessage)
  {
    match m
    case HandshakeResponse(_, name) => StrOk(name)
    case AuthResult(ok, principal, error) =>
      Settled(ok, principal, error) && (ok ==> StrOk(principal.value.name))
    case AttachResult(ok, world, error) => Settled(ok, world, error)
    case DetachResult(ok, error) => ok == error.None? && (error.Some? ==> StrOk(error.value))
    case TickUpdate(_, _, _, changes, events) => ListOk(changes, ChangeOk) && ListOk(events, NamedOk)
    case Snapshot(_, _, _, rows) => ListOk(rows, DeliveredOk)
    case SubscriptionDelta(_, delta) => DeltaOk(delta)
    case Error(_, message, _) => StrOk(message)
    case Disconnect(reason) => StrOk(reason)
    case ReducerResult(_, ok, value, error) => Settled(ok, value, error) && (ok ==> ValueOk(value.value))
    case DeltaBatch(_, _, deltas) => ListOk(deltas, DeltaOk)
    case _ => true
  }

  lemma EitherTrip<T>(ok: bool, value: Option<T>, error: Option<Str>, put: Bytes, get: Bytes -> Parsed<T>, default: Str,
                      rest: Bytes)
    requires Settled(ok, value, error)
    requires ok ==> get(put + rest) == Some((value.value, rest))
    ensures GetEither(get, PutBool(ok) + (if ok then put else PutStr(Text(error, default))) + rest)
            == Some(((value, error), rest))
  {
    hide GetStr, PutStr;
    var body := if ok then put else PutStr(Text(error, default));
    assert PutBool(ok) + body + rest == PutBool(ok) + (body + rest);
    BoolTrip(ok, body + rest);
    if !ok { StrTrip(error.value, rest); }
  }

  lemma AuthTrip(m: ServerMessage, rest: Bytes)
    requires m.AuthResult? && ServerOk(m)
    ensures GetEither(GetPrincipal, PutServer(m) + rest) == Some(((m.principal, m.error), rest))
  {
    hide GetU64, PutU64, GetStr, PutStr, GetEither, GetPrincipal;
    if m.ok { PrincipalTrip(m.principal.value, rest); }
    EitherTrip(m.ok, m.principal, m.error, if m.ok then PutPrincipal(m.principal.value) else [], GetPrincipal, AUTH_FAILED,
               rest);
  }

  lemma PrincipalTrip(p: Principal, rest: Bytes)
    requires StrOk(p.name)
    ensures GetPrincipal(PutPrincipal(p) + rest) == Some((p, rest))
  {
    hide GetU64, PutU64, GetStr, PutStr;
    assert PutPrincipal(p) + rest == PutU64(p.id) + (PutStr(p.name) + rest);
    U64Trip(p.id, PutStr(p.name) + rest);
    StrTrip(p.name, rest);
  }

  lemma AttachTrip(m: ServerMessage, rest: Bytes)
    requires m.AttachResult? && ServerOk(m)
    ensures GetEither(GetU64, PutServer(m) + rest) == Some(((m.attached, m.error), rest))
  {
    hide GetU64, PutU64, PutStr, GetEither;
    if m.ok { U64Trip(m.attached.value, rest); }
    EitherTrip(m.ok, m.attached, m.error, if m.ok then PutU64(m.attached.value) else [], GetU64, ATTACH_FAILED, rest);
  }

  lemma DetachTrip(m: ServerMessage, rest: Bytes)
    requires m.DetachResult? && ServerOk(m)
    ensures GetEither(GetNothing, PutServer(m) + rest) == Some(((if m.ok then Some(()) else None, m.error), rest))
  {
    hide PutStr, GetEither;
    assert [] + rest == rest;
    EitherTrip(m.ok, if m.ok then Some(()) else None, m.error, [], GetNothing, DETACH_FAILED, rest);
  }

  lemma ResultTrip(m: ServerMessage, rest: Bytes)
    requires m.ReducerResult? && ServerOk(m)
    ensures GetReducerResult(PutServer(m) + rest) == Some((m, rest))
  {
    hide GetU64, PutU64, PutStr, GetEither, GetValue, PutValue, PutBool, Text, ValueOk;
    var put := if m.ok then PutValue(m.value.value) else [];
    var tail := PutBool(m.ok) + if m.ok then put else PutStr(Text(m.error, CALL_FAILED));
    assert PutServer(m) + rest == PutU64(m.requestId) + (tail + rest);
    U64Trip(m.requestId, tail + rest);
    if m.ok { ValueTrip(m.value.value, rest); }
    EitherTrip(m.ok, m.value, m.error, put, GetValue, CALL_FAILED, rest);
  }

  lemma UpdateTrip(m: ServerMessage, rest: Bytes)
    requires m.TickUpdate? && ServerOk(m)
    ensures GetTickUpdate(PutServer(m) + rest) == Some((m, rest))
  {
    hide GetU64, PutU64, GetList, PutList, Lossless, ListOk;
    var b4 := PutList(m.events, PutNamed) + rest;
    var b3 := PutList(m.changes, PutChange) + b4;
    var b2 := PutU64(m.txId) + b3;
    assert PutServer(m) + rest == PutU64(m.world) + (PutU64(m.tick) + b2);
    U64Trip(m.world, PutU64(m.tick) + b2);
    U64Trip(m.tick, b2);
    U64Trip(m.txId, b3);
    ElementsLossless();
    NamedLossless();
    ListTrip(m.changes, PutChange, GetChange, ChangeOk, b4);
    ListTrip(m.events, PutNamed, GetNamed, NamedOk, rest);
  }

  lemma SnapshotTrip(m: ServerMessage, rest: Bytes)
    requires m.Snapshot? && ServerOk(m)
    ensures GetSnapshot(PutServer(m) + rest) == Some((m, rest))
  {
    hide GetU64, PutU64, GetList, PutList, Lossless, ListOk;
    var b3 := PutList(m.rows, PutDelivered) + rest;
    var b2 := PutU64(m.seqNo) + b3;
    assert PutServer(m) + rest == PutU64(m.requestId) + (PutU64(m.subscription) + b2);
    U64Trip(m.requestId, PutU64(m.subscription) + b2);
    U64Trip(m.subscription, b2);
    U64Trip(m.seqNo, b3);
    ElementsLossless();
    ListTrip(m.rows, PutDelivered, GetDelivered, DeliveredOk, rest);
  }

  lemma DeltaMessageTrip(m: ServerMessage, rest: Bytes)
    requires m.SubscriptionDelta? && ServerOk(m)
    ensures GetSubscriptionDelta(PutServer(m) + rest) == Some((m, rest))
  {
    hide GetU64, PutU64, GetDelta, PutDelta;
    assert PutServer(m) + rest == PutU64(m.subscription) + (PutDelta(m.delta) + rest);
    U64Trip(m.subscription, PutDelta(m.delta) + rest);
    DeltaTrip(m.delta, rest);
  }

  lemma BatchTrip(m: ServerMessage, rest: Bytes)
    requires m.DeltaBatch? && ServerOk(m)
    ensures Encodable(m) && GetDeltaBatch(PutServer(m) + rest) == Some((m, rest))
  {
    hide GetU64, PutU64, GetList, PutList, Lossless;
    var b2 := PutList(m.deltas, PutDelta) + rest;
    assert PutServer(m) + rest == PutU64(m.subscription) + (PutU64(m.requestId) + b2);
    U64Trip(m.subscription, PutU64(m.requestId) + b2);
    U64Trip(m.requestId, b2);
    ElementsLossless();
    ListTrip(m.deltas, PutDelta, GetDelta, DeltaOk, rest);
  }

  lemma StaleTrip(m: ServerMessage, rest: Bytes)
    requires m.Stale?
    ensures GetStale(PutServer(m) + rest) == Some((m, rest))
  {
    hide GetU64, PutU64;
    assert PutServer(m) + rest == PutU64(m.subscription) + (PutU64(m.seqNo) + rest);
    U64Trip(m.subscription, PutU64(m.seqNo) + rest);
    U64Trip(m.seqNo, rest);
  }

  lemma ErrorTrip(m: ServerMessage, rest: Bytes)
    requires m.Error? && ServerOk(m)
    ensures GetError(PutServer(m) + rest) == Some((m, rest))
  {
    hide GetU64, PutU64, GetU16, PutU16, GetStr, PutStr;
    var b2 := PutU64(m.requestId) + rest;
    assert PutServer(m) + rest == PutU16(m.code) + (PutStr(m.message) + b2);
    SmallTrip(m.code, PutStr(m.message) + b2);
    StrTrip(m.message, b2);
    U64Trip(m.requestId, rest);
  }

  lemma WellFormedEncodable(m: ServerMessage)
    requires ServerOk(m)
    ensures Encodable(m)
  {
  }

  lemma SimpleTrip(m: ServerMessage, rest: Bytes)
    requires (m.HandshakeResponse? || m.Pong? || m.Disconnect?) && ServerOk(m)
    ensures ParseServer(ServerKind(m), PutServer(m) + rest) == Some((m, rest))
  {
    hide GetHandshake, GetStr, PutStr, GetU64, PutU64, PutU16;
    match m
    case HandshakeResponse(version, name) => HandshakeTrip(version, name, rest);
    case Pong(nonce) => U64Trip(nonce, rest);
    case Disconnect(reason) => StrTrip(reason, rest);
  }

  lemma ServerPayloadTrip(m: ServerMessage, rest: Bytes)
    requires ServerOk(m)
    ensures Encodable(m) && ParseServer(ServerKind(m), PutServer(m) + rest) == Some((m, rest))
  {
    hide GetHandshake, GetEither, GetTickUpdate, GetSnapshot, GetSubscriptionDelta, GetStale, GetError, GetReducerResult,
         GetDeltaBatch, GetStr, GetU64, PutServer, Encodable;
    WellFormedEncodable(m);
    match m
    case HandshakeResponse(_, _) => SimpleTrip(m, rest);
    case AuthResult(_, _, _) => AuthTrip(m, rest);
    case AttachResult(_, _, _) => AttachTrip(m, rest);
    case DetachResult(_, _) => DetachTrip(m, rest);
    case TickUpdate(_, _, _, _, _) => UpdateTrip(m, rest);
    case Snapshot(_, _, _, _) => SnapshotTrip(m, rest);
    case SubscriptionDelta(_, _) => DeltaMessageTrip(m, rest);
    case Stale(_, _) => StaleTrip(m, rest);
    case Error(_, _, _) => ErrorTrip(m, rest);
    case Pong(_) => SimpleTrip(m, rest);
    case Disconnect(_) => SimpleTrip(m, rest);
    case ReducerResult(_, _, _, _) => ResultTrip(m, rest);
    case DeltaBatch(_, _, _) => BatchTrip(m, rest);
  }

  /** Nothing superfluous is listed in the payload: the changes of a tick
      update have the rows and versions of their kind and no others. */
  ghost predicate ServerCanonical(kind: Byte, b: Bytes)
  {
    kind == 0x84 && GetU64(b).Some? && GetU64(GetU64(b).value.1).Some? && GetU64(GetU64(GetU64(b).value.1).value.1).Some?
    && ListedChanges(GetU64(GetU64(GetU64(b).value.1).value.1).value.1).Some? ==>
      AllShaped(ListedChanges(GetU64(GetU64(GetU64(b).value.1).value.1).value.1).value)
  }

  lemma EitherExact<T(!new)>(put: T -> Bytes, get: Bytes -> Parsed<T>, default: Str, b: Bytes)
    requires b != [] && get(b[1..]).Some? ==> b[1..] == put(get(b[1..]).value.0) + get(b[1..]).value.1
    requires GetEither(get, b).Some?
    ensures var ((value, error), end) := GetEither(get, b).value;
      && b != [] && Settled(value.Some?, value, error)
      && b == PutBool(value.Some?) + (if value.Some? then put(value.value) else PutStr(Text(error, default))) + end
      && (value.Some? ==> get(b[1..]) == Some((value.value, end)))
  {
    hide GetStr, PutStr;
    BoolExact(b);
    if !GetBool(b).value.0 { StrExact(b[1..]); }
  }

  lemma PrincipalExact(b: Bytes)
    requires GetPrincipal(b).Some?
    ensures var (p, end) := GetPrincipal(b).value; b == PutPrincipal(p) + end && StrOk(p.name)
  {
    hide GetU64, PutU64, GetStr, PutStr;
    WordExact(b);
    StrExact(GetU64(b).value.1);
  }

  lemma AuthExact(b: Bytes)
    requires GetEither(GetPrincipal, b).Some?
    ensures var ((p, e), end) := GetEither(GetPrincipal, b).value;
      var m := AuthResult(p.Some?, p, e); ServerOk(m) && b == PutServer(m) + end
  {
    hide PutStr, GetEither, PutBool, GetPrincipal, PutPrincipal, Ascii, Text;
    if b != [] && GetPrincipal(b[1..]).Some? { PrincipalExact(b[1..]); }
    EitherExact(PutPrincipal, GetPrincipal, AUTH_FAILED, b);
  }

  lemma AttachExact(b: Bytes)
    requires GetEither(GetU64, b).Some?
    ensures var ((w, e), end) := GetEither(GetU64, b).value;
      var m := AttachResult(w.Some?, w, e); ServerOk(m) && b == PutServer(m) + end
  {
    hide GetU64, PutU64, PutStr, GetEither, PutBool;
    if b != [] && GetU64(b[1..]).Some? { WordExact(b[1..]); }
    EitherExact(PutVersion, GetU64, ATTACH_FAILED, b);
  }

  lemma DetachExact(b: Bytes)
    requires GetEither(GetNothing, b).Some?
    ensures var ((u, e), end) := GetEither(GetNothing, b).value;
      var m := DetachResult(u.Some?, e); ServerOk(m) && b == PutServer(m) + end
  {
    hide PutStr, GetEither, PutBool;
    if b != [] { assert [] + b[1..] == b[1..]; }
    EitherExact((u: ()) => [], GetNothing, DETACH_FAILED, b);
  }

  lemma ResultExact(b: Bytes)
    requires GetReducerResult(b).Some?
    ensures var (m, end) := GetReducerResult(b).value; m.ReducerResult? && ServerOk(m) && b == PutServer(m) + end
  {
    hide GetU64, PutU64, PutStr, GetEither, GetValue, PutValue, PutBool, ValueOk, PutServer, Text, Ascii;
    WordExact(b);
    var (requestId, b1) := GetU64(b).value;
    if b1 != [] && GetValue(b1[1..]).Some? { ValueExact(b1[1..]); }
    EitherExact(PutValue, GetValue, CALL_FAILED, b1);
    ResultBytes(GetReducerResult(b).value.0, GetReducerResult(b).value.1);
  }

  lemma ResultBytes(m: ServerMessage, end: Bytes)
    requires m.ReducerResult? && Encodable(m)
    ensures PutServer(m) + end
            == PutU64(m.requestId)
               + (PutBool(m.ok) + (if m.ok then PutValue(m.value.value) else PutStr(Text(m.error, CALL_FAILED))) + end)
  {
    hide PutU64, PutBool, PutValue, PutStr, Text, Ascii;
  }

  lemma UpdateExact(b: Bytes)
    requires GetTickUpdate(b).Some?
    ensures var (m, end) := GetTickUpdate(b).value;
      m.TickUpdate? && ServerOk(m) && (b == PutServer(m) + end <==> ServerCanonical(0x84, b))
  {
    hide GetU64, PutU64, GetList, PutList, ListOk, AllShaped, ListedChanges;
    WordExact(b);
    var (world, b1) := GetU64(b).value;
    WordExact(b1);
    var (tick, b2) := GetU64(b1).value;
    WordExact(b2);
    var (txId, b3) := GetU64(b2).value;
    ChangesExact(b3);
    var (changes, b4) := GetList(GetChange, b3).value;
    AllNamedExact();
    ListExact(PutNamed, GetNamed, NamedOk, b4);
    var (m, end) := GetTickUpdate(b).value;
    var front := PutU64(world) + PutU64(tick) + PutU64(txId);
    assert b == front + b3;
    assert PutServer(m) + end == front + (PutList(changes, PutChange) + (PutList(m.events, PutNamed) + end));
    SameTail(front, b3, PutList(changes, PutChange) + b4);
  }

  lemma SnapshotExact(b: Bytes)
    requires GetSnapshot(b).Some?
    ensures var (m, end) := GetSnapshot(b).value; m.Snapshot? && ServerOk(m) && b == PutServer(m) + end
  {
    hide GetU64, PutU64, GetList, PutList, ListOk;
    WordExact(b);
    var b1 := GetU64(b).value.1;
    WordExact(b1);
    var b2 := GetU64(b1).value.1;
    WordExact(b2);
    ElementsExact();
    ListExact(PutDelivered, GetDelivered, DeliveredOk, GetU64(b2).value.1);
  }

  lemma DeltaMessageExact(b: Bytes)
    requires GetSubscriptionDelta(b).Some?
    ensures var (m, end) := GetSubscriptionDelta(b).value; m.SubscriptionDelta? && ServerOk(m) && b == PutServer(m) + end
  {
    hide GetU64, PutU64, GetDelta, PutDelta;
    WordExact(b);
    DeltaExact(GetU64(b).value.1);
  }

  lemma BatchExact(b: Bytes)
    requires GetDeltaBatch(b).Some?
    ensures var (m, end) := GetDeltaBatch(b).value; m.DeltaBatch? && ServerOk(m) && Encodable(m) && b == PutServer(m) + end
  {
    hide GetU64, PutU64, GetList, PutList;
    WordExact(b);
    var b1 := GetU64(b).value.1;
    WordExact(b1);
    ElementsExact();
    ListExact(PutDelta, GetDelta, DeltaOk, GetU64(b1).value.1);
    WellFormedEncodable(GetDeltaBatch(b).value.0);
  }

  lemma StaleExact(b: Bytes)
    requires GetStale(b).Some?
    ensures var (m, end) := GetStale(b).value; m.Stale? && b == PutServer(m) + end
  {
    hide GetU64, PutU64;
    WordExact(b);
    WordExact(GetU64(b).value.1);
  }

  lemma ErrorExact(b: Bytes)
    requires GetError(b).Some?
    ensures var (m, end) := GetError(b).value; m.Error? && ServerOk(m) && b == PutServer(m) + end
  {
    hide GetU64, PutU64, GetU16, PutU16, GetStr, PutStr, Ascii;
    SmallExact(b);
    var b1 := GetU16(b).value.1;
    StrExact(b1);
    WordExact(GetStr(b1).value.1);
  }

  lemma SimpleExact(kind: Byte, b: Bytes)
    requires (kind == 0x81 || kind == 0x89 || kind == 0x8A) && ParseServer(kind, b).Some?
    ensures var (m, end) := ParseServer(kind, b).value;
      ServerKind(m) == kind && ServerOk(m) && Encodable(m) && b == PutServer(m) + end
  {
    hide GetHandshake, GetStr, PutStr, GetU64, PutU64, PutU16;
    match kind
    case 0x81 => HandshakeExact(b);
    case 0x89 => WordExact(b);
    case 0x8A => StrExact(b);
  }

  lemma ServerPayloadExact(kind: Byte, b: Bytes)
    requires ParseServer(kind, b).Some?
    ensures var (m, end) := ParseServer(kind, b).value;
      && ServerKind(m) == kind && ServerOk(m) && Encodable(m)
      && (b == PutServer(m) + end <==> ServerCanonical(kind, b))
  {
    hide GetHandshake, GetEither, GetTickUpdate, GetSnapshot, GetSubscriptionDelta, GetStale, GetError, GetReducerResult,
         GetDeltaBatch, GetStr, GetU64, PutServer, Encodable, ServerOk, ListedChanges, AllShaped;
    WellFormedIf(ParseServer(kind, b).value.0);
    match kind
    case 0x81 => SimpleExact(kind, b);
    case 0x82 => AuthExact(b);
    case 0x83 => AttachExact(b);
    case 0x84 => UpdateExact(b);
    case 0x85 => SnapshotExact(b);
    case 0x86 => DeltaMessageExact(b);
    case 0x87 => StaleExact(b); StaleOk(ParseServer(kind, b).value.0);
    case 0x88 => ErrorExact(b);
    case 0x89 => SimpleExact(kind, b);
    case 0x8A => SimpleExact(kind, b);
    case 0x8B => DetachExact(b);
    case 0x8C => ResultExact(b);
    case 0x8D => BatchExact(b);
  }

  lemma WellFormedIf(m: ServerMessage)
    ensures ServerOk(m) ==> Encodable(m)
  {
  }

  lemma StaleOk(m: ServerMessage)
    ensures m.Stale? ==> ServerOk(m)
  {
  }

  // ------------------------------------------------------- whole messages

  /** `encode_client`; `None` is the capacity error. */
  function EncodeClient(m: ClientMessage, maxPayload: U32): Option<Bytes>
  {
    if |PutClient(m)| > maxPayload then None else Some(FrameOf(ClientKind(m), PutClient(m)))
  }

  function EncodeServer(m: ServerMessage, maxPayload: U32): Option<Bytes>
    requires Encodable(m)
  {
    if |PutServer(m)| > maxPayload then None else Some(FrameOf(ServerKind(m), PutServer(m)))
  }

  /** `decode_client`. Every payload failure reads as `Malformed`. */
  function DecodeClient(b: Bytes, maxPayload: U32): Decoded<ClientMessage>
  {
    match DecodeFrame(b, maxPayload)
    case Err(e) => Err(e)
    case Ok((kind, payload)) =>
      if !(0x01 <= kind <= 0x0A) then Err(UnknownKind(kind))
      else match GetClient(kind, payload) case Some(m) => Ok(m) case None => Err(Malformed)
  }

  function DecodeServer(b: Bytes, maxPayload: U32): Decoded<ServerMessage>
  {
    match DecodeFrame(b, maxPayload)
    case Err(e) => Err(e)
    case Ok((kind, payload)) =>
      if !(0x81 <= kind <= 0x8D) then Err(UnknownKind(kind))
      else match GetServer(kind, payload) case Some(m) => Ok(m) case None => Err(Malformed)
  }

  /** A well-formed client message within the limit decodes from its frame,
      whatever follows it. */
  lemma ClientTrip(m: ClientMessage, maxPayload: U32, rest: Bytes)
    requires ClientOk(m) && |PutClient(m)| <= maxPayload
    ensures DecodeClient(EncodeClient(m, maxPayload).value + rest, maxPayload) == Ok(m)
  {
    hide FrameOf, Scan, ParseClient, PutClient, ClientOk;
    ScanFrame(ClientKind(m), PutClient(m), rest, maxPayload);
    ClientPayloadTrip(m, []);
    assert PutClient(m) + [] == PutClient(m);
  }

  lemma ServerTrip(m: ServerMessage, maxPayload: U32, rest: Bytes)
    requires ServerOk(m) && Encodable(m) && |PutServer(m)| <= maxPayload
    ensures DecodeServer(EncodeServer(m, maxPayload).value + rest, maxPayload) == Ok(m)
  {
    hide FrameOf, Scan, ParseServer, PutServer, ServerOk, Encodable;
    ScanFrame(ServerKind(m), PutServer(m), rest, maxPayload);
    ServerPayloadTrip(m, []);
    assert PutServer(m) + [] == PutServer(m);
  }

  /** Bytes inside the frame behind a message make it malformed. */
  lemma ClientTrailing(m: ClientMessage, more: Bytes, maxPayload: U32, rest: Bytes)
    requires ClientOk(m) && more != [] && |PutClient(m) + more| <= maxPayload
    ensures DecodeClient(FrameOf(ClientKind(m), PutClient(m) + more) + rest, maxPayload) == Err(Malformed)
  {
    hide FrameOf, Scan, ParseClient, PutClient, ClientOk;
    ScanFrame(ClientKind(m), PutClient(m) + more, rest, maxPayload);
    ClientPayloadTrip(m, more);
  }

  lemma ServerTrailing(m: ServerMessage, more: Bytes, maxPayload: U32, rest: Bytes)
    requires ServerOk(m) && Encodable(m) && more != [] && |PutServer(m) + more| <= maxPayload
    ensures DecodeServer(FrameOf(ServerKind(m), PutServer(m) + more) + rest, maxPayload) == Err(Malformed)
  {
    hide FrameOf, Scan, ParseServer, PutServer, ServerOk, Encodable;
    ScanFrame(ServerKind(m), PutServer(m) + more, rest, maxPayload);
    ServerPayloadTrip(m, more);
  }

  /** Whatever decodes is a well-formed message in a genuine frame, and the
      frame is the message's encoding exactly if its payload is canonical. */
  lemma ClientExact(b: Bytes, maxPayload: U32)
    requires DecodeClient(b, maxPayload).Ok?
    ensures var f, m := Scan(b, maxPayload), DecodeClient(b, maxPayload).value;
      && f.Whole? && f.kind == ClientKind(m) && ClientOk(m)
      && b[..f.total] == FrameOf(f.kind, f.payload) && |f.payload| <= maxPayload
      && (f.payload == PutClient(m) <==> ClientCanonical(f.kind, f.payload))
      && (ClientCanonical(f.kind, f.payload) ==> EncodeClient(m, maxPayload) == Some(b[..f.total]))
  {
    hide FrameOf, Scan, ParseClient, PutClient, ClientOk, ClientCanonical;
    var f, m := Scan(b, maxPayload), DecodeClient(b, maxPayload).value;
    ScanExact(b, maxPayload);
    ClientPayloadExact(f.kind, f.payload);
    assert PutClient(m) + [] == PutClient(m);
  }

  lemma ServerExact(b: Bytes, maxPayload: U32)
    requires DecodeServer(b, maxPayload).Ok?
    ensures var f, m := Scan(b, maxPayload), DecodeServer(b, maxPayload).value;
      && f.Whole? && f.kind == ServerKind(m) && ServerOk(m) && Encodable(m)
      && b[..f.total] == FrameOf(f.kind, f.payload) && |f.payload| <= maxPayload
      && (f.payload == PutServer(m) <==> ServerCanonical(f.kind, f.payload))
      && (ServerCanonical(f.kind, f.payload) ==> EncodeServer(m, maxPayload) == Some(b[..f.total]))
  {
    hide FrameOf, Scan, ParseServer, PutServer, ServerOk, Encodable, ServerCanonical;
    var f, m := Scan(b, maxPayload), DecodeServer(b, maxPayload).value;
    ScanExact(b, maxPayload);
    ServerPayloadExact(f.kind, f.payload);
    assert PutServer(m) + [] == PutServer(m);
  }

  // ------------------------------------------------ lenient acceptances

  /** A repeated argument name is accepted; the bytes are not the encoding. */
  lemma RepeatedArgument(requestId: U64, reducer: Str, a: Named)
    requires reducer != [] && StrOk(reducer) && NamedOk(a)
    ensures var b := PutU64(requestId) + (PutStr(reducer) + PutList([a, a], PutNamed));
      var m := CallReducer(requestId, reducer, [a]);
      GetClient(0x0A, b) == Some(m) && b != PutClient(m)
  {
    hide GetU64, PutU64, GetStr, PutStr, PutList, GetNamed, PutNamed, NamedOk;
    var b2 := PutList([a, a], PutNamed);
    var b := PutU64(requestId) + (PutStr(reducer) + b2);
    U64Trip(requestId, PutStr(reducer) + b2);
    StrTrip(reducer, b2);
    RepeatedArgs(a);
    if b == PutClient(CallReducer(requestId, reducer, [a])) {
      SameTail(PutU64(requestId), PutStr(reducer) + b2, PutStr(reducer) + PutArgs([a]));
      SameTail(PutStr(reducer), b2, PutArgs([a]));
    }
  }

  lemma RepeatedArgs(a: Named)
    requires NamedOk(a)
    ensures var b := PutList([a, a], PutNamed); GetArgs(b) == Some(([a], [])) && b != PutArgs([a])
  {
    hide GetNamed, PutNamed, NamedOk, Less;
    NamedLossless();
    var b := PutList([a, a], PutNamed);
    assert b + [] == b;
    ListTrip([a, a], PutNamed, GetNamed, NamedOk, []);
    SizeOfAll([a, a], PutNamed, 1);
    U64Trip(2, PutAll([a, a], PutNamed));
    assert [a, a][..1] == [a] && [a][..0] == [];
    assert !Less(a.name, a.name) by { if Less(a.name, a.name) { LessAsymmetric(a.name, a.name); } }
    assert Collected([a]) == [a];
    assert Collected([a, a]) == [a];
    assert PutArgs([a]) + [] == PutArgs([a]);
    ListTrip([a], PutNamed, GetNamed, NamedOk, []);
  }

  /** A presence flag of 2 in a query reads as absent. */
  lemma StrayFlag(requestId: U64, table: Str)
    requires StrOk(table) && !Blank(table)
    ensures var b := PutU64(requestId) + (PutStr(table) + (PutU64(0) + [2, 0, 0]));
      var m := Subscribe(requestId, Query(table, [], None, None, None));
      GetClient(0x05, b) == Some(m) && b != PutClient(m)
  {
    hide GetU64, PutU64, GetStr, PutStr, Blank;
    var b1 := PutU64(0) + [2, 0, 0];
    var b := PutU64(requestId) + (PutStr(table) + b1);
    U64Trip(requestId, PutStr(table) + b1);
    StrTrip(table, b1);
    U64Trip(0, [2, 0, 0]);
    assert GetMany(0, GetPredicate, [2, 0, 0]) == Some(([], [2, 0, 0]));
    assert GetFlagged(GetOrder, [2, 0, 0]) == Some((None, [0, 0]));
    assert GetFlagged(GetU32, [0, 0]) == Some((None, [0]));
    assert GetFlagged(GetNames, [0]) == Some((None, []));
    var m := Subscribe(requestId, Query(table, [], None, None, None));
    if b == PutClient(m) {
      var p := PutU64(0) + [] + ([0] + ([0] + [0]));
      assert PutClient(m) == PutU64(requestId) + (PutStr(table) + p);
      SameTail(PutU64(requestId), PutStr(table) + b1, PutStr(table) + p);
      SameTail(PutStr(table), b1, p);
      assert p == PutU64(0) + [0, 0, 0];
      SameTail(PutU64(0), [2, 0, 0], [0, 0, 0]);
    }
  }

  /** An inserted row listed with an old row is accepted without it. */
  lemma SuperfluousRow(c: Change)
    requires c.kind.InsertKind? && c.oldRow.Some? && c.newRow.Some? && c.newVersion.Some? && ListedOk(c)
    ensures var d := c.(oldRow := None, oldVersion := None);
      GetChange(PutChange(c)) == Some((d, [])) && PutChange(c) != PutChange(d)
  {
    hide GetListed, PutChange, RowSizes;
    var d := c.(oldRow := None, oldVersion := None);
    assert PutChange(c) + [] == PutChange(c) && PutChange(d) + [] == PutChange(d);
    ListedTrip(c, []);
    ListedTrip(d, []);
  }

  // ------------------------------------------------------------ unknown kinds

  lemma EmptyText()
    ensures Utf8([])
  {
  }

  /** Every kind byte between the first and the last is some message's. */
  lemma ClientKinds(kind: Byte)
    ensures (exists m: ClientMessage :: ClientKind(m) == kind) <==> 0x01 <= kind <= 0x0A
  {
    EmptyText();
    assert ClientKind(Handshake(0, [])) == 0x01 && ClientKind(Authenticate([])) == 0x02;
    assert ClientKind(AttachWorld(0)) == 0x03 && ClientKind(Input(InputFrame(0, []))) == 0x04;
    assert ClientKind(Subscribe(0, Query([], [], None, None, None))) == 0x05 && ClientKind(Unsubscribe(0)) == 0x06;
    assert ClientKind(Resync(0)) == 0x07 && ClientKind(Ping(0)) == 0x08;
    assert ClientKind(DetachWorld) == 0x09 && ClientKind(CallReducer(0, [], [])) == 0x0A;
  }

  lemma ServerKinds(kind: Byte)
    ensures (exists m: ServerMessage :: ServerKind(m) == kind) <==> 0x81 <= kind <= 0x8D
  {
    EmptyText();
    assert ServerKind(HandshakeResponse(0, [])) == 0x81 && ServerKind(AuthResult(false, None, None)) == 0x82;
    assert ServerKind(AttachResult(false, None, None)) == 0x83 && ServerKind(TickUpdate(0, 0, 0, [], [])) == 0x84;
    assert ServerKind(Snapshot(0, 0, 0, [])) == 0x85 && ServerKind(SubscriptionDelta(0, Delta(0, DeleteKind, 0, None))) == 0x86;
    assert ServerKind(Stale(0, 0)) == 0x87 && ServerKind(Error(0, [], 0)) == 0x88 && ServerKind(Pong(0)) == 0x89;
    assert ServerKind(Disconnect([])) == 0x8A && ServerKind(DetachResult(false, None)) == 0x8B;
    assert ServerKind(ReducerResult(0, false, None, None)) == 0x8C && ServerKind(DeltaBatch(0, 0, [])) == 0x8D;
  }

  /** A frame is refused for its kind exactly if no message has that kind. */
  lemma UnknownKinds(kind: Byte, payload: Bytes, maxPayload: U32, rest: Bytes)
    requires |payload| <= maxPayload
    ensures DecodeClient(FrameOf(kind, payload) + rest, maxPayload) == Err(UnknownKind(kind))
            <==> forall m: ClientMessage :: ClientKind(m) != kind
    ensures DecodeServer(FrameOf(kind, payload) + rest, maxPayload) == Err(UnknownKind(kind))
            <==> forall m: ServerMessage :: ServerKind(m) != kind
  {
    hide FrameOf, Scan, ParseClient, ParseServer, ClientKind, ServerKind;
    ScanFrame(kind, payload, rest, maxPayload);
    ClientKinds(kind);
    ServerKinds(kind);
  }
}
