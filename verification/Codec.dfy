/** The binary codec (`crates/nexum-core/src/binary.rs`): fixed-width
    little-endian integers, length-prefixed strings, tagged values and counted
    rows. `Put` gives the bytes an encoder appends; `Get` reads from a cursor
    and returns what is left of it, or nothing on malformed input. */
module Codec {
  import opened Bits
  import opened Values

  type Parsed<T> = Option<(T, Bytes)>

  // ------------------------------------------------------------ integers

  /** Widths in bytes. */
  const W1: nat := 1
  const W2: nat := 2
  const W4: nat := 4
  const W8: nat := 8

  function Pow256(k: nat): (p: nat)
    ensures p > 0
  {
    if k == 0 then 1 else 256 * Pow256(k - 1)
  }

  lemma Widths()
    ensures Pow256(W1) == 0x100 && Pow256(W2) == 0x1_0000
    ensures Pow256(W4) == 0x1_0000_0000 && Pow256(W8) == 0x1_0000_0000_0000_0000
  {
    assert Pow256(3) == 0x100_0000;
    assert Pow256(5) == 0x100_0000_0000;
    assert Pow256(7) == 0x100_0000_0000_0000;
  }

  function PutUint(n: nat, k: nat): (b: Bytes)
    ensures |b| == k
  {
    if k == 0 then [] else [n % 256] + PutUint(n / 256, k - 1)
  }

  lemma {:induction false} UintTrip(n: nat, k: nat)
    requires n < Pow256(k)
    ensures LittleEndian(PutUint(n, k)) == n
  {
    if k > 0 { UintTrip(n / 256, k - 1); }
  }

  lemma {:induction false} UintExact(b: Bytes)
    ensures LittleEndian(b) < Pow256(|b|) && PutUint(LittleEndian(b), |b|) == b
  {
    if b != [] {
      UintExact(b[1..]);
      var n := LittleEndian(b[1..]);
      assert (b[0] + 256 * n) % 256 == b[0] && (b[0] + 256 * n) / 256 == n;
      assert PutUint(b[0] + 256 * n, |b|) == [b[0]] + b[1..];
    }
  }

  /** `take`: exactly `k` bytes off the cursor. */
  function Take(b: Bytes, k: nat): Parsed<Bytes>
  {
    if |b| < k then None else Some((b[..k], b[k..]))
  }

  function GetUint(b: Bytes, k: nat): (r: Parsed<nat>)
    ensures r.Some? ==> r.value.0 < Pow256(k)
  {
    var (head, rest) :- Take(b, k);
    UintExact(head);
    Some((LittleEndian(head), rest))
  }

  lemma GetPutUint(n: nat, k: nat, rest: Bytes)
    requires n < Pow256(k)
    ensures GetUint(PutUint(n, k) + rest, k) == Some((n, rest))
  {
    UintTrip(n, k);
    assert (PutUint(n, k) + rest)[..k] == PutUint(n, k);
  }

  lemma PutGetUint(b: Bytes, k: nat)
    requires GetUint(b, k).Some?
    ensures b == PutUint(GetUint(b, k).value.0, k) + GetUint(b, k).value.1
  {
    UintExact(b[..k]);
  }

  /** Two's complement in `k` bytes. */
  function Wrapped(v: int, k: nat): (n: nat)
    requires -(Pow256(k) as int) <= 2 * v < Pow256(k)
    ensures n < Pow256(k)
  {
    if v < 0 then v + Pow256(k) else v
  }

  function Unwrapped(n: nat, k: nat): (v: int)
    requires n < Pow256(k)
    ensures -(Pow256(k) as int) <= 2 * v < Pow256(k)
    ensures Wrapped(v, k) == n
  {
    if 2 * n >= Pow256(k) then n - Pow256(k) else n
  }

  // -------------------------------------------------- strings and booleans

  predicate Short(b: Bytes) { |b| < 0x1_0000_0000_0000_0000 }

  function PutU64(n: nat): Bytes { PutUint(n, W8) }

  function GetU64(b: Bytes): Parsed<U64>
  {
    var (n, rest) :- GetUint(b, W8);
    Widths();
    Some((n, rest))
  }

  function PutBytes(s: Bytes): Bytes { PutU64(|s|) + s }

  function GetBytes(b: Bytes): Parsed<Bytes>
  {
    var (n, rest) :- GetU64(b);
    Take(rest, n)
  }

  function GetStr(b: Bytes): Parsed<Str>
  {
    var (s, rest) :- GetBytes(b);
    if Utf8(s) then Some((s, rest)) else None
  }

  function PutBool(v: bool): Bytes { [if v then 1 else 0] }

  function GetByte(b: Bytes): Parsed<Byte>
  {
    if b == [] then None else Some((b[0], b[1..]))
  }

  function GetBool(b: Bytes): Parsed<bool>
  {
    var (n, rest) :- GetByte(b);
    if n == 0 then Some((false, rest)) else if n == 1 then Some((true, rest)) else None
  }

  lemma U64Trip(n: U64, rest: Bytes)
    ensures GetU64(PutU64(n) + rest) == Some((n, rest))
  {
    Widths();
    GetPutUint(n, W8, rest);
  }

  lemma BytesTrip(s: Bytes, rest: Bytes)
    requires Short(s)
    ensures GetBytes(PutBytes(s) + rest) == Some((s, rest))
    ensures Utf8(s) ==> GetStr(PutBytes(s) + rest) == Some((s, rest))
  {
    assert PutBytes(s) + rest == PutU64(|s|) + (s + rest);
    U64Trip(|s|, s + rest);
  }

  lemma ByteTrip(n: Byte, rest: Bytes)
    ensures GetByte([n] + rest) == Some((n, rest))
    ensures n == 0 ==> GetBool([n] + rest) == Some((false, rest))
    ensures n == 1 ==> GetBool([n] + rest) == Some((true, rest))
  {
  }

  lemma BytesExact(b: Bytes)
    ensures GetBytes(b).Some? ==> var (s, rest) := GetBytes(b).value; b == PutBytes(s) + rest && Short(s)
    ensures GetStr(b).Some? ==> GetBytes(b) == GetStr(b)
  {
    if GetU64(b).Some? { PutGetUint(b, W8); }
  }

  // --------------------------------------------------------------- values

  datatype ColumnType =
    | BoolType | I8Type | I16Type | I32Type | I64Type | U8Type | U16Type | U32Type | U64Type
    | F32Type | F64Type | StringType | BytesType

  function TypeTag(t: ColumnType): Byte
  {
    match t
    case BoolType => 0 case I8Type => 1 case I16Type => 2 case I32Type => 3 case I64Type => 4
    case U8Type => 5 case U16Type => 6 case U32Type => 7 case U64Type => 8
    case F32Type => 9 case F64Type => 10 case StringType => 11 case BytesType => 12
  }

  function TypeFromTag(n: Byte): (t: Option<ColumnType>)
    ensures t.Some? <==> n <= 12
    ensures t.Some? ==> TypeTag(t.value) == n
  {
    match n
    case 0 => Some(BoolType) case 1 => Some(I8Type) case 2 => Some(I16Type) case 3 => Some(I32Type)
    case 4 => Some(I64Type) case 5 => Some(U8Type) case 6 => Some(U16Type) case 7 => Some(U32Type)
    case 8 => Some(U64Type) case 9 => Some(F32Type) case 10 => Some(F64Type) case 11 => Some(StringType)
    case 12 => Some(BytesType) case _ => None
  }

  function TypeOf(v: Value): ColumnType
  {
    match v
    case Bool(_) => BoolType
    case I8Value(_) => I8Type case I16Value(_) => I16Type case I32Value(_) => I32Type case I64Value(_) => I64Type
    case U8Value(_) => U8Type case U16Value(_) => U16Type case U32Value(_) => U32Type case U64Value(_) => U64Type
    case F32Value(_) => F32Type case F64Value(_) => F64Type
    case StringValue(_) => StringType case BytesValue(_) => BytesType
  }

  function GetType(b: Bytes): Parsed<ColumnType>
  {
    var (n, rest) :- GetByte(b);
    var t :- TypeFromTag(n);
    Some((t, rest))
  }

  /** A signed integer in `k` bytes. */
  function PutInt(v: int, k: nat): Bytes
    requires -(Pow256(k) as int) <= 2 * v < Pow256(k)
  {
    PutUint(Wrapped(v, k), k)
  }

  function GetInt(b: Bytes, k: nat): (r: Parsed<int>)
    ensures r.Some? ==> -(Pow256(k) as int) <= 2 * r.value.0 < Pow256(k)
  {
    var (n, rest) :- GetUint(b, k);
    Some((Unwrapped(n, k), rest))
  }

  function PutPayload(v: Value): Bytes
  {
    Widths();
    match v
    case Bool(b) => PutBool(b)
    case I8Value(n) => PutInt(n, W1)
    case I16Value(n) => PutInt(n, W2)
    case I32Value(n) => PutInt(n, W4)
    case I64Value(n) => PutInt(n, W8)
    case U8Value(n) => [n]
    case U16Value(n) => PutUint(n, W2)
    case U32Value(n) => PutUint(n, W4)
    case U64Value(n) => PutUint(n, W8)
    case F32Value(n) => PutUint(n, W4)
    case F64Value(n) => PutUint(n, W8)
    case StringValue(s) => PutBytes(s)
    case BytesValue(s) => PutBytes(s)
  }

  function GetPayload(t: ColumnType, b: Bytes): (r: Parsed<Value>)
    ensures r.Some? ==> TypeOf(r.value.0) == t
  {
    Widths();
    match t
    case BoolType => var (v, rest) :- GetBool(b); Some((Bool(v), rest))
    case I8Type => var (v, rest) :- GetInt(b, W1); Some((I8Value(v), rest))
    case I16Type => var (v, rest) :- GetInt(b, W2); Some((I16Value(v), rest))
    case I32Type => var (v, rest) :- GetInt(b, W4); Some((I32Value(v), rest))
    case I64Type => var (v, rest) :- GetInt(b, W8); Some((I64Value(v), rest))
    case U8Type => var (v, rest) :- GetByte(b); Some((U8Value(v), rest))
    case U16Type => var (v, rest) :- GetUint(b, W2); Some((U16Value(v), rest))
    case U32Type => var (v, rest) :- GetUint(b, W4); Some((U32Value(v), rest))
    case U64Type => var (v, rest) :- GetUint(b, W8); Some((U64Value(v), rest))
    case F32Type => var (v, rest) :- GetUint(b, W4); Some((F32Value(v), rest))
    case F64Type => var (v, rest) :- GetUint(b, W8); Some((F64Value(v), rest))
    case StringType => var (v, rest) :- GetStr(b); Some((StringValue(v), rest))
    case BytesType => var (v, rest) :- GetBytes(b); Some((BytesValue(v), rest))
  }

  function PutValue(v: Value): Bytes { [TypeTag(TypeOf(v))] + PutPayload(v) }

  function GetValue(b: Bytes): Parsed<Value>
  {
    var (t, rest) :- GetType(b);
    GetPayload(t, rest)
  }

  /** Lengths are 64-bit. */
  predicate ValueOk(v: Value)
  {
    match v
    case StringValue(s) => Short(s)
    case BytesValue(s) => Short(s)
    case _ => true
  }

  lemma GetPutInt(v: int, k: nat, rest: Bytes)
    requires -(Pow256(k) as int) <= 2 * v < Pow256(k)
    ensures GetInt(PutInt(v, k) + rest, k) == Some((v, rest))
  {
    GetPutUint(Wrapped(v, k), k, rest);
  }

  lemma PutGetInt(b: Bytes, k: nat)
    requires GetInt(b, k).Some?
    ensures b == PutInt(GetInt(b, k).value.0, k) + GetInt(b, k).value.1
  {
    PutGetUint(b, k);
  }

  lemma PayloadTrip(v: Value, rest: Bytes)
    requires ValueOk(v)
    ensures GetPayload(TypeOf(v), PutPayload(v) + rest) == Some((v, rest))
  {
    hide PutUint, GetUint, PutInt, GetInt, GetStr, GetBytes, PutBytes, Pow256;
    Widths();
    match v
    case Bool(b) => ByteTrip(if b then 1 else 0, rest);
    case I8Value(n) => GetPutInt(n, W1, rest);
    case I16Value(n) => GetPutInt(n, W2, rest);
    case I32Value(n) => GetPutInt(n, W4, rest);
    case I64Value(n) => GetPutInt(n, W8, rest);
    case U8Value(n) => ByteTrip(n, rest);
    case U16Value(n) => GetPutUint(n, W2, rest);
    case U32Value(n) => GetPutUint(n, W4, rest);
    case U64Value(n) => GetPutUint(n, W8, rest);
    case F32Value(n) => GetPutUint(n, W4, rest);
    case F64Value(n) => GetPutUint(n, W8, rest);
    case StringValue(s) => BytesTrip(s, rest);
    case BytesValue(s) => BytesTrip(s, rest);
  }

  lemma PayloadExact(t: ColumnType, b: Bytes)
    requires GetPayload(t, b).Some?
    ensures var (v, rest) := GetPayload(t, b).value; b == PutPayload(v) + rest && ValueOk(v)
  {
    hide PutUint, GetUint, PutInt, GetInt, GetStr, GetBytes, PutBytes, Pow256;
    Widths();
    match t
    case BoolType =>
    case I8Type => PutGetInt(b, W1);
    case I16Type => PutGetInt(b, W2);
    case I32Type => PutGetInt(b, W4);
    case I64Type => PutGetInt(b, W8);
    case U8Type =>
    case U16Type => PutGetUint(b, W2);
    case U32Type => PutGetUint(b, W4);
    case U64Type => PutGetUint(b, W8);
    case F32Type => PutGetUint(b, W4);
    case F64Type => PutGetUint(b, W8);
    case StringType => BytesExact(b);
    case BytesType => BytesExact(b);
  }

  /** A value decodes from its encoding before any suffix. */
  lemma ValueTrip(v: Value, rest: Bytes)
    requires ValueOk(v)
    ensures GetValue(PutValue(v) + rest) == Some((v, rest))
  {
    hide PutPayload, GetPayload;
    assert PutValue(v) + rest == [TypeTag(TypeOf(v))] + (PutPayload(v) + rest);
    PayloadTrip(v, rest);
  }

  /** Bytes that decode to a value are its encoding. */
  lemma ValueExact(b: Bytes)
    requires GetValue(b).Some?
    ensures var (v, rest) := GetValue(b).value; b == PutValue(v) + rest && ValueOk(v)
  {
    hide PutPayload, GetPayload;
    var (t, payload) := GetType(b).value;
    PayloadExact(t, payload);
    assert b == [TypeTag(t)] + payload;
  }

  // ---------------------------------------------------------------- lists

  /** The concatenated encodings of a list. */
  function PutAll<T>(xs: seq<T>, put: T -> Bytes): Bytes
  {
    if xs == [] then [] else put(xs[0]) + PutAll(xs[1..], put)
  }

  /** `n` elements one after another. */
  function GetMany<T>(n: nat, get: Bytes -> Parsed<T>, b: Bytes): (r: Parsed<seq<T>>)
    ensures r.Some? ==> |r.value.0| == n
  {
    if n == 0 then Some(([], b))
    else
      var (x, rest) :- get(b);
      var (xs, end) :- GetMany(n - 1, get, rest);
      Some(([x] + xs, end))
  }

  /** Encoded elements decode before any suffix. */
  ghost predicate Lossless<T(!new)>(put: T -> Bytes, get: Bytes -> Parsed<T>, ok: T -> bool)
  {
    forall x, rest :: ok(x) ==> get(put(x) + rest) == Some((x, rest))
  }

  /** Decoded bytes are an encoding. */
  ghost predicate Exact<T(!new)>(put: T -> Bytes, get: Bytes -> Parsed<T>, ok: T -> bool)
  {
    forall b :: get(b).Some? ==> b == put(get(b).value.0) + get(b).value.1 && ok(get(b).value.0)
  }

  lemma {:induction false} ManyTrip<T(!new)>(xs: seq<T>, put: T -> Bytes, get: Bytes -> Parsed<T>, ok: T -> bool,
                                             rest: Bytes)
    requires Lossless(put, get, ok) && forall x :: x in xs ==> ok(x)
    ensures GetMany(|xs|, get, PutAll(xs, put) + rest) == Some((xs, rest))
  {
    if xs == [] {
      assert PutAll(xs, put) + rest == rest;
    } else {
      var tail := PutAll(xs[1..], put);
      assert PutAll(xs, put) + rest == put(xs[0]) + (tail + rest);
      ManyTrip(xs[1..], put, get, ok, rest);
      assert xs == [xs[0]] + xs[1..];
    }
  }

  lemma {:induction false} ManyExact<T(!new)>(n: nat, put: T -> Bytes, get: Bytes -> Parsed<T>, ok: T -> bool, b: Bytes)
    requires Exact(put, get, ok) && GetMany(n, get, b).Some?
    ensures var (xs, rest) := GetMany(n, get, b).value; b == PutAll(xs, put) + rest && forall x :: x in xs ==> ok(x)
  {
    if n > 0 {
      var (x, after) := get(b).value;
      ManyExact(n - 1, put, get, ok, after);
      var (xs, rest) := GetMany(n - 1, get, after).value;
      assert ([x] + xs)[1..] == xs;
    } else {
      assert b == [] + b;
    }
  }

  /** A count, then the elements. */
  function PutList<T>(xs: seq<T>, put: T -> Bytes): Bytes
  {
    PutU64(|xs|) + PutAll(xs, put)
  }

  function GetList<T>(get: Bytes -> Parsed<T>, b: Bytes): Parsed<seq<T>>
  {
    var (n, rest) :- GetU64(b);
    GetMany(n, get, rest)
  }

  ghost predicate ListOk<T(!new)>(xs: seq<T>, ok: T -> bool)
  {
    |xs| < 0x1_0000_0000_0000_0000 && forall x :: x in xs ==> ok(x)
  }

  lemma ListTrip<T(!new)>(xs: seq<T>, put: T -> Bytes, get: Bytes -> Parsed<T>, ok: T -> bool, rest: Bytes)
    requires Lossless(put, get, ok) && ListOk(xs, ok)
    ensures GetList(get, PutList(xs, put) + rest) == Some((xs, rest))
  {
    hide PutU64, GetU64;
    assert PutList(xs, put) + rest == PutU64(|xs|) + (PutAll(xs, put) + rest);
    U64Trip(|xs|, PutAll(xs, put) + rest);
    ManyTrip(xs, put, get, ok, rest);
  }

  lemma ListExact<T(!new)>(put: T -> Bytes, get: Bytes -> Parsed<T>, ok: T -> bool, b: Bytes)
    requires Exact(put, get, ok) && GetList(get, b).Some?
    ensures var (xs, rest) := GetList(get, b).value; b == PutList(xs, put) + rest && ListOk(xs, ok)
  {
    PutGetUint(b, W8);
    var (n, after) := GetU64(b).value;
    ManyExact(n, put, get, ok, after);
  }

  /** The encoding loop: elements appended to the output one by one. */
  method AppendAll<T>(out: Bytes, xs: seq<T>, put: T -> Bytes) returns (r: Bytes)
    ensures r == out + PutAll(xs, put)
  {
    r := out;
    assert xs[0..] == xs;
    for i := 0 to |xs|
      invariant r + PutAll(xs[i..], put) == out + PutAll(xs, put)
    {
      assert xs[i..][1..] == xs[i + 1..];
      r := r + put(xs[i]);
    }
  }

  /** A list that starts with elements already decoded. */
  function Behind<T>(xs: seq<T>, r: Parsed<seq<T>>): Parsed<seq<T>>
  {
    if r.Some? then Some((xs + r.value.0, r.value.1)) else None
  }

  lemma BehindOne<T>(xs: seq<T>, x: T, r: Parsed<seq<T>>)
    ensures Behind([], r) == r && Behind(xs, Behind([x], r)) == Behind(xs + [x], r)
  {
    if r.Some? {
      assert xs + ([x] + r.value.0) == xs + [x] + r.value.0;
      assert [] + r.value.0 == r.value.0;
    }
  }

  /** The decoding loop: the cursor advances over `n` elements. */
  method TakeMany<T>(n: nat, get: Bytes -> Parsed<T>, b: Bytes) returns (r: Parsed<seq<T>>)
    ensures r == GetMany(n, get, b)
  {
    var cursor, xs: seq<T> := b, [];
    assert Behind([], GetMany(n, get, b)) == GetMany(n, get, b) by {
      var all := GetMany(n, get, b);
      assert all.Some? ==> [] + all.value.0 == all.value.0;
    }
    for i := 0 to n
      invariant GetMany(n, get, b) == Behind(xs, GetMany(n - i, get, cursor))
    {
      var one := get(cursor);
      if one.None? {
        return None;
      }
      BehindOne(xs, one.value.0, GetMany(n - i - 1, get, one.value.1));
      xs, cursor := xs + [one.value.0], one.value.1;
    }
    assert xs + [] == xs;
    r := Some((xs, cursor));
  }

  // ----------------------------------------------------------------- rows

  function PutRow(row: Row): Bytes { PutList(row, PutValue) }

  function GetRow(b: Bytes): Parsed<Row> { GetList(GetValue, b) }

  ghost predicate RowOk(row: Row) { ListOk(row, ValueOk) }

  lemma ValuesLossless()
    ensures Lossless(PutValue, GetValue, ValueOk) && Exact(PutValue, GetValue, ValueOk)
  {
    forall v, rest | ValueOk(v)
      ensures GetValue(PutValue(v) + rest) == Some((v, rest))
    {
      ValueTrip(v, rest);
    }
    forall b | GetValue(b).Some?
      ensures b == PutValue(GetValue(b).value.0) + GetValue(b).value.1 && ValueOk(GetValue(b).value.0)
    {
      ValueExact(b);
    }
  }

  lemma RowTrip(row: Row, rest: Bytes)
    requires RowOk(row)
    ensures GetRow(PutRow(row) + rest) == Some((row, rest))
  {
    ValuesLossless();
    ListTrip(row, PutValue, GetValue, ValueOk, rest);
  }

  lemma RowExact(b: Bytes)
    requires GetRow(b).Some?
    ensures var (row, rest) := GetRow(b).value; b == PutRow(row) + rest && RowOk(row)
  {
    ValuesLossless();
    ListExact(PutValue, GetValue, ValueOk, b);
  }

  // --------------------------------------------------------- string lists

  function PutStr(s: Str): Bytes { PutBytes(s) }

  predicate StrOk(s: Str) { Short(s) }

  function PutNames(names: seq<Str>): Bytes { PutList(names, PutStr) }

  function GetNames(b: Bytes): Parsed<seq<Str>> { GetList(GetStr, b) }

  ghost predicate NamesOk(names: seq<Str>) { ListOk(names, StrOk) }

  lemma StrsLossless()
    ensures Lossless(PutStr, GetStr, StrOk) && Exact(PutStr, GetStr, StrOk)
  {
    forall s: Str, rest | StrOk(s)
      ensures GetStr(PutStr(s) + rest) == Some((s, rest))
    {
      BytesTrip(s, rest);
    }
    forall b | GetStr(b).Some?
      ensures b == PutStr(GetStr(b).value.0) + GetStr(b).value.1 && StrOk(GetStr(b).value.0)
    {
      BytesExact(b);
    }
  }

  lemma NamesTrip(names: seq<Str>, rest: Bytes)
    requires NamesOk(names)
    ensures GetNames(PutNames(names) + rest) == Some((names, rest))
  {
    StrsLossless();
    ListTrip(names, PutStr, GetStr, StrOk, rest);
  }

  lemma NamesExact(b: Bytes)
    requires GetNames(b).Some?
    ensures var (names, rest) := GetNames(b).value; b == PutNames(names) + rest && NamesOk(names)
  {
    StrsLossless();
    ListExact(PutStr, GetStr, StrOk, b);
  }

  lemma BoolExact(b: Bytes)
    requires GetBool(b).Some?
    ensures var (v, rest) := GetBool(b).value; b == PutBool(v) + rest
  {
  }

  lemma BoolTrip(v: bool, rest: Bytes)
    ensures GetBool(PutBool(v) + rest) == Some((v, rest))
  {
  }

  lemma StrTrip(s: Str, rest: Bytes)
    requires StrOk(s)
    ensures GetStr(PutStr(s) + rest) == Some((s, rest))
  {
    BytesTrip(s, rest);
  }

  lemma StrExact(b: Bytes)
    requires GetStr(b).Some?
    ensures var (s, rest) := GetStr(b).value; b == PutStr(s) + rest && StrOk(s)
  {
    BytesExact(b);
  }
}
