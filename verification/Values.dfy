/** Shared value types (`crates/nexum-core/src/value.rs`, `row.rs`): typed
    column values, rows, and UTF-8 strings held as their bytes. */
module Values {
  import opened Bits

  datatype Option<+T> = None | Some(value: T)
  {
    predicate IsFailure() { None? }

    function PropagateFailure<U>(): Option<U>
      requires None?
    {
      None
    }

    function Extract(): T
      requires Some?
    {
      value
    }
  }

  type I8 = x: int | -0x80 <= x < 0x80
  type I16 = x: int | -0x8000 <= x < 0x8000
  type I32 = x: int | -0x8000_0000 <= x < 0x8000_0000
  type I64 = x: int | -0x8000_0000_0000_0000 <= x < 0x8000_0000_0000_0000
  type U16 = x: int | 0 <= x < 0x1_0000
  type U32 = x: int | 0 <= x < 0x1_0000_0000
  type U64 = x: int | 0 <= x < 0x1_0000_0000_0000_0000

  predicate Continuation(b: Byte) { 0x80 <= b <= 0xBF }

  /** Length of the UTF-8 sequence at the front of `s` (section 3 of
      RFC 3629), or 0 when `s` does not start with one. */
  function Utf8Width(s: Bytes): (n: nat)
    ensures n <= |s| && n <= 4
  {
    if s == [] then 0
    else if s[0] <= 0x7F then 1
    else if 0xC2 <= s[0] <= 0xDF && |s| >= 2 && Continuation(s[1]) then 2
    else if 0xE0 <= s[0] <= 0xEF && |s| >= 3 && Continuation(s[1]) && Continuation(s[2])
            && (s[0] == 0xE0 ==> s[1] >= 0xA0) && (s[0] == 0xED ==> s[1] <= 0x9F) then 3
    else if 0xF0 <= s[0] <= 0xF4 && |s| >= 4 && Continuation(s[1]) && Continuation(s[2])
            && Continuation(s[3])
            && (s[0] == 0xF0 ==> s[1] >= 0x90) && (s[0] == 0xF4 ==> s[1] <= 0x8F) then 4
    else 0
  }

  predicate Utf8(s: Bytes)
    decreases |s|
  {
    s == [] || (Utf8Width(s) > 0 && Utf8(s[Utf8Width(s)..]))
  }

  /** A UTF-8 string, represented by its bytes. */
  type Str = s: Bytes | Utf8(s)

  /** Column values; floats are their raw bits. */
  datatype Value =
    | Bool(b: bool)
    | I8Value(i8: I8) | I16Value(i16: I16) | I32Value(i32: I32) | I64Value(i64: I64)
    | U8Value(u8: Byte) | U16Value(u16: U16) | U32Value(u32: U32) | U64Value(u64: U64)
    | F32Value(bits32: U32) | F64Value(bits64: U64)
    | StringValue(str: Str) | BytesValue(bytes: Bytes)

  type Row = seq<Value>
}
