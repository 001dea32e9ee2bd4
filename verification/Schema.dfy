/** Table schemas: the validating builder (`crates/nexum-core/src/schema.rs`)
    and their encoding (`binary.rs`). A column's id is its position. */
module Schema {
  import opened Bits
  import opened Values
  import opened Codec

  datatype Column = Column(name: Str, ty: ColumnType)
  datatype Index = Index(name: Str, columns: seq<Str>, unique: bool)
  datatype TableSchema = TableSchema(
    name: Str, columns: seq<Column>, primary: Option<seq<Str>>, indexes: seq<Index>)

  // ------------------------------------------------------------ the builder

  /** The White_Space characters of Unicode, in UTF-8. */
  predicate SpaceAt(s: Bytes, width: nat)
    requires width <= |s|
  {
    match width
    case 1 => 0x09 <= s[0] <= 0x0D || s[0] == 0x20
    case 2 => s[0] == 0xC2 && (s[1] == 0x85 || s[1] == 0xA0)
    case 3 =>
      || (s[0] == 0xE1 && s[1] == 0x9A && s[2] == 0x80)
      || (s[0] == 0xE2 && s[1] == 0x80 && (s[2] <= 0x8A || s[2] == 0xA8 || s[2] == 0xA9 || s[2] == 0xAF))
      || (s[0] == 0xE2 && s[1] == 0x81 && s[2] == 0x9F)
      || (s[0] == 0xE3 && s[1] == 0x80 && s[2] == 0x80)
    case _ => false
  }

  /** Nothing is left of the string once it is trimmed. */
  predicate Blank(s: Bytes)
    decreases |s|
  {
    s == [] || (Utf8Width(s) > 0 && SpaceAt(s, Utf8Width(s)) && Blank(s[Utf8Width(s)..]))
  }

  predicate HasColumn(columns: seq<Column>, name: Str)
  {
    exists i :: 0 <= i < |columns| && columns[i].name == name
  }

  /** What a built schema guarantees. */
  predicate Buildable(s: TableSchema)
  {
    && !Blank(s.name) && s.columns != []
    && (forall i :: 0 <= i < |s.columns| ==> !Blank(s.columns[i].name))
    && (forall i, j :: 0 <= i < j < |s.columns| ==> s.columns[i].name != s.columns[j].name)
    && (forall i :: 0 <= i < |s.indexes| ==> !Blank(s.indexes[i].name) && s.indexes[i].columns != [])
    && (forall i, j :: 0 <= i < j < |s.indexes| ==> s.indexes[i].name != s.indexes[j].name)
    && (s.primary.Some? ==> forall c :: c in s.primary.value ==> HasColumn(s.columns, c))
    && (forall i :: 0 <= i < |s.indexes| ==> forall c :: c in s.indexes[i].columns ==> HasColumn(s.columns, c))
  }

  method ColumnsOk(columns: seq<Column>) returns (ok: bool)
    ensures ok <==>
      && (forall i :: 0 <= i < |columns| ==> !Blank(columns[i].name))
      && (forall i, j :: 0 <= i < j < |columns| ==> columns[i].name != columns[j].name)
  {
    hide Blank;
    var seen: set<Str> := {};
    for k := 0 to |columns|
      invariant forall i :: 0 <= i < k ==> !Blank(columns[i].name) && columns[i].name in seen
      invariant forall n :: n in seen ==> exists i :: 0 <= i < k && columns[i].name == n
      invariant forall i, j :: 0 <= i < j < k ==> columns[i].name != columns[j].name
    {
      if Blank(columns[k].name) || columns[k].name in seen {
        return false;
      }
      seen := seen + {columns[k].name};
    }
    ok := true;
  }

  method IndexesOk(indexes: seq<Index>) returns (ok: bool)
    ensures ok <==>
      && (forall i :: 0 <= i < |indexes| ==> !Blank(indexes[i].name) && indexes[i].columns != [])
      && (forall i, j :: 0 <= i < j < |indexes| ==> indexes[i].name != indexes[j].name)
  {
    hide Blank;
    var seen: set<Str> := {};
    for k := 0 to |indexes|
      invariant forall i :: 0 <= i < k ==>
        !Blank(indexes[i].name) && indexes[i].columns != [] && indexes[i].name in seen
      invariant forall n :: n in seen ==> exists i :: 0 <= i < k && indexes[i].name == n
      invariant forall i, j :: 0 <= i < j < k ==> indexes[i].name != indexes[j].name
    {
      if Blank(indexes[k].name) || indexes[k].name in seen || indexes[k].columns == [] {
        return false;
      }
      seen := seen + {indexes[k].name};
    }
    ok := true;
  }

  /** Whether all names refer to columns. */
  method Refer(columns: seq<Column>, names: seq<Str>) returns (ok: bool)
    ensures ok <==> forall c :: c in names ==> HasColumn(columns, c)
  {
    for k := 0 to |names|
      invariant forall c :: c in names[..k] ==> HasColumn(columns, c)
    {
      var found := false;
      for i := 0 to |columns|
        invariant found <==> exists j :: 0 <= j < i && columns[j].name == names[k]
      {
        found := found || columns[i].name == names[k];
      }
      if !found {
        assert names[k] in names;
        return false;
      }
      assert names[..k + 1] == names[..k] + [names[k]];
    }
    assert names[..|names|] == names;
    ok := true;
  }

  /** `build`: succeeds exactly on what a schema guarantees. */
  method Build(s: TableSchema) returns (r: Option<TableSchema>)
    ensures r == if Buildable(s) then Some(s) else None
  {
    hide Blank, HasColumn;
    if Blank(s.name) || s.columns == [] {
      return None;
    }
    var columns := ColumnsOk(s.columns);
    if !columns {
      return None;
    }
    var indexes := IndexesOk(s.indexes);
    if !indexes {
      return None;
    }
    if s.primary.Some? {
      var known := Refer(s.columns, s.primary.value);
      if !known {
        return None;
      }
    }
    for k := 0 to |s.indexes|
      invariant forall i :: 0 <= i < k ==> forall c :: c in s.indexes[i].columns ==> HasColumn(s.columns, c)
    {
      var known := Refer(s.columns, s.indexes[k].columns);
      if !known {
        return None;
      }
    }
    r := Some(s);
  }

  // ------------------------------------------------------------- encoding

  function PutColumn(c: Column): Bytes { PutStr(c.name) + [TypeTag(c.ty)] }

  function GetColumn(b: Bytes): Parsed<Column>
  {
    var (name, rest) :- GetStr(b);
    var (ty, end) :- GetType(rest);
    Some((Column(name, ty), end))
  }

  predicate ColumnOk(c: Column) { StrOk(c.name) }

  function PutPrimary(p: Option<seq<Str>>): Bytes
  {
    PutBool(p.Some?) + if p.Some? then PutNames(p.value) else []
  }

  function GetPrimary(b: Bytes): Parsed<Option<seq<Str>>>
  {
    var (has, rest) :- GetBool(b);
    if !has then Some((None, rest))
    else
      var (names, end) :- GetNames(rest);
      Some((Some(names), end))
  }

  function PutIndex(x: Index): Bytes { PutStr(x.name) + (PutBool(x.unique) + PutNames(x.columns)) }

  function GetIndex(b: Bytes): Parsed<Index>
  {
    var (name, b1) :- GetStr(b);
    var (unique, b2) :- GetBool(b1);
    var (columns, end) :- GetNames(b2);
    Some((Index(name, columns, unique), end))
  }

  predicate IndexOk(x: Index)
  {
    StrOk(x.name) && |x.columns| < 0x1_0000_0000_0000_0000 && forall c :: c in x.columns ==> StrOk(c)
  }

  function PutSchema(s: TableSchema): Bytes
  {
    PutStr(s.name) + (PutList(s.columns, PutColumn) + (PutPrimary(s.primary) + PutList(s.indexes, PutIndex)))
  }

  /** Fields in order, then the validating builder. */
  function GetSchema(b: Bytes): Parsed<TableSchema>
  {
    var (name, b1) :- GetStr(b);
    var (columns, b2) :- GetList(GetColumn, b1);
    var (primary, b3) :- GetPrimary(b2);
    var (indexes, end) :- GetList(GetIndex, b3);
    var s := TableSchema(name, columns, primary, indexes);
    if Buildable(s) then Some((s, end)) else None
  }

  /** Names and counts have 64-bit lengths. */
  ghost predicate SchemaOk(s: TableSchema)
  {
    && StrOk(s.name) && ListOk(s.columns, ColumnOk) && ListOk(s.indexes, IndexOk)
    && (s.primary.Some? ==> NamesOk(s.primary.value))
  }

  lemma TypeTrip(t: ColumnType, rest: Bytes)
    ensures GetType([TypeTag(t)] + rest) == Some((t, rest))
  {
  }

  lemma TypeExact(b: Bytes)
    requires GetType(b).Some?
    ensures var (t, rest) := GetType(b).value; b == [TypeTag(t)] + rest
  {
  }

  lemma ColumnsLossless()
    ensures Lossless(PutColumn, GetColumn, ColumnOk) && Exact(PutColumn, GetColumn, ColumnOk)
  {
    hide GetStr, PutStr, GetType;
    StrsLossless();
    forall c, rest | ColumnOk(c)
      ensures GetColumn(PutColumn(c) + rest) == Some((c, rest))
    {
      assert PutColumn(c) + rest == PutStr(c.name) + ([TypeTag(c.ty)] + rest);
      TypeTrip(c.ty, rest);
    }
    forall b | GetColumn(b).Some?
      ensures b == PutColumn(GetColumn(b).value.0) + GetColumn(b).value.1 && ColumnOk(GetColumn(b).value.0)
    {
      TypeExact(GetStr(b).value.1);
    }
  }

  lemma IndexTrip(x: Index, rest: Bytes)
    requires IndexOk(x)
    ensures GetIndex(PutIndex(x) + rest) == Some((x, rest))
  {
    hide GetStr, PutStr, GetBool, PutBool, GetNames, PutNames;
    StrsLossless();
    assert PutIndex(x) + rest == PutStr(x.name) + (PutBool(x.unique) + (PutNames(x.columns) + rest));
    BoolTrip(x.unique, PutNames(x.columns) + rest);
    NamesTrip(x.columns, rest);
  }

  lemma IndexExact(b: Bytes)
    requires GetIndex(b).Some?
    ensures var (x, rest) := GetIndex(b).value; b == PutIndex(x) + rest && IndexOk(x)
  {
    hide GetStr, PutStr, GetBool, PutBool, GetNames, PutNames;
    StrsLossless();
    var (_, b1) := GetStr(b).value;
    BoolExact(b1);
    NamesExact(GetBool(b1).value.1);
  }

  lemma IndexesLossless()
    ensures Lossless(PutIndex, GetIndex, IndexOk) && Exact(PutIndex, GetIndex, IndexOk)
  {
    hide GetIndex, PutIndex;
    forall x, rest | IndexOk(x)
      ensures GetIndex(PutIndex(x) + rest) == Some((x, rest))
    {
      IndexTrip(x, rest);
    }
    forall b | GetIndex(b).Some?
      ensures b == PutIndex(GetIndex(b).value.0) + GetIndex(b).value.1 && IndexOk(GetIndex(b).value.0)
    {
      IndexExact(b);
    }
  }

  lemma PrimaryTrip(p: Option<seq<Str>>, rest: Bytes)
    requires p.Some? ==> NamesOk(p.value)
    ensures GetPrimary(PutPrimary(p) + rest) == Some((p, rest))
  {
    hide GetNames, PutNames, GetBool, PutBool;
    var tail := if p.Some? then PutNames(p.value) else [];
    assert PutPrimary(p) + rest == PutBool(p.Some?) + (tail + rest);
    BoolTrip(p.Some?, tail + rest);
    assert [] + rest == rest;
    if p.Some? { NamesTrip(p.value, rest); }
  }

  lemma PrimaryExact(b: Bytes)
    requires GetPrimary(b).Some?
    ensures var (p, rest) := GetPrimary(b).value; b == PutPrimary(p) + rest && (p.Some? ==> NamesOk(p.value))
  {
    hide GetNames, PutNames, GetBool, PutBool;
    BoolExact(b);
    var (has, rest) := GetBool(b).value;
    if has { NamesExact(rest); }
  }

  /** A built schema decodes from its encoding before any suffix. */
  lemma SchemaTrip(s: TableSchema, rest: Bytes)
    requires Buildable(s) && SchemaOk(s)
    ensures GetSchema(PutSchema(s) + rest) == Some((s, rest))
  {
    hide GetStr, PutStr, GetList, PutList, GetPrimary, PutPrimary, Buildable, Lossless, Exact;
    var b4 := PutList(s.indexes, PutIndex) + rest;
    var b3 := PutPrimary(s.primary) + b4;
    var b2 := PutList(s.columns, PutColumn) + b3;
    assert PutSchema(s) + rest == PutStr(s.name) + b2;
    StrTrip(s.name, b2);
    ColumnsLossless();
    ListTrip(s.columns, PutColumn, GetColumn, ColumnOk, b3);
    PrimaryTrip(s.primary, b4);
    IndexesLossless();
    ListTrip(s.indexes, PutIndex, GetIndex, IndexOk, rest);
  }

  /** Bytes that decode to a schema are its encoding, and the schema is one
      the builder accepts. */
  lemma SchemaExact(b: Bytes)
    requires GetSchema(b).Some?
    ensures var (s, rest) := GetSchema(b).value; b == PutSchema(s) + rest && SchemaOk(s) && Buildable(s)
  {
    hide GetStr, PutStr, GetList, PutList, GetPrimary, PutPrimary, Buildable, Lossless, Exact;
    StrExact(b);
    var (name, b1) := GetStr(b).value;
    ColumnsLossless();
    ListExact(PutColumn, GetColumn, ColumnOk, b1);
    var (columns, b2) := GetList(GetColumn, b1).value;
    PrimaryExact(b2);
    var (primary, b3) := GetPrimary(b2).value;
    IndexesLossless();
    ListExact(PutIndex, GetIndex, IndexOk, b3);
    var (indexes, end) := GetList(GetIndex, b3).value;
    assert b == PutStr(name) + (PutList(columns, PutColumn) + (PutPrimary(primary) + PutList(indexes, PutIndex))) + end;
  }
}
