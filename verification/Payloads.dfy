/** Payload codecs of the wire protocol
    (`crates/nexum-network/src/protocol.rs`): input frames, queries, reducer
    arguments, changes, events and delivered rows. */
module Payloads {
  import opened Bits
  import opened Values
  import opened Codec
  import opened Schema

  const MAX_COUNT: nat := 0x1_0000_0000_0000_0000

  // ------------------------------------------------------------- optionals

  /** A flag byte, then the element if there is one. */
  function PutOpt<T>(o: Option<T>, put: T -> Bytes): Bytes
  {
    if o.Some? then [1] + put(o.value) else [0]
  }

  /** Flags other than 0 and 1 are malformed. */
  function GetOpt<T>(get: Bytes -> Parsed<T>, b: Bytes): Parsed<Option<T>>
  {
    var (flag, rest) :- GetByte(b);
    if flag == 0 then Some((None, rest))
    else if flag == 1 then
      var (x, end) :- get(rest);
      Some((Some(x), end))
    else None
  }

  /** The query decoder reads every flag but 1 as absent. */
  function GetFlagged<T>(get: Bytes -> Parsed<T>, b: Bytes): Parsed<Option<T>>
  {
    var (flag, rest) :- GetByte(b);
    if flag != 1 then Some((None, rest))
    else
      var (x, end) :- get(rest);
      Some((Some(x), end))
  }

  lemma OptTrip<T(!new)>(o: Option<T>, put: T -> Bytes, get: Bytes -> Parsed<T>, rest: Bytes)
    requires o.Some? ==> get(put(o.value) + rest) == Some((o.value, rest))
    ensures GetOpt(get, PutOpt(o, put) + rest) == Some((o, rest))
    ensures GetFlagged(get, PutOpt(o, put) + rest) == Some((o, rest))
  {
    if o.Some? {
      assert PutOpt(o, put) + rest == [1] + (put(o.value) + rest);
      assert (PutOpt(o, put) + rest)[1..] == put(o.value) + rest;
    } else {
      assert (PutOpt(o, put) + rest)[1..] == rest;
    }
  }

  lemma OptExact<T(!new)>(put: T -> Bytes, get: Bytes -> Parsed<T>, b: Bytes)
    requires b != [] && get(b[1..]).Some? ==> b[1..] == put(get(b[1..]).value.0) + get(b[1..]).value.1
    ensures GetOpt(get, b).Some? ==> b == PutOpt(GetOpt(get, b).value.0, put) + GetOpt(get, b).value.1
    ensures GetFlagged(get, b).Some? ==>
      (b == PutOpt(GetFlagged(get, b).value.0, put) + GetFlagged(get, b).value.1 <==> b[0] <= 1)
  {
    if b != [] { assert b == [b[0]] + b[1..]; }
  }

  lemma SmallExact(b: Bytes)
    ensures GetU16(b).Some? ==> b == PutU16(GetU16(b).value.0) + GetU16(b).value.1
    ensures GetU32(b).Some? ==> b == PutU32(GetU32(b).value.0) + GetU32(b).value.1
  {
    if GetU16(b).Some? { PutGetUint(b, W2); }
    if GetU32(b).Some? { PutGetUint(b, W4); }
  }

  lemma WordExact(b: Bytes)
    requires GetU64(b).Some?
    ensures b == PutU64(GetU64(b).value.0) + GetU64(b).value.1
  {
    PutGetUint(b, W8);
  }

  function GetU16(b: Bytes): Parsed<U16>
  {
    var (n, rest) :- GetUint(b, W2);
    Widths();
    Some((n, rest))
  }

  function GetU32(b: Bytes): Parsed<U32>
  {
    var (n, rest) :- GetUint(b, W4);
    Widths();
    Some((n, rest))
  }

  function PutU32(n: U32): Bytes { PutUint(n, W4) }

  function PutU16(n: U16): Bytes { PutUint(n, W2) }

  lemma SmallTrip(n: nat, rest: Bytes)
    ensures n < 0x1_0000 ==> GetU16(PutU16(n) + rest) == Some((n, rest))
    ensures n < 0x1_0000_0000 ==> GetU32(PutU32(n) + rest) == Some((n, rest))
  {
    Widths();
    if n < 0x1_0000 { GetPutUint(n, W2, rest); }
    if n < 0x1_0000_0000 { GetPutUint(n, W4, rest); }
  }

  // ---------------------------------------------------------- input frames

  datatype Command = Command(source: U64, kind: Str, payload: Option<Value>)
  datatype InputFrame = InputFrame(tick: U64, commands: seq<Command>)

  function PutCommand(c: Command): Bytes
  {
    PutU64(c.source) + (PutStr(c.kind) + PutOpt(c.payload, PutValue))
  }

  function GetCommand(b: Bytes): Parsed<Command>
  {
    var (source, b1) :- GetU64(b);
    var (kind, b2) :- GetStr(b1);
    if kind == [] then None
    else
      var (payload, end) :- GetOpt(GetValue, b2);
      Some((Command(source, kind, payload), end))
  }

  predicate CommandOk(c: Command)
  {
    c.kind != [] && StrOk(c.kind) && (c.payload.Some? ==> ValueOk(c.payload.value))
  }

  lemma CommandTrip(c: Command, rest: Bytes)
    requires CommandOk(c)
    ensures GetCommand(PutCommand(c) + rest) == Some((c, rest))
    ensures |PutCommand(c)| >= 18
  {
    hide GetU64, PutU64, GetStr, PutStr, GetOpt, PutOpt, GetValue, PutValue;
    var b2 := PutOpt(c.payload, PutValue) + rest;
    var b1 := PutStr(c.kind) + b2;
    assert PutCommand(c) + rest == PutU64(c.source) + b1;
    U64Trip(c.source, b1);
    StrTrip(c.kind, b2);
    if c.payload.Some? { ValueTrip(c.payload.value, rest); }
    OptTrip(c.payload, PutValue, GetValue, rest);
    CommandSize(c);
  }

  lemma CommandSize(c: Command)
    requires c.kind != []
    ensures |PutCommand(c)| >= 18
  {
  }

  lemma {:induction false} SizeOfAll<T>(xs: seq<T>, put: T -> Bytes, n: nat)
    requires forall x :: x in xs ==> |put(x)| >= n
    ensures |PutAll(xs, put)| >= n * |xs|
  {
    if xs != [] {
      SizeOfAll(xs[1..], put, n);
      assert n * |xs| == n + n * |xs[1..]|;
    }
  }

  function PutFrame(f: InputFrame): Bytes { PutU64(f.tick) + PutList(f.commands, PutCommand) }

  /** An impossible count is refused before anything else is read. */
  function GetFrame(b: Bytes): Parsed<InputFrame>
  {
    var (tick, b1) :- GetU64(b);
    var (count, b2) :- GetU64(b1);
    if count > |b2| / 18 then None
    else
      var (commands, end) :- GetMany(count, GetCommand, b2);
      Some((InputFrame(tick, commands), end))
  }

  ghost predicate FrameOk(f: InputFrame) { ListOk(f.commands, CommandOk) }

  lemma FrameTrip(f: InputFrame, rest: Bytes)
    requires FrameOk(f)
    ensures GetFrame(PutFrame(f) + rest) == Some((f, rest))
  {
    hide GetU64, PutU64, PutCommand, GetCommand;
    var b2 := PutAll(f.commands, PutCommand) + rest;
    var b1 := PutU64(|f.commands|) + b2;
    assert PutFrame(f) + rest == PutU64(f.tick) + b1;
    U64Trip(f.tick, b1);
    U64Trip(|f.commands|, b2);
    forall c, r | CommandOk(c)
      ensures GetCommand(PutCommand(c) + r) == Some((c, r)) && |PutCommand(c)| >= 18
    {
      CommandTrip(c, r);
    }
    CommandSizes(f.commands);
    SizeOfAll(f.commands, PutCommand, 18);
    ManyTrip(f.commands, PutCommand, GetCommand, CommandOk, rest);
  }

  lemma CommandSizes(cs: seq<Command>)
    requires forall c :: c in cs ==> CommandOk(c)
    ensures forall c :: c in cs ==> |PutCommand(c)| >= 18
  {
    hide PutCommand;
    forall c | c in cs
      ensures |PutCommand(c)| >= 18
    {
      CommandSize(c);
    }
  }

  lemma CommandExact(b: Bytes)
    requires GetCommand(b).Some?
    ensures var (c, end) := GetCommand(b).value; b == PutCommand(c) + end && CommandOk(c)
  {
    hide GetU64, PutU64, GetStr, PutStr, GetOpt, PutOpt, GetValue, PutValue;
    WordExact(b);
    var (source, b1) := GetU64(b).value;
    StrExact(b1);
    var (kind, b2) := GetStr(b1).value;
    OptValueExact(b2);
  }

  lemma OptValueExact(b: Bytes)
    requires GetOpt(GetValue, b).Some?
    ensures var (v, end) := GetOpt(GetValue, b).value;
      b == PutOpt(v, PutValue) + end && (v.Some? ==> ValueOk(v.value))
  {
    hide GetValue, PutValue;
    if GetValue(b[1..]).Some? { ValueExact(b[1..]); }
    OptExact(PutValue, GetValue, b);
  }

  /** Bytes accepted as an input frame are its encoding. */
  lemma FrameExact(b: Bytes)
    requires GetFrame(b).Some?
    ensures var (f, end) := GetFrame(b).value; b == PutFrame(f) + end && FrameOk(f)
  {
    hide GetU64, PutU64, GetCommand, PutCommand, CommandOk;
    WordExact(b);
    var (tick, b1) := GetU64(b).value;
    WordExact(b1);
    var (count, b2) := GetU64(b1).value;
    forall x | GetCommand(x).Some?
      ensures x == PutCommand(GetCommand(x).value.0) + GetCommand(x).value.1 && CommandOk(GetCommand(x).value.0)
    {
      CommandExact(x);
    }
    ManyExact(count, PutCommand, GetCommand, CommandOk, b2);
  }

  // ---------------------------------------------------------------- queries

  datatype Comparison = Eq | Ne | Lt | Lte | Gt | Gte
  datatype Predicate = Predicate(column: Str, op: Comparison, value: Value)
  datatype Direction = Ascending | Descending
  datatype Order = Order(column: Str, direction: Direction)
  datatype Query = Query(
    table: Str, predicates: seq<Predicate>, order: Option<Order>, limit: Option<U32>, projection: Option<seq<Str>>)

  function ComparisonTag(op: Comparison): Byte
  {
    match op case Eq => 0 case Ne => 1 case Lt => 2 case Lte => 3 case Gt => 4 case Gte => 5
  }

  function ComparisonFromTag(n: Byte): Option<Comparison>
  {
    match n
    case 0 => Some(Eq) case 1 => Some(Ne) case 2 => Some(Lt) case 3 => Some(Lte) case 4 => Some(Gt) case 5 => Some(Gte)
    case _ => None
  }

  function PutPredicate(p: Predicate): Bytes
  {
    PutStr(p.column) + ([ComparisonTag(p.op)] + PutValue(p.value))
  }

  function GetPredicate(b: Bytes): Parsed<Predicate>
  {
    var (column, b1) :- GetStr(b);
    var (tag, b2) :- GetByte(b1);
    var op :- ComparisonFromTag(tag);
    var (value, end) :- GetValue(b2);
    Some((Predicate(column, op, value), end))
  }

  predicate PredicateOk(p: Predicate) { StrOk(p.column) && ValueOk(p.value) }

  function PutOrder(o: Order): Bytes { PutStr(o.column) + [if o.direction.Ascending? then 0 else 1] }

  function GetOrder(b: Bytes): Parsed<Order>
  {
    var (column, b1) :- GetStr(b);
    var (tag, end) :- GetByte(b1);
    if tag == 0 then Some((Order(column, Ascending), end))
    else if tag == 1 then Some((Order(column, Descending), end))
    else None
  }

  /** What the query builder accepts. */
  predicate QueryValid(q: Query)
  {
    && !Blank(q.table)
    && (forall i :: 0 <= i < |q.predicates| ==> !Blank(q.predicates[i].column))
    && (q.order.Some? ==> !Blank(q.order.value.column))
    && q.limit != Some(0)
    && (q.projection.Some? ==> forall i :: 0 <= i < |q.projection.value| ==> !Blank(q.projection.value[i]))
  }

  function PutQuery(q: Query): Bytes
  {
    PutStr(q.table) + (PutList(q.predicates, PutPredicate)
    + (PutOpt(q.order, PutOrder) + (PutOpt(q.limit, PutU32) + PutOpt(q.projection, PutNames))))
  }

  function GetQuery(b: Bytes): Parsed<Query>
  {
    var (table, b1) :- GetStr(b);
    var (predicates, b2) :- GetList(GetPredicate, b1);
    var (order, b3) :- GetFlagged(GetOrder, b2);
    var (limit, b4) :- GetFlagged(GetU32, b3);
    var (projection, end) :- GetFlagged(GetNames, b4);
    var q := Query(table, predicates, order, limit, projection);
    if QueryValid(q) then Some((q, end)) else None
  }

  ghost predicate QueryOk(q: Query)
  {
    && QueryValid(q) && StrOk(q.table) && ListOk(q.predicates, PredicateOk)
    && (q.order.Some? ==> StrOk(q.order.value.column))
    && (q.projection.Some? ==> NamesOk(q.projection.value))
  }

  lemma PredicateTrip(p: Predicate, rest: Bytes)
    requires PredicateOk(p)
    ensures GetPredicate(PutPredicate(p) + rest) == Some((p, rest))
  {
    hide GetStr, PutStr, GetValue, PutValue;
    var b2 := PutValue(p.value) + rest;
    assert PutPredicate(p) + rest == PutStr(p.column) + ([ComparisonTag(p.op)] + b2);
    StrTrip(p.column, [ComparisonTag(p.op)] + b2);
    ByteTrip(ComparisonTag(p.op), b2);
    ValueTrip(p.value, rest);
  }

  lemma OrderTrip(o: Order, rest: Bytes)
    requires StrOk(o.column)
    ensures GetOrder(PutOrder(o) + rest) == Some((o, rest))
  {
    hide GetStr, PutStr;
    var tag: Byte := if o.direction.Ascending? then 0 else 1;
    assert PutOrder(o) + rest == PutStr(o.column) + ([tag] + rest);
    StrTrip(o.column, [tag] + rest);
    ByteTrip(tag, rest);
  }

  lemma QueryTrip(q: Query, rest: Bytes)
    requires QueryOk(q)
    ensures GetQuery(PutQuery(q) + rest) == Some((q, rest))
  {
    hide GetStr, PutStr, GetList, PutList, GetFlagged, PutOpt, GetU32, PutU32, GetNames, PutNames, QueryValid,
         GetPredicate, PutPredicate, GetOrder, PutOrder;
    var b4 := PutOpt(q.projection, PutNames) + rest;
    var b3 := PutOpt(q.limit, PutU32) + b4;
    var b2 := PutOpt(q.order, PutOrder) + b3;
    var b1 := PutList(q.predicates, PutPredicate) + b2;
    assert PutQuery(q) + rest == PutStr(q.table) + b1;
    StrTrip(q.table, b1);
    forall p, r | PredicateOk(p)
      ensures GetPredicate(PutPredicate(p) + r) == Some((p, r))
    {
      PredicateTrip(p, r);
    }
    ListTrip(q.predicates, PutPredicate, GetPredicate, PredicateOk, b2);
    if q.order.Some? { OrderTrip(q.order.value, b3); }
    OptTrip(q.order, PutOrder, GetOrder, b3);
    if q.limit.Some? { SmallTrip(q.limit.value, b4); }
    OptTrip(q.limit, PutU32, GetU32, b4);
    if q.projection.Some? { NamesTrip(q.projection.value, rest); }
    OptTrip(q.projection, PutNames, GetNames, rest);
  }

  lemma PredicateExact(b: Bytes)
    requires GetPredicate(b).Some?
    ensures var (p, end) := GetPredicate(b).value; b == PutPredicate(p) + end && PredicateOk(p)
  {
    hide GetStr, PutStr, GetValue, PutValue;
    StrExact(b);
    var (column, b1) := GetStr(b).value;
    ValueExact(b1[1..]);
    assert b1 == [b1[0]] + b1[1..];
  }

  lemma OrderExact(b: Bytes)
    requires GetOrder(b).Some?
    ensures var (o, end) := GetOrder(b).value; b == PutOrder(o) + end && StrOk(o.column)
  {
    hide GetStr, PutStr;
    StrExact(b);
    var (column, b1) := GetStr(b).value;
    assert b1 == [b1[0]] + b1[1..];
  }

  /** The three presence flags of an encoded query, where they can be read. */
  function QueryFlags(b: Bytes): Option<(Byte, Byte, Byte)>
  {
    var (_, b1) :- GetStr(b);
    var (_, b2) :- GetList(GetPredicate, b1);
    var (_, b3) :- GetFlagged(GetOrder, b2);
    var (_, b4) :- GetFlagged(GetU32, b3);
    var (flag, _) :- GetByte(b4);
    if b2 == [] || b3 == [] then None else Some((b2[0], b3[0], flag))
  }

  lemma FlaggedOrder(b: Bytes)
    requires GetFlagged(GetOrder, b).Some?
    ensures var (o, end) := GetFlagged(GetOrder, b).value;
      b != [] && (b == PutOpt(o, PutOrder) + end <==> b[0] <= 1) && (o.Some? ==> StrOk(o.value.column))
  {
    hide GetOrder, PutOrder;
    if GetOrder(b[1..]).Some? { OrderExact(b[1..]); }
    OptExact(PutOrder, GetOrder, b);
  }

  lemma FlaggedLimit(b: Bytes)
    requires GetFlagged(GetU32, b).Some?
    ensures var (o, end) := GetFlagged(GetU32, b).value; b != [] && (b == PutOpt(o, PutU32) + end <==> b[0] <= 1)
  {
    hide GetU32, PutU32;
    SmallExact(b[1..]);
    OptExact(PutU32, GetU32, b);
  }

  lemma FlaggedNames(b: Bytes)
    requires GetFlagged(GetNames, b).Some?
    ensures var (o, end) := GetFlagged(GetNames, b).value;
      b != [] && (b == PutOpt(o, PutNames) + end <==> b[0] <= 1) && (o.Some? ==> NamesOk(o.value))
  {
    hide GetNames, PutNames, NamesOk;
    if GetNames(b[1..]).Some? { NamesExact(b[1..]); }
    OptExact(PutNames, GetNames, b);
  }

  /** An absent flag is encoded as 0, so nothing encodes as a larger one. */
  lemma OptHead<T>(o: Option<T>, put: T -> Bytes, rest: Bytes)
    ensures PutOpt(o, put) + rest != [] && (PutOpt(o, put) + rest)[0] <= 1
  {
  }

  /** What is accepted as a query is well formed, and its bytes are the
      encoding exactly if every presence flag is 0 or 1. */
  lemma QueryExact(b: Bytes)
    requires GetQuery(b).Some?
    ensures var (q, end) := GetQuery(b).value;
      && QueryOk(q) && QueryFlags(b).Some?
      && var (f, g, h) := QueryFlags(b).value;
      b == PutQuery(q) + end <==> f <= 1 && g <= 1 && h <= 1
  {
    hide GetStr, PutStr, GetList, PutList, GetFlagged, PutOpt, GetU32, PutU32, GetNames, PutNames, QueryValid,
         GetPredicate, PutPredicate, GetOrder, PutOrder, PredicateOk, NamesOk;
    StrExact(b);
    var (table, b1) := GetStr(b).value;
    forall x | GetPredicate(x).Some?
      ensures x == PutPredicate(GetPredicate(x).value.0) + GetPredicate(x).value.1 && PredicateOk(GetPredicate(x).value.0)
    {
      PredicateExact(x);
    }
    ListExact(PutPredicate, GetPredicate, PredicateOk, b1);
    var (predicates, b2) := GetList(GetPredicate, b1).value;
    FlaggedOrder(b2);
    var (order, b3) := GetFlagged(GetOrder, b2).value;
    FlaggedLimit(b3);
    var (limit, b4) := GetFlagged(GetU32, b3).value;
    FlaggedNames(b4);
    var (q, end) := GetQuery(b).value;
    var p4 := PutOpt(q.projection, PutNames) + end;
    var p3 := PutOpt(limit, PutU32) + p4;
    var p2 := PutOpt(order, PutOrder) + p3;
    var front := PutStr(table) + PutList(predicates, PutPredicate);
    assert b == front + b2;
    assert PutQuery(q) + end == front + p2;
    SameTail(front, b2, p2);
    OptHead(order, PutOrder, p3);
    OptHead(limit, PutU32, p4);
    OptHead(q.projection, PutNames, end);
    if b2[0] <= 1 { SameTail(PutOpt(order, PutOrder), b3, p3); }
    if b3[0] <= 1 { SameTail(PutOpt(limit, PutU32), b4, p4); }
  }

  lemma SameTail(front: Bytes, a: Bytes, b: Bytes)
    ensures front + a == front + b <==> a == b
  {
    assert (front + a)[|front|..] == a && (front + b)[|front|..] == b;
  }

  // ------------------------------------------------------ reducer arguments

  /** One argument; events have the same form. */
  datatype Named = Named(name: Str, value: Value)

  function PutNamed(a: Named): Bytes { PutStr(a.name) + PutValue(a.value) }

  function GetNamed(b: Bytes): Parsed<Named>
  {
    var (name, b1) :- GetStr(b);
    var (value, end) :- GetValue(b1);
    Some((Named(name, value), end))
  }

  predicate NamedOk(a: Named) { StrOk(a.name) && ValueOk(a.value) }

  lemma NamedTrip(a: Named, rest: Bytes)
    requires NamedOk(a)
    ensures GetNamed(PutNamed(a) + rest) == Some((a, rest))
    ensures |PutNamed(a)| >= 1
  {
    hide GetStr, GetValue;
    assert PutNamed(a) + rest == PutStr(a.name) + (PutValue(a.value) + rest);
    StrTrip(a.name, PutValue(a.value) + rest);
    ValueTrip(a.value, rest);
  }

  lemma NamedLossless()
    ensures Lossless(PutNamed, GetNamed, NamedOk)
    ensures forall a :: |PutNamed(a)| >= 1
  {
    hide GetNamed;
    forall a, r | NamedOk(a)
      ensures GetNamed(PutNamed(a) + r) == Some((a, r))
    {
      NamedTrip(a, r);
    }
  }

  /** Byte order, the order of the argument map. */
  predicate Less(a: Bytes, b: Bytes)
  {
    b != [] && (a == [] || a[0] < b[0] || (a[0] == b[0] && Less(a[1..], b[1..])))
  }

  lemma {:induction false} LessAsymmetric(a: Bytes, b: Bytes)
    requires Less(a, b)
    ensures !Less(b, a) && a != b
  {
    if a != [] && a[0] == b[0] {
      LessAsymmetric(a[1..], b[1..]);
    }
  }

  /** The argument map, as its entries in key order. */
  ghost predicate InKeyOrder(args: seq<Named>)
  {
    forall i, j :: 0 <= i < j < |args| ==> Less(args[i].name, args[j].name)
  }

  /** Insertion into the map: a repeated name replaces its value. */
  function Inserted(args: seq<Named>, a: Named): seq<Named>
  {
    if args == [] || Less(a.name, args[0].name) then [a] + args
    else if a.name == args[0].name then [a] + args[1..]
    else [args[0]] + Inserted(args[1..], a)
  }

  /** All entries inserted in the order they arrive. */
  function Collected(args: seq<Named>): seq<Named>
  {
    if args == [] then [] else Inserted(Collected(args[..|args| - 1]), args[|args| - 1])
  }

  lemma {:induction false} InsertedLast(args: seq<Named>, a: Named)
    requires forall i :: 0 <= i < |args| ==> Less(args[i].name, a.name)
    ensures Inserted(args, a) == args + [a]
  {
    if args != [] {
      LessAsymmetric(args[0].name, a.name);
      InsertedLast(args[1..], a);
      assert args == [args[0]] + args[1..];
    }
  }

  lemma {:induction false} CollectedInOrder(args: seq<Named>)
    requires InKeyOrder(args)
    ensures Collected(args) == args
  {
    if args != [] {
      var front := args[..|args| - 1];
      CollectedInOrder(front);
      InsertedLast(front, args[|args| - 1]);
      assert args == front + [args[|args| - 1]];
    }
  }

  /** The map entries in key order. */
  function PutArgs(args: seq<Named>): Bytes { PutList(args, PutNamed) }

  function GetArgs(b: Bytes): Parsed<seq<Named>>
  {
    var (count, b1) :- GetU64(b);
    if count > |b1| then None
    else
      var (entries, end) :- GetMany(count, GetNamed, b1);
      Some((Collected(entries), end))
  }

  ghost predicate ArgsOk(args: seq<Named>) { InKeyOrder(args) && ListOk(args, NamedOk) }

  lemma ArgsTrip(args: seq<Named>, rest: Bytes)
    requires ArgsOk(args)
    ensures GetArgs(PutArgs(args) + rest) == Some((args, rest))
  {
    hide GetU64, PutU64, GetNamed, PutNamed, Less, Collected;
    var b1 := PutAll(args, PutNamed) + rest;
    assert PutArgs(args) + rest == PutU64(|args|) + b1;
    U64Trip(|args|, b1);
    NamedLossless();
    SizeOfAll(args, PutNamed, 1);
    ManyTrip(args, PutNamed, GetNamed, NamedOk, rest);
    CollectedInOrder(args);
  }

  lemma NamedExact(b: Bytes)
    requires GetNamed(b).Some?
    ensures var (a, end) := GetNamed(b).value; b == PutNamed(a) + end && NamedOk(a)
  {
    hide GetStr, PutStr, GetValue, PutValue;
    StrExact(b);
    ValueExact(GetStr(b).value.1);
  }

  lemma AllNamedExact()
    ensures Exact(PutNamed, GetNamed, NamedOk)
  {
    hide GetNamed, PutNamed, NamedOk;
    forall x | GetNamed(x).Some?
      ensures x == PutNamed(GetNamed(x).value.0) + GetNamed(x).value.1 && NamedOk(GetNamed(x).value.0)
    {
      NamedExact(x);
    }
  }

  lemma {:induction false} LessTotal(a: Bytes, b: Bytes)
    requires !Less(a, b) && a != b
    ensures Less(b, a)
  {
    if a != [] && b != [] && a[0] == b[0] {
      assert a == [a[0]] + a[1..] && b == [b[0]] + b[1..];
      LessTotal(a[1..], b[1..]);
    }
  }

  lemma {:induction false} LessTransitive(a: Bytes, b: Bytes, c: Bytes)
    requires Less(a, b) && Less(b, c)
    ensures Less(a, c)
  {
    if a != [] && a[0] == b[0] && b[0] == c[0] {
      LessTransitive(a[1..], b[1..], c[1..]);
    }
  }

  /** The value under a name, if there is one. */
  function ValueAt(args: seq<Named>, name: Str): Option<Value>
  {
    if args == [] then None
    else if args[|args| - 1].name == name then Some(args[|args| - 1].value)
    else ValueAt(args[..|args| - 1], name)
  }

  lemma {:induction false} ValueAtFront(a: Named, args: seq<Named>, name: Str)
    ensures ValueAt([a] + args, name)
            == if ValueAt(args, name).Some? then ValueAt(args, name) else if a.name == name then Some(a.value) else None
  {
    if args != [] {
      var last := |args| - 1;
      assert ([a] + args)[..last + 1] == [a] + args[..last];
      ValueAtFront(a, args[..last], name);
    } else {
      assert [a] + [] == [a] && [a][..0] == [];
    }
  }

  lemma {:induction false} NoValue(args: seq<Named>, name: Str)
    requires forall i :: 0 <= i < |args| ==> args[i].name != name
    ensures ValueAt(args, name) == None
  {
    if args != [] { NoValue(args[..|args| - 1], name); }
  }

  /** Insertion keeps the order and replaces exactly the value of its name. */
  lemma {:induction false} InsertedKeeps(args: seq<Named>, a: Named)
    requires InKeyOrder(args)
    ensures InKeyOrder(Inserted(args, a)) && |Inserted(args, a)| <= |args| + 1
    ensures forall x :: x in Inserted(args, a) ==> x == a || x in args
  {
    hide Less;
    if args != [] && !Less(a.name, args[0].name) {
      var rest := args[1..];
      if a.name != args[0].name {
        LessTotal(a.name, args[0].name);
        InsertedKeeps(rest, a);
        var more := Inserted(rest, a);
        forall i | 0 <= i < |more|
          ensures Less(args[0].name, more[i].name)
        {
          assert more[i] in more;
          if more[i] != a {
            var j :| 0 <= j < |rest| && rest[j] == more[i];
            assert args[j + 1] == more[i];
          }
        }
      }
    } else if args != [] {
      forall i | 0 <= i < |args|
        ensures Less(a.name, args[i].name)
      {
        if i > 0 { LessTransitive(a.name, args[0].name, args[i].name); }
      }
    }
  }

  lemma {:induction false} InsertedValue(args: seq<Named>, a: Named, name: Str)
    requires InKeyOrder(args)
    ensures ValueAt(Inserted(args, a), name) == if name == a.name then Some(a.value) else ValueAt(args, name)
  {
    hide Less;
    if args == [] || Less(a.name, args[0].name) {
      ValueAtFront(a, args, name);
      if name == a.name {
        forall i | 0 <= i < |args|
          ensures args[i].name != a.name
        {
          if i > 0 { LessTransitive(a.name, args[0].name, args[i].name); }
          LessAsymmetric(a.name, args[i].name);
        }
        NoValue(args, name);
      }
    } else {
      var rest := args[1..];
      assert args == [args[0]] + rest;
      ValueAtFront(args[0], rest, name);
      if a.name == args[0].name {
        ValueAtFront(a, rest, name);
        if name == a.name {
          forall i | 0 <= i < |rest|
            ensures rest[i].name != a.name
          {
            LessAsymmetric(args[0].name, args[i + 1].name);
          }
          NoValue(rest, name);
        }
      } else {
        InsertedValue(rest, a, name);
        ValueAtFront(args[0], Inserted(rest, a), name);
      }
    }
  }

  /** However the entries arrive, the map has every name once, in order, with
      the value that arrived last. */
  lemma {:induction false} CollectedMap(args: seq<Named>, name: Str)
    ensures InKeyOrder(Collected(args)) && |Collected(args)| <= |args|
    ensures forall x :: x in Collected(args) ==> x in args
    ensures ValueAt(Collected(args), name) == ValueAt(args, name)
  {
    hide Less, Inserted;
    if args != [] {
      var front, a := args[..|args| - 1], args[|args| - 1];
      CollectedMap(front, name);
      InsertedKeeps(Collected(front), a);
      InsertedValue(Collected(front), a, name);
    }
  }

  /** The entries as they are listed. */
  function ListedArgs(b: Bytes): Option<seq<Named>>
  {
    var (entries, _) :- GetList(GetNamed, b);
    Some(entries)
  }

  /** What is accepted as arguments is a map, and its bytes are the encoding
      exactly if the entries are listed in key order, each name once. */
  lemma ArgsExact(b: Bytes)
    requires GetArgs(b).Some?
    ensures var (args, end) := GetArgs(b).value;
      && ArgsOk(args) && ListedArgs(b).Some?
      && (b == PutArgs(args) + end <==> InKeyOrder(ListedArgs(b).value))
      && (forall name :: ValueAt(args, name) == ValueAt(ListedArgs(b).value, name))
  {
    hide GetU64, PutU64, GetNamed, PutNamed, NamedOk, Less, Collected, ValueAt;
    AllNamedExact();
    ListExact(PutNamed, GetNamed, NamedOk, b);
    var (entries, end) := GetList(GetNamed, b).value;
    var args := Collected(entries);
    forall name
      ensures ValueAt(args, name) == ValueAt(entries, name)
    {
      CollectedMap(entries, name);
    }
    CollectedMap(entries, []);
    if InKeyOrder(entries) { CollectedInOrder(entries); }
    if b == PutArgs(args) + end {
      NamedLossless();
      ListTrip(args, PutNamed, GetNamed, NamedOk, end);
    }
  }

  // --------------------------------------------------- changes and deltas

  datatype Kind = InsertKind | UpdateKind | DeleteKind

  function KindTag(k: Kind): Byte { match k case InsertKind => 1 case UpdateKind => 2 case DeleteKind => 3 }

  function GetKind(b: Bytes): Parsed<Kind>
  {
    var (tag, rest) :- GetByte(b);
    match tag
    case 1 => Some((InsertKind, rest))
    case 2 => Some((UpdateKind, rest))
    case 3 => Some((DeleteKind, rest))
    case _ => None
  }

  lemma KindTrip(k: Kind, rest: Bytes)
    ensures GetKind([KindTag(k)] + rest) == Some((k, rest))
  {
  }

  datatype Change = Change(
    table: U64, kind: Kind, rowId: U64,
    oldRow: Option<Row>, newRow: Option<Row>, oldVersion: Option<U64>, newVersion: Option<U64>)

  /** Rows and versions exactly as the kind of change has them. */
  predicate ChangeShaped(c: Change)
  {
    && (c.oldRow.Some? <==> !c.kind.InsertKind?) && (c.oldVersion.Some? <==> !c.kind.InsertKind?)
    && (c.newRow.Some? <==> !c.kind.DeleteKind?) && (c.newVersion.Some? <==> !c.kind.DeleteKind?)
  }

  /** `Change::insert`, `update` and `delete` keep what their kind has; what
      it needs must be there. */
  function Shaped(c: Change): Option<Change>
  {
    match c.kind
    case InsertKind =>
      if c.newRow.Some? && c.newVersion.Some? then Some(c.(oldRow := None, oldVersion := None)) else None
    case UpdateKind =>
      if c.oldRow.Some? && c.oldVersion.Some? && c.newRow.Some? && c.newVersion.Some? then Some(c) else None
    case DeleteKind =>
      if c.oldRow.Some? && c.oldVersion.Some? then Some(c.(newRow := None, newVersion := None)) else None
  }

  function PutChange(c: Change): Bytes
  {
    PutU64(c.table) + ([KindTag(c.kind)] + (PutU64(c.rowId)
    + (PutOpt(c.oldRow, PutRow) + (PutOpt(c.newRow, PutRow)
    + (PutOpt(c.oldVersion, PutVersion) + PutOpt(c.newVersion, PutVersion))))))
  }

  function PutVersion(v: U64): Bytes { PutU64(v) }

  /** The fields as they are listed. */
  function GetListed(b: Bytes): Parsed<Change>
  {
    var (table, b1) :- GetU64(b);
    var (kind, b2) :- GetKind(b1);
    var (rowId, b3) :- GetU64(b2);
    var (oldRow, b4) :- GetOpt(GetRow, b3);
    var (newRow, b5) :- GetOpt(GetRow, b4);
    var (oldVersion, b6) :- GetOpt(GetU64, b5);
    var (newVersion, end) :- GetOpt(GetU64, b6);
    Some((Change(table, kind, rowId, oldRow, newRow, oldVersion, newVersion), end))
  }

  function GetChange(b: Bytes): Parsed<Change>
  {
    var (listed, end) :- GetListed(b);
    var c :- Shaped(listed);
    Some((c, end))
  }

  predicate RowSizes(row: Row) { |row| < MAX_COUNT && forall v :: v in row ==> ValueOk(v) }

  predicate ChangeOk(c: Change)
  {
    ChangeShaped(c) && (c.oldRow.Some? ==> RowSizes(c.oldRow.value)) && (c.newRow.Some? ==> RowSizes(c.newRow.value))
  }

  lemma OptRowTrip(o: Option<Row>, rest: Bytes)
    requires o.Some? ==> RowSizes(o.value)
    ensures GetOpt(GetRow, PutOpt(o, PutRow) + rest) == Some((o, rest))
  {
    hide GetRow, PutRow;
    if o.Some? { RowTrip(o.value, rest); }
    OptTrip(o, PutRow, GetRow, rest);
  }

  lemma OptVersionTrip(o: Option<U64>, rest: Bytes)
    ensures GetOpt(GetU64, PutOpt(o, PutVersion) + rest) == Some((o, rest))
  {
    if o.Some? { U64Trip(o.value, rest); }
    OptTrip(o, PutVersion, GetU64, rest);
  }

  lemma ChangeTrip(c: Change, rest: Bytes)
    requires ChangeOk(c)
    ensures GetChange(PutChange(c) + rest) == Some((c, rest))
  {
    hide GetListed, PutChange;
    ListedTrip(c, rest);
  }

  /** Rows of any length the codec can count. */
  predicate ListedOk(c: Change)
  {
    (c.oldRow.Some? ==> RowSizes(c.oldRow.value)) && (c.newRow.Some? ==> RowSizes(c.newRow.value))
  }

  lemma ListedTrip(c: Change, rest: Bytes)
    requires ListedOk(c)
    ensures GetListed(PutChange(c) + rest) == Some((c, rest))
  {
    hide GetU64, PutU64, GetOpt, PutOpt, GetKind, KindTag, GetRow, PutRow;
    var b6 := PutOpt(c.newVersion, PutVersion) + rest;
    var b5 := PutOpt(c.oldVersion, PutVersion) + b6;
    var b4 := PutOpt(c.newRow, PutRow) + b5;
    var b3 := PutOpt(c.oldRow, PutRow) + b4;
    var b2 := PutU64(c.rowId) + b3;
    var b1 := [KindTag(c.kind)] + b2;
    assert PutChange(c) + rest == PutU64(c.table) + b1;
    U64Trip(c.table, b1);
    KindTrip(c.kind, b2);
    U64Trip(c.rowId, b3);
    OptRowTrip(c.oldRow, b4);
    OptRowTrip(c.newRow, b5);
    OptVersionTrip(c.oldVersion, b6);
    OptVersionTrip(c.newVersion, rest);
  }

  lemma OptRowExact(b: Bytes)
    requires GetOpt(GetRow, b).Some?
    ensures var (o, end) := GetOpt(GetRow, b).value;
      b == PutOpt(o, PutRow) + end && (o.Some? ==> RowSizes(o.value))
  {
    hide GetRow, PutRow;
    if GetRow(b[1..]).Some? { RowExact(b[1..]); }
    OptExact(PutRow, GetRow, b);
  }

  lemma OptVersionExact(b: Bytes)
    requires GetOpt(GetU64, b).Some?
    ensures var (o, end) := GetOpt(GetU64, b).value; b == PutOpt(o, PutVersion) + end
  {
    hide GetU64, PutU64;
    if GetU64(b[1..]).Some? { WordExact(b[1..]); }
    OptExact(PutVersion, GetU64, b);
  }

  lemma KindExact(b: Bytes)
    requires GetKind(b).Some?
    ensures var (k, end) := GetKind(b).value; b == [KindTag(k)] + end
  {
  }

  lemma ListedExact(b: Bytes)
    requires GetListed(b).Some?
    ensures var (c, end) := GetListed(b).value; b == PutChange(c) + end && ListedOk(c)
  {
    hide GetU64, PutU64, GetOpt, PutOpt, GetKind, KindTag, GetRow, PutRow, RowSizes, PutVersion;
    WordExact(b);
    var b1 := GetU64(b).value.1;
    KindExact(b1);
    var b2 := GetKind(b1).value.1;
    WordExact(b2);
    var b3 := GetU64(b2).value.1;
    OptRowExact(b3);
    var b4 := GetOpt(GetRow, b3).value.1;
    OptRowExact(b4);
    var b5 := GetOpt(GetRow, b4).value.1;
    OptVersionExact(b5);
    OptVersionExact(GetOpt(GetU64, b5).value.1);
  }

  lemma AllListed()
    ensures Exact(PutChange, GetListed, ListedOk) && Lossless(PutChange, GetListed, ListedOk)
  {
    hide GetListed, PutChange, ListedOk;
    forall x | GetListed(x).Some?
      ensures x == PutChange(GetListed(x).value.0) + GetListed(x).value.1 && ListedOk(GetListed(x).value.0)
    {
      ListedExact(x);
    }
    forall c, r | ListedOk(c)
      ensures GetListed(PutChange(c) + r) == Some((c, r))
    {
      ListedTrip(c, r);
    }
  }

  /** Shaping keeps exactly the changes that have their shape already. */
  lemma ShapedExact(c: Change)
    requires Shaped(c).Some?
    ensures ChangeShaped(Shaped(c).value) && (Shaped(c).value == c <==> ChangeShaped(c))
    ensures ListedOk(c) ==> ChangeOk(Shaped(c).value)
  {
  }

  /** The changes a decoder returns are the listed ones, shaped. */
  lemma {:induction false} ShapedMany(n: nat, b: Bytes)
    requires GetMany(n, GetChange, b).Some?
    ensures var (cs, end) := GetMany(n, GetChange, b).value;
      var listed := GetMany(n, GetListed, b);
      && listed.Some? && listed.value.1 == end
      && forall i :: 0 <= i < n ==> Shaped(listed.value.0[i]) == Some(cs[i])
  {
    hide GetListed, Shaped;
    if n > 0 { ShapedMany(n - 1, GetChange(b).value.1); }
  }

  /** The changes as they are listed. */
  function ListedChanges(b: Bytes): Option<seq<Change>>
  {
    var (cs, _) :- GetList(GetListed, b);
    Some(cs)
  }

  ghost predicate AllShaped(cs: seq<Change>)
  {
    forall c :: c in cs ==> ChangeShaped(c)
  }

  /** What is accepted as changes has the shape of its kind, and its bytes are
      the encoding exactly if nothing superfluous was listed. */
  lemma ChangesExact(b: Bytes)
    requires GetList(GetChange, b).Some?
    ensures var (cs, end) := GetList(GetChange, b).value;
      && ListOk(cs, ChangeOk) && ListedChanges(b).Some?
      && (b == PutList(cs, PutChange) + end <==> AllShaped(ListedChanges(b).value))
  {
    hide GetListed, PutChange, ListedOk, ChangeOk, Shaped, ChangeShaped, GetU64, PutU64;
    var (n, after) := GetU64(b).value;
    ShapedMany(n, after);
    AllListed();
    ListExact(PutChange, GetListed, ListedOk, b);
    var (cs, end) := GetList(GetChange, b).value;
    var listed := GetList(GetListed, b).value.0;
    forall i | 0 <= i < n
      ensures ChangeOk(cs[i]) && (cs[i] == listed[i] <==> ChangeShaped(listed[i])) && ListedOk(cs[i])
    {
      assert listed[i] in listed;
      ShapedExact(listed[i]);
      ShapedSizes(cs[i]);
    }
    if AllShaped(listed) {
      assert forall i :: 0 <= i < n ==> listed[i] in listed;
      assert cs == listed;
    }
    if b == PutList(cs, PutChange) + end {
      assert ListOk(cs, ListedOk);
      ListTrip(cs, PutChange, GetListed, ListedOk, end);
      assert cs == listed;
    }
  }

  lemma ShapedSizes(c: Change)
    requires ChangeOk(c)
    ensures ListedOk(c)
  {
  }

  datatype Delivered = Delivered(rowId: U64, row: Row)

  function PutDelivered(d: Delivered): Bytes { PutU64(d.rowId) + PutRow(d.row) }

  function GetDelivered(b: Bytes): Parsed<Delivered>
  {
    var (rowId, b1) :- GetU64(b);
    var (row, end) :- GetRow(b1);
    Some((Delivered(rowId, row), end))
  }

  predicate DeliveredOk(d: Delivered) { RowSizes(d.row) }

  lemma DeliveredTrip(d: Delivered, rest: Bytes)
    requires DeliveredOk(d)
    ensures GetDelivered(PutDelivered(d) + rest) == Some((d, rest))
  {
    hide GetU64, PutU64, GetRow, PutRow;
    assert PutDelivered(d) + rest == PutU64(d.rowId) + (PutRow(d.row) + rest);
    U64Trip(d.rowId, PutRow(d.row) + rest);
    RowTrip(d.row, rest);
  }

  /** One row transition; a delete carries no row. */
  datatype Delta = Delta(seqNo: U64, kind: Kind, rowId: U64, row: Option<Delivered>)

  /** Encoding an insert or update without a row would panic. */
  predicate HasRow(d: Delta) { d.kind.DeleteKind? || d.row.Some? }

  function PutDelta(d: Delta): Bytes
  {
    PutU64(d.seqNo) + ([KindTag(d.kind)] + (PutU64(d.rowId)
    + if d.kind.DeleteKind? || d.row.None? then [] else PutRow(d.row.value.row)))
  }

  function GetDelta(b: Bytes): Parsed<Delta>
  {
    var (seqNo, b1) :- GetU64(b);
    var (kind, b2) :- GetKind(b1);
    var (rowId, b3) :- GetU64(b2);
    if kind.DeleteKind? then Some((Delta(seqNo, kind, rowId, None), b3))
    else
      var (row, end) :- GetRow(b3);
      Some((Delta(seqNo, kind, rowId, Some(Delivered(rowId, row))), end))
  }

  predicate DeltaOk(d: Delta)
  {
    && (d.row.None? <==> d.kind.DeleteKind?)
    && (d.row.Some? ==> d.row.value.rowId == d.rowId && RowSizes(d.row.value.row))
  }

  lemma DeltaTrip(d: Delta, rest: Bytes)
    requires DeltaOk(d)
    ensures GetDelta(PutDelta(d) + rest) == Some((d, rest))
  {
    hide GetU64, PutU64, GetKind, KindTag, GetRow, PutRow;
    var tail := if d.kind.DeleteKind? then [] else PutRow(d.row.value.row);
    var b3 := tail + rest;
    var b2 := PutU64(d.rowId) + b3;
    assert PutDelta(d) + rest == PutU64(d.seqNo) + ([KindTag(d.kind)] + b2);
    U64Trip(d.seqNo, [KindTag(d.kind)] + b2);
    KindTrip(d.kind, b2);
    U64Trip(d.rowId, b3);
    assert [] + rest == rest;
    if d.row.Some? { RowTrip(d.row.value.row, rest); }
  }

  lemma ElementsLossless()
    ensures Lossless(PutChange, GetChange, ChangeOk)
    ensures Lossless(PutDelivered, GetDelivered, DeliveredOk)
    ensures Lossless(PutDelta, GetDelta, DeltaOk)
  {
    hide GetChange, PutChange, ChangeOk, GetDelivered, PutDelivered, DeliveredOk, GetDelta, PutDelta, DeltaOk;
    forall c, r | ChangeOk(c)
      ensures GetChange(PutChange(c) + r) == Some((c, r))
    {
      ChangeTrip(c, r);
    }
    forall d, r | DeliveredOk(d)
      ensures GetDelivered(PutDelivered(d) + r) == Some((d, r))
    {
      DeliveredTrip(d, r);
    }
    forall d, r | DeltaOk(d)
      ensures GetDelta(PutDelta(d) + r) == Some((d, r))
    {
      DeltaTrip(d, r);
    }
  }

  lemma DeliveredExact(b: Bytes)
    requires GetDelivered(b).Some?
    ensures var (d, end) := GetDelivered(b).value; b == PutDelivered(d) + end && DeliveredOk(d)
  {
    hide GetU64, PutU64, GetRow, PutRow;
    WordExact(b);
    RowExact(GetU64(b).value.1);
  }

  lemma DeltaExact(b: Bytes)
    requires GetDelta(b).Some?
    ensures var (d, end) := GetDelta(b).value; b == PutDelta(d) + end && DeltaOk(d)
  {
    hide GetU64, PutU64, GetKind, KindTag, GetRow, PutRow;
    WordExact(b);
    var b1 := GetU64(b).value.1;
    KindExact(b1);
    var b2 := GetKind(b1).value.1;
    WordExact(b2);
    var b3 := GetU64(b2).value.1;
    if GetRow(b3).Some? { RowExact(b3); }
    assert [] + b3 == b3;
  }

  lemma ElementsExact()
    ensures Exact(PutDelivered, GetDelivered, DeliveredOk) && Exact(PutDelta, GetDelta, DeltaOk)
  {
    hide GetDelivered, PutDelivered, DeliveredOk, GetDelta, PutDelta, DeltaOk;
    forall x | GetDelivered(x).Some?
      ensures x == PutDelivered(GetDelivered(x).value.0) + GetDelivered(x).value.1 && DeliveredOk(GetDelivered(x).value.0)
    {
      DeliveredExact(x);
    }
    forall x | GetDelta(x).Some?
      ensures x == PutDelta(GetDelta(x).value.0) + GetDelta(x).value.1 && DeltaOk(GetDelta(x).value.0)
    {
      DeltaExact(x);
    }
  }
}
