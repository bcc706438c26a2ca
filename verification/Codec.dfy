/** Serialized values and the body of a call packet. */
module Codec {
  import opened Prelude
  import opened Packets
  import opened Bytes
  import opened Stream

  datatype Row = Row(name: seq<byte>, returnType: seq<byte>, paramsTypes: seq<byte>, comment: seq<byte>)

  /** The values the library serializes itself. Floating point values are copied
      as opaque bytes. */
  datatype Value =
    | IntV(w: nat, signed: bool, v: int)
    | BoolV(b: bool)
    | RawV(raw: seq<byte>)
    | StrV(s: seq<byte>)
    | VecV(itemW: nat, itemSigned: bool, items: seq<int>)
    | RowsV(rows: seq<Row>)

  /** A value's type, which tells the reader what to read. */
  datatype Shape = IntS(w: nat, signed: bool) | BoolS | RawS(n: nat) | StrS | VecS(w: nat, signed: bool) | RowsS

  function ShapeOf(v: Value): Shape {
    match v
    case IntV(w, signed, _) => IntS(w, signed)
    case BoolV(_) => BoolS
    case RawV(raw) => RawS(|raw|)
    case StrV(_) => StrS
    case VecV(w, signed, _) => VecS(w, signed)
    case RowsV(_) => RowsS
  }

  predicate Width(w: nat) {
    w == 1 || w == 2 || w == 4 || w == 8
  }

  predicate ShapeOk(s: Shape) {
    match s
    case IntS(w, _) => Width(w)
    case VecS(w, _) => Width(w)
    case RawS(n) => n == 4 || n == 8
    case _ => true
  }

  /** The value is one that its C++ type can hold. */
  predicate ValueOk(v: Value) {
    && ShapeOk(ShapeOf(v))
    && (v.IntV? ==> InRange(v.v, v.w, v.signed))
    && (v.VecV? ==> forall x :: x in v.items ==> InRange(x, v.itemW, v.itemSigned))
  }

  // ----- The format ----------------------------------------------------------------

  function EncStr(s: seq<byte>): (r: seq<byte>)
    ensures |r| == 4 + |s|
  {
    ToBytes(|s|, 4) + s
  }

  function EncInts(items: seq<int>, w: nat): seq<byte> {
    if items == [] then [] else EncInts(items[..|items| - 1], w) + ToBytes(items[|items| - 1], w)
  }

  function EncPair(a: seq<byte>, b: seq<byte>): seq<byte> {
    EncStr(a) + EncStr(b)
  }

  function EncRow(r: Row): seq<byte> {
    EncPair(r.name, r.returnType) + EncPair(r.paramsTypes, r.comment)
  }

  function EncRows(rows: seq<Row>): seq<byte> {
    if rows == [] then [] else EncRows(rows[..|rows| - 1]) + EncRow(rows[|rows| - 1])
  }

  function EncBool(b: bool): seq<byte> {
    [if b then 1 else 0]
  }

  function Enc(v: Value): seq<byte> {
    match v
    case IntV(w, _, x) => ToBytes(x, w)
    case BoolV(b) => EncBool(b)
    case RawV(raw) => raw
    case StrV(s) => EncStr(s)
    case VecV(w, _, items) => ToBytes(|items|, 4) + EncInts(items, w)
    case RowsV(rows) => ToBytes(|rows|, 4) + EncRows(rows)
  }

  function EncArgs(args: seq<Value>): seq<byte> {
    if args == [] then [] else EncArgs(args[..|args| - 1]) + Enc(args[|args| - 1])
  }

  const SEPARATOR: byte := 59

  /** The text that names a list of parameter types. */
  function ParamsText(types: seq<seq<byte>>): seq<byte> {
    if types == [] then [] else ParamsText(types[..|types| - 1]) + (types[|types| - 1] + [SEPARATOR])
  }

  /** A call: name, send_return, return type, parameter types, arguments. */
  datatype Call = Call(name: seq<byte>, sendReturn: bool, returnType: seq<byte>,
                       types: seq<seq<byte>>, args: seq<Value>)

  function EncSignature(c: Call): seq<byte> {
    EncStr(c.name) + (EncBool(c.sendReturn) + EncPair(c.returnType, ParamsText(c.types)))
  }

  /** The body of the call packet. */
  function CallBytes(c: Call): seq<byte> {
    EncSignature(c) + EncArgs(c.args)
  }

  function HeaderBytes(size: u32, ptype: u32, id: u32): (r: seq<byte>)
    ensures |r| == 12
  {
    ToBytes(size, 4) + (ToBytes(ptype, 4) + ToBytes(id, 4))
  }

  const HEADER_SIZE: nat := 12

  // ----- The pieces that are written, in order -------------------------------------

  function StrChunks(s: seq<byte>): seq<seq<byte>> {
    [ToBytes(|s|, 4), s]
  }

  function IntChunks(items: seq<int>, w: nat): seq<seq<byte>> {
    if items == [] then [] else IntChunks(items[..|items| - 1], w) + [ToBytes(items[|items| - 1], w)]
  }

  function RowChunks(r: Row): seq<seq<byte>> {
    StrChunks(r.name) + StrChunks(r.returnType) + StrChunks(r.paramsTypes) + StrChunks(r.comment)
  }

  function RowsChunks(rows: seq<Row>): seq<seq<byte>> {
    if rows == [] then [] else RowsChunks(rows[..|rows| - 1]) + RowChunks(rows[|rows| - 1])
  }

  function Chunks(v: Value): seq<seq<byte>> {
    match v
    case IntV(w, _, x) => [ToBytes(x, w)]
    case BoolV(b) => [EncBool(b)]
    case RawV(raw) => [raw]
    case StrV(s) => StrChunks(s)
    case VecV(w, _, items) => [ToBytes(|items|, 4)] + IntChunks(items, w)
    case RowsV(rows) => [ToBytes(|rows|, 4)] + RowsChunks(rows)
  }

  function ArgsChunks(args: seq<Value>): seq<seq<byte>> {
    if args == [] then [] else ArgsChunks(args[..|args| - 1]) + Chunks(args[|args| - 1])
  }

  function TypeChunks(types: seq<seq<byte>>): seq<seq<byte>> {
    if types == [] then [] else TypeChunks(types[..|types| - 1]) + [types[|types| - 1], [SEPARATOR]]
  }

  function SignatureChunks(c: Call): seq<seq<byte>> {
    StrChunks(c.name) + [EncBool(c.sendReturn)] + StrChunks(c.returnType)
    + [ToBytes(|ParamsText(c.types)|, 4)] + TypeChunks(c.types)
  }

  function CallChunks(c: Call): seq<seq<byte>> {
    SignatureChunks(c) + ArgsChunks(c.args)
  }

  function HeaderChunks(size: u32, ptype: u32, id: u32): seq<seq<byte>> {
    [ToBytes(size, 4), ToBytes(ptype, 4), ToBytes(id, 4)]
  }

  /** Pieces that are written one after the other make the concatenation. */
  lemma Join(a: seq<seq<byte>>, x: seq<byte>, b: seq<seq<byte>>, y: seq<byte>)
    requires Concat(a) == x && Concat(b) == y
    ensures Concat(a + b) == x + y && Total(a + b) == |x| + |y|
  {
    ConcatAppend(a, b);
  }

  lemma StrPieces(s: seq<byte>)
    ensures Concat(StrChunks(s)) == EncStr(s)
  {
    assert StrChunks(s) == [ToBytes(|s|, 4)] + [s];
    ConcatOne(ToBytes(|s|, 4));
    ConcatOne(s);
    Join([ToBytes(|s|, 4)], ToBytes(|s|, 4), [s], s);
  }

  lemma {:induction false} IntPieces(items: seq<int>, w: nat)
    ensures Concat(IntChunks(items, w)) == EncInts(items, w)
  {
    if items != [] {
      var init, x := items[..|items| - 1], items[|items| - 1];
      IntPieces(init, w);
      ConcatOne(ToBytes(x, w));
      Join(IntChunks(init, w), EncInts(init, w), [ToBytes(x, w)], ToBytes(x, w));
    }
  }

  lemma PairPieces(a: seq<byte>, b: seq<byte>)
    ensures Concat(StrChunks(a) + StrChunks(b)) == EncPair(a, b)
  {
    StrPieces(a);
    StrPieces(b);
    Join(StrChunks(a), EncStr(a), StrChunks(b), EncStr(b));
  }

  lemma RowPieces(r: Row)
    ensures Concat(RowChunks(r)) == EncRow(r)
  {
    var x, y := StrChunks(r.name) + StrChunks(r.returnType), StrChunks(r.paramsTypes) + StrChunks(r.comment);
    PairPieces(r.name, r.returnType);
    PairPieces(r.paramsTypes, r.comment);
    Join(x, EncPair(r.name, r.returnType), y, EncPair(r.paramsTypes, r.comment));
    assert RowChunks(r) == x + y;
  }

  lemma {:induction false} RowsPieces(rows: seq<Row>)
    ensures Concat(RowsChunks(rows)) == EncRows(rows)
  {
    if rows != [] {
      var init, r := rows[..|rows| - 1], rows[|rows| - 1];
      RowsPieces(init);
      RowPieces(r);
      Join(RowsChunks(init), EncRows(init), RowChunks(r), EncRow(r));
    }
  }

  lemma ValuePieces(v: Value)
    ensures Concat(Chunks(v)) == Enc(v)
  {
    match v {
      case IntV(w, _, x) => ConcatOne(ToBytes(x, w));
      case BoolV(b) => ConcatOne(EncBool(b));
      case RawV(raw) => ConcatOne(raw);
      case StrV(s) => StrPieces(s);
      case VecV(w, _, items) =>
        ConcatOne(ToBytes(|items|, 4));
        IntPieces(items, w);
        Join([ToBytes(|items|, 4)], ToBytes(|items|, 4), IntChunks(items, w), EncInts(items, w));
      case RowsV(rows) =>
        ConcatOne(ToBytes(|rows|, 4));
        RowsPieces(rows);
        Join([ToBytes(|rows|, 4)], ToBytes(|rows|, 4), RowsChunks(rows), EncRows(rows));
    }
  }

  lemma {:induction false} ArgsPieces(args: seq<Value>)
    ensures Concat(ArgsChunks(args)) == EncArgs(args)
  {
    if args != [] {
      var init, v := args[..|args| - 1], args[|args| - 1];
      ArgsPieces(init);
      ValuePieces(v);
      Join(ArgsChunks(init), EncArgs(init), Chunks(v), Enc(v));
    }
  }

  lemma {:induction false} TypePieces(types: seq<seq<byte>>)
    ensures Concat(TypeChunks(types)) == ParamsText(types)
  {
    if types != [] {
      var init, t := types[..|types| - 1], types[|types| - 1];
      TypePieces(init);
      assert [t, [SEPARATOR]] == [t] + [[SEPARATOR]];
      ConcatOne(t);
      ConcatOne([SEPARATOR]);
      Join([t], t, [[SEPARATOR]], [SEPARATOR]);
      Join(TypeChunks(init), ParamsText(init), [t, [SEPARATOR]], t + [SEPARATOR]);
    }
  }

  lemma TextPieces(types: seq<seq<byte>>)
    ensures Concat([ToBytes(|ParamsText(types)|, 4)] + TypeChunks(types)) == EncStr(ParamsText(types))
  {
    var n := ToBytes(|ParamsText(types)|, 4);
    ConcatOne(n);
    TypePieces(types);
    Join([n], n, TypeChunks(types), ParamsText(types));
  }

  lemma SignaturePieces(c: Call)
    ensures Concat(SignatureChunks(c)) == EncSignature(c)
  {
    hide Concat, Total, StrChunks, TypeChunks, ParamsText, EncStr, EncBool, ToBytes;
    var a, f, r := StrChunks(c.name), [EncBool(c.sendReturn)], StrChunks(c.returnType);
    var t := [ToBytes(|ParamsText(c.types)|, 4)] + TypeChunks(c.types);
    StrPieces(c.name);
    ConcatOne(EncBool(c.sendReturn));
    StrPieces(c.returnType);
    TextPieces(c.types);
    Join(r, EncStr(c.returnType), t, EncStr(ParamsText(c.types)));
    Join(f, EncBool(c.sendReturn), r + t, EncPair(c.returnType, ParamsText(c.types)));
    Join(a, EncStr(c.name), f + (r + t), EncBool(c.sendReturn) + EncPair(c.returnType, ParamsText(c.types)));
    assert SignatureChunks(c) == a + (f + (r + t));
  }

  /** The pieces of a call, written in order, are its body. */
  lemma CallPieces(c: Call)
    ensures Concat(CallChunks(c)) == CallBytes(c) && Total(CallChunks(c)) == |CallBytes(c)|
  {
    SignaturePieces(c);
    ArgsPieces(c.args);
    Join(SignatureChunks(c), EncSignature(c), ArgsChunks(c.args), EncArgs(c.args));
  }

  // ----- Reading them back ---------------------------------------------------------

  function GetString(data: seq<byte>, pos: nat): (seq<byte>, nat) {
    var (n, p) := GetU32(data, pos);
    if Available(data, p, n) then (data[p..p + n], p + n) else ([], p)
  }

  function GetInts(data: seq<byte>, pos: nat, n: nat, w: nat, signed: bool): (seq<int>, nat) {
    if n == 0 then ([], pos)
    else
      var (xs, p) := GetInts(data, pos, n - 1, w, signed);
      var (x, q) := GetInt(data, p, w, signed);
      (xs + [x], q)
  }

  function GetRow(data: seq<byte>, pos: nat): (Row, nat) {
    var (a, p) := GetString(data, pos);
    var (b, q) := GetString(data, p);
    var (c, r) := GetString(data, q);
    var (d, s) := GetString(data, r);
    (Row(a, b, c, d), s)
  }

  function GetRows(data: seq<byte>, pos: nat, n: nat): (seq<Row>, nat) {
    if n == 0 then ([], pos)
    else
      var (rs, p) := GetRows(data, pos, n - 1);
      var (r, q) := GetRow(data, p);
      (rs + [r], q)
  }

  function Zeros(n: nat): seq<byte> {
    seq(n, i => 0)
  }

  function GetValue(data: seq<byte>, pos: nat, shape: Shape): (Value, nat) {
    match shape
    case IntS(w, signed) => var (x, p) := GetInt(data, pos, w, signed); (IntV(w, signed, x), p)
    case BoolS => var (b, p) := GetBool(data, pos); (BoolV(b), p)
    case RawS(n) => var (c, p) := GetRaw(data, pos, n); (RawV(if c.Some? then c.value else Zeros(n)), p)
    case StrS => var (s, p) := GetString(data, pos); (StrV(s), p)
    case VecS(w, signed) =>
      var (n, p) := GetU32(data, pos);
      var (xs, q) := GetInts(data, p, n, w, signed);
      (VecV(w, signed, xs), q)
    case RowsS =>
      var (n, p) := GetU32(data, pos);
      var (rs, q) := GetRows(data, p, n);
      (RowsV(rs), q)
  }

  function GetArgs(data: seq<byte>, pos: nat, shapes: seq<Shape>): (seq<Value>, nat) {
    if shapes == [] then ([], pos)
    else
      var (vs, p) := GetArgs(data, pos, shapes[..|shapes| - 1]);
      var (v, q) := GetValue(data, p, shapes[|shapes| - 1]);
      (vs + [v], q)
  }

  /** What the callee reads before it looks for the handler. */
  datatype Signature = Signature(name: Option<seq<byte>>, sendReturn: bool,
                                 returnType: Option<seq<byte>>, paramsType: Option<seq<byte>>)

  function GetSignature(data: seq<byte>, pos: nat): (Signature, nat) {
    var (name, p) := GetText(data, pos);
    var (sendReturn, q) := GetBool(data, p);
    var (ret, r) := GetText(data, q);
    var (params, s) := GetText(data, r);
    (Signature(name, sendReturn, ret, params), s)
  }

  // ----- Round trips -------------------------------------------------------------------

  lemma U32At(data: seq<byte>, pos: nat, n: u32)
    requires At(data, pos, ToBytes(n, 4))
    ensures GetU32(data, pos) == (n, pos + 4)
  {
    FromToBytes(data, pos, n, 4);
    Pow4();
  }

  lemma StringAt(data: seq<byte>, pos: nat, s: seq<byte>)
    requires |s| < U32_SIZE && At(data, pos, EncStr(s))
    ensures GetString(data, pos) == (s, pos + 4 + |s|)
  {
    AtSplit(data, pos, ToBytes(|s|, 4), s);
    AtSlice(data, pos + 4, s);
    U32At(data, pos, |s|);
  }

  lemma TextAt(data: seq<byte>, pos: nat, s: seq<byte>)
    requires |s| < U32_SIZE && At(data, pos, EncStr(s))
    ensures GetText(data, pos) == (Some(s), pos + 4 + |s|)
  {
    AtSplit(data, pos, ToBytes(|s|, 4), s);
    AtSlice(data, pos + 4, s);
    U32At(data, pos, |s|);
  }

  lemma IntAt(data: seq<byte>, pos: nat, x: int, w: nat, signed: bool)
    requires InRange(x, w, signed) && At(data, pos, ToBytes(x, w))
    ensures GetInt(data, pos, w, signed) == (x, pos + w)
  {
    DecodeToBytes(data, pos, x, w, signed);
  }

  lemma NextInt(data: seq<byte>, pos: nat, init: seq<int>, x: int, p: nat, q: nat, w: nat, signed: bool)
    requires GetInts(data, pos, |init|, w, signed) == (init, p)
    requires GetInt(data, p, w, signed) == (x, q)
    ensures GetInts(data, pos, |init| + 1, w, signed) == (init + [x], q)
  {
  }

  lemma {:induction false} IntsAt(data: seq<byte>, pos: nat, items: seq<int>, w: nat, signed: bool)
    requires forall x :: x in items ==> InRange(x, w, signed)
    requires At(data, pos, EncInts(items, w))
    ensures GetInts(data, pos, |items|, w, signed) == (items, pos + |EncInts(items, w)|)
  {
    hide GetInt, ToBytes, At, InRange;
    if items != [] {
      var init, x := items[..|items| - 1], items[|items| - 1];
      var p := pos + |EncInts(init, w)|;
      AtSplit(data, pos, EncInts(init, w), ToBytes(x, w));
      assert GetInts(data, pos, |init|, w, signed) == (init, p) by {
        IntsAt(data, pos, init, w, signed);
      }
      assert GetInt(data, p, w, signed) == (x, p + w) by {
        IntAt(data, p, x, w, signed);
      }
      NextInt(data, pos, init, x, p, p + w, w, signed);
      assert items == init + [x];
    }
  }

  predicate RowOk(r: Row) {
    |r.name| < U32_SIZE && |r.returnType| < U32_SIZE && |r.paramsTypes| < U32_SIZE && |r.comment| < U32_SIZE
  }

  lemma PairAt(data: seq<byte>, pos: nat, a: seq<byte>, b: seq<byte>)
    requires |a| < U32_SIZE && |b| < U32_SIZE && At(data, pos, EncPair(a, b))
    ensures GetString(data, pos) == (a, pos + 4 + |a|)
    ensures GetString(data, pos + 4 + |a|) == (b, pos + |EncPair(a, b)|)
  {
    AtSplit(data, pos, EncStr(a), EncStr(b));
    StringAt(data, pos, a);
    StringAt(data, pos + 4 + |a|, b);
  }

  lemma RowFrom(data: seq<byte>, pos: nat, p: nat, q: nat, t: nat, u: nat, r: Row)
    requires GetString(data, pos) == (r.name, p) && GetString(data, p) == (r.returnType, q)
    requires GetString(data, q) == (r.paramsTypes, t) && GetString(data, t) == (r.comment, u)
    ensures GetRow(data, pos) == (r, u)
  {
  }

  lemma RowAt(data: seq<byte>, pos: nat, r: Row)
    requires RowOk(r) && At(data, pos, EncRow(r))
    ensures GetRow(data, pos) == (r, pos + |EncRow(r)|)
  {
    hide GetRow, GetString, At;
    var p := pos + 4 + |r.name|;
    var q := p + 4 + |r.returnType|;
    var t := q + 4 + |r.paramsTypes|;
    AtSplit(data, pos, EncPair(r.name, r.returnType), EncPair(r.paramsTypes, r.comment));
    PairAt(data, pos, r.name, r.returnType);
    PairAt(data, q, r.paramsTypes, r.comment);
    RowFrom(data, pos, p, q, t, t + 4 + |r.comment|, r);
  }

  lemma NextRow(data: seq<byte>, pos: nat, init: seq<Row>, r: Row, p: nat, q: nat)
    requires GetRows(data, pos, |init|) == (init, p)
    requires GetRow(data, p) == (r, q)
    ensures GetRows(data, pos, |init| + 1) == (init + [r], q)
  {
  }

  lemma {:induction false} RowsAt(data: seq<byte>, pos: nat, rows: seq<Row>)
    requires forall r :: r in rows ==> RowOk(r)
    requires At(data, pos, EncRows(rows))
    ensures GetRows(data, pos, |rows|) == (rows, pos + |EncRows(rows)|)
  {
    hide GetRow, EncRow, At;
    if rows != [] {
      var init, r := rows[..|rows| - 1], rows[|rows| - 1];
      var p := pos + |EncRows(init)|;
      AtSplit(data, pos, EncRows(init), EncRow(r));
      assert GetRows(data, pos, |init|) == (init, p) by {
        RowsAt(data, pos, init);
      }
      var q := p + |EncRow(r)|;
      assert GetRow(data, p) == (r, q) by {
        RowAt(data, p, r);
      }
      NextRow(data, pos, init, r, p, q);
      assert rows == init + [r];
    }
  }

  /** Every length of the value fits the 32-bit length field in front of it. */
  predicate LengthsOk(v: Value) {
    match v
    case StrV(s) => |s| < U32_SIZE
    case VecV(_, _, items) => |items| < U32_SIZE
    case RowsV(rows) => |rows| < U32_SIZE && forall r :: r in rows ==> RowOk(r)
    case _ => true
  }

  /** A value reads back as itself from wherever its bytes stand, and is consumed exactly. */
  lemma ValueRoundTrip(data: seq<byte>, pos: nat, v: Value)
    requires ValueOk(v) && LengthsOk(v) && At(data, pos, Enc(v))
    ensures GetValue(data, pos, ShapeOf(v)) == (v, pos + |Enc(v)|)
  {
    hide GetInts, GetRows, GetU32, EncInts, EncRows;
    match v {
      case IntV(w, signed, x) => IntAt(data, pos, x, w, signed);
      case BoolV(b) => BoolAt(data, pos, b);
      case RawV(raw) => AtSlice(data, pos, raw);
      case StrV(s) => StringAt(data, pos, s);
      case VecV(w, signed, items) => VecAt(data, pos, w, signed, items);
      case RowsV(rows) => TableAt(data, pos, rows);
    }
  }

  lemma VecAt(data: seq<byte>, pos: nat, w: nat, signed: bool, items: seq<int>)
    requires |items| < U32_SIZE && forall x :: x in items ==> InRange(x, w, signed)
    requires At(data, pos, ToBytes(|items|, 4) + EncInts(items, w))
    ensures GetValue(data, pos, VecS(w, signed)) == (VecV(w, signed, items), pos + 4 + |EncInts(items, w)|)
  {
    hide GetU32, GetInts, EncInts, ToBytes, At, InRange;
    AtSplit(data, pos, ToBytes(|items|, 4), EncInts(items, w));
    U32At(data, pos, |items|);
    IntsAt(data, pos + 4, items, w, signed);
  }

  lemma TableAt(data: seq<byte>, pos: nat, rows: seq<Row>)
    requires |rows| < U32_SIZE && forall r :: r in rows ==> RowOk(r)
    requires At(data, pos, ToBytes(|rows|, 4) + EncRows(rows))
    ensures GetValue(data, pos, RowsS) == (RowsV(rows), pos + 4 + |EncRows(rows)|)
  {
    hide GetU32, GetRows, EncRows, ToBytes, At, RowOk;
    AtSplit(data, pos, ToBytes(|rows|, 4), EncRows(rows));
    U32At(data, pos, |rows|);
    RowsAt(data, pos + 4, rows);
  }

  function Shapes(args: seq<Value>): (r: seq<Shape>)
    ensures |r| == |args|
  {
    if args == [] then [] else Shapes(args[..|args| - 1]) + [ShapeOf(args[|args| - 1])]
  }

  lemma NextArg(data: seq<byte>, pos: nat, shapes: seq<Shape>, s: Shape, init: seq<Value>, v: Value, p: nat, q: nat)
    requires GetArgs(data, pos, shapes) == (init, p)
    requires GetValue(data, p, s) == (v, q)
    ensures GetArgs(data, pos, shapes + [s]) == (init + [v], q)
  {
    assert (shapes + [s])[..|shapes|] == shapes;
  }

  lemma ArgsStep(data: seq<byte>, pos: nat, args: seq<Value>, p: nat)
    requires args != [] && ValueOk(args[|args| - 1]) && LengthsOk(args[|args| - 1])
    requires GetArgs(data, pos, Shapes(args[..|args| - 1])) == (args[..|args| - 1], p)
    requires At(data, p, Enc(args[|args| - 1]))
    ensures GetArgs(data, pos, Shapes(args)) == (args, p + |Enc(args[|args| - 1])|)
  {
    hide GetArgs, GetValue, Enc, At, ValueOk, LengthsOk;
    var init, v := args[..|args| - 1], args[|args| - 1];
    ValueRoundTrip(data, p, v);
    NextArg(data, pos, Shapes(init), ShapeOf(v), init, v, p, p + |Enc(v)|);
    assert args == init + [v];
  }

  lemma {:induction false} ArgsRoundTrip(data: seq<byte>, pos: nat, args: seq<Value>)
    requires forall v :: v in args ==> ValueOk(v) && LengthsOk(v)
    requires At(data, pos, EncArgs(args))
    ensures GetArgs(data, pos, Shapes(args)) == (args, pos + |EncArgs(args)|)
  {
    hide GetValue, Enc, At, ValueOk, LengthsOk;
    if args != [] {
      var init, v := args[..|args| - 1], args[|args| - 1];
      AtSplit(data, pos, EncArgs(init), Enc(v));
      ArgsRoundTrip(data, pos, init);
      hide GetArgs, Shapes;
      ArgsStep(data, pos, args, pos + |EncArgs(init)|);
    }
  }

  predicate CallOk(c: Call) {
    && |c.name| < U32_SIZE && |c.returnType| < U32_SIZE && |ParamsText(c.types)| < U32_SIZE
    && forall v :: v in c.args ==> ValueOk(v) && LengthsOk(v)
  }

  lemma SignatureRoundTrip(data: seq<byte>, pos: nat, c: Call)
    requires CallOk(c) && At(data, pos, EncSignature(c))
    ensures GetSignature(data, pos)
            == (Signature(Some(c.name), c.sendReturn, Some(c.returnType), Some(ParamsText(c.types))),
                pos + |EncSignature(c)|)
  {
    hide GetText, ToBytes, At;
    var p := pos + 4 + |c.name|;
    var text := ParamsText(c.types);
    AtSplit(data, pos, EncStr(c.name), EncBool(c.sendReturn) + EncPair(c.returnType, text));
    AtSplit(data, p, EncBool(c.sendReturn), EncPair(c.returnType, text));
    assert GetText(data, pos) == (Some(c.name), p) by {
      TextAt(data, pos, c.name);
    }
    BoolAt(data, p, c.sendReturn);
    TextPairAt(data, p + 1, c.returnType, text);
    SignatureFrom(data, pos, p, p + 5 + |c.returnType|, c, text);
  }

  lemma BoolAt(data: seq<byte>, pos: nat, b: bool)
    requires At(data, pos, EncBool(b))
    ensures GetBool(data, pos) == (b, pos + 1)
  {
    assert data[pos] == EncBool(b)[0];
  }

  lemma TextPairAt(data: seq<byte>, pos: nat, a: seq<byte>, b: seq<byte>)
    requires |a| < U32_SIZE && |b| < U32_SIZE && At(data, pos, EncPair(a, b))
    ensures GetText(data, pos) == (Some(a), pos + 4 + |a|)
    ensures GetText(data, pos + 4 + |a|) == (Some(b), pos + |EncPair(a, b)|)
  {
    AtSplit(data, pos, EncStr(a), EncStr(b));
    TextAt(data, pos, a);
    TextAt(data, pos + 4 + |a|, b);
  }

  lemma SignatureFrom(data: seq<byte>, pos: nat, p: nat, q: nat, c: Call, text: seq<byte>)
    requires GetText(data, pos) == (Some(c.name), p) && GetBool(data, p) == (c.sendReturn, p + 1)
    requires GetText(data, p + 1) == (Some(c.returnType), q) && GetText(data, q) == (Some(text), q + 4 + |text|)
    ensures GetSignature(data, pos)
            == (Signature(Some(c.name), c.sendReturn, Some(c.returnType), Some(text)), q + 4 + |text|)
  {
  }

  lemma HeaderAt(data: seq<byte>, size: u32, ptype: u32, id: u32)
    requires At(data, 0, HeaderBytes(size, ptype, id))
    ensures GetU32(data, 0) == (size, 4) && GetU32(data, 4) == (ptype, 8) && GetU32(data, 8) == (id, 12)
  {
    AtSplit(data, 0, ToBytes(size, 4), ToBytes(ptype, 4) + ToBytes(id, 4));
    AtSplit(data, 4, ToBytes(ptype, 4), ToBytes(id, 4));
    U32At(data, 0, size);
    U32At(data, 4, ptype);
    U32At(data, 8, id);
  }

  /** The packet of a call: header and body. */
  function CallPacket(c: Call, id: u32): (r: seq<byte>)
    requires |CallBytes(c)| + HEADER_SIZE < U32_SIZE
    ensures |r| == HEADER_SIZE + |CallBytes(c)|
  {
    HeaderBytes(|CallBytes(c)|, PT_CALL, id) + CallBytes(c)
  }

  /** Serializing a call and reading the packet gives back the header fields, the
      name, the send_return flag, the return type, the text of the parameter types
      and the arguments, and consumes the packet exactly. */
  lemma CallRoundTrip(c: Call, id: u32)
    requires CallOk(c) && |CallBytes(c)| + HEADER_SIZE < U32_SIZE
    ensures var data := CallPacket(c, id);
            var sig := Signature(Some(c.name), c.sendReturn, Some(c.returnType), Some(ParamsText(c.types)));
            var pos := HEADER_SIZE + |EncSignature(c)|;
            && GetU32(data, 0) == (|CallBytes(c)|, 4) && GetU32(data, 4) == (PT_CALL, 8) && GetU32(data, 8) == (id, HEADER_SIZE)
            && GetSignature(data, HEADER_SIZE) == (sig, pos)
            && GetArgs(data, pos, Shapes(c.args)) == (c.args, |data|)
  {
    hide GetSignature, GetArgs, GetU32, EncSignature, EncArgs, CallOk, ToBytes;
    var data, header := CallPacket(c, id), HeaderBytes(|CallBytes(c)|, PT_CALL, id);
    assert At(data, 0, header) && At(data, HEADER_SIZE, CallBytes(c)) by {
      assert data == header + CallBytes(c);
      AtSplit(data, 0, header, CallBytes(c));
    }
    HeaderAt(data, |CallBytes(c)|, PT_CALL, id);
    BodyRoundTrip(data, HEADER_SIZE, c);
  }

  lemma BodyRoundTrip(data: seq<byte>, pos: nat, c: Call)
    requires CallOk(c) && At(data, pos, CallBytes(c))
    ensures var sig := Signature(Some(c.name), c.sendReturn, Some(c.returnType), Some(ParamsText(c.types)));
            var p := pos + |EncSignature(c)|;
            && GetSignature(data, pos) == (sig, p)
            && GetArgs(data, p, Shapes(c.args)) == (c.args, pos + |CallBytes(c)|)
  {
    hide GetSignature, GetArgs, EncSignature, EncArgs, At;
    AtSplit(data, pos, EncSignature(c), EncArgs(c.args));
    SignatureRoundTrip(data, pos, c);
    ArgsRoundTrip(data, pos + |EncSignature(c)|, c.args);
  }

  /** Where data is missing numbers are zero, texts and vectors empty, and the place stays. */
  lemma MissingData(data: seq<byte>, pos: nat, w: nat, signed: bool)
    requires w > 0
    ensures !Available(data, pos, w) ==> GetInt(data, pos, w, signed) == (0, pos)
    ensures !Available(data, pos, 4) ==> GetString(data, pos) == ([], pos)
    ensures !Available(data, pos, 4) && Width(w) ==> GetValue(data, pos, VecS(w, signed)) == (VecV(w, signed, []), pos)
    ensures !Available(data, pos, 4) ==> GetValue(data, pos, RowsS) == (RowsV([]), pos)
    ensures !Available(data, pos, 1) ==> GetValue(data, pos, BoolS) == (BoolV(false), pos)
  {
    if pos <= |data| {
      assert data[pos..pos] == [];
    }
  }

  // ----- The format by example --------------------------------------------------------

  lemma SmallLength(n: byte)
    ensures ToBytes(n, 4) == [n, 0, 0, 0]
  {
    assert ToBytes(0, 3) == [0] + ToBytes(0, 2) && ToBytes(0, 2) == [0] + ToBytes(0, 1) && ToBytes(0, 1) == [0];
  }

  lemma IntExample()
    ensures ToBytes(-2, 4) == [254, 255, 255, 255] && ToBytes(513, 2) == [1, 2] && ToBytes(7, 2) == [7, 0]
  {
    assert ToBytes(-1, 1) == [255] + ToBytes(-1, 0) && ToBytes(-1, 2) == [255] + ToBytes(-1, 1);
    assert ToBytes(-1, 3) == [255] + ToBytes(-1, 2) && ToBytes(-2, 4) == [254] + ToBytes(-1, 3);
    assert ToBytes(2, 1) == [2] + ToBytes(0, 0) && ToBytes(513, 2) == [1] + ToBytes(2, 1);
    assert ToBytes(0, 1) == [0] + ToBytes(0, 0) && ToBytes(7, 2) == [7] + ToBytes(0, 1);
  }

  lemma StrExample(c: byte)
    ensures EncStr([c]) == [1, 0, 0, 0, c]
  {
    SmallLength(1);
  }

  /** The bytes of one value of each kind. */
  lemma ValueExamples()
    ensures Enc(IntV(4, true, -2)) == [254, 255, 255, 255] && Enc(BoolV(true)) == [1] && Enc(BoolV(false)) == [0]
    ensures Enc(RawV([1, 2, 3, 4])) == [1, 2, 3, 4] && Enc(StrV([104])) == [1, 0, 0, 0, 104]
    ensures Enc(VecV(2, false, [513, 7])) == [2, 0, 0, 0, 1, 2, 7, 0]
  {
    hide ToBytes, EncInts;
    IntExample();
    StrExample(104);
    VecExample([513, 7]);
  }

  lemma VecExample(items: seq<int>)
    requires items == [513, 7]
    ensures Enc(VecV(2, false, items)) == [2, 0, 0, 0] + [1, 2, 7, 0]
  {
    hide ToBytes;
    SmallLength(2);
    IntExample();
    assert items[..1] == [513] && items[..1][..0] == [];
    assert EncInts(items[..1], 2) == EncInts([], 2) + ToBytes(513, 2);
    assert EncInts(items, 2) == EncInts(items[..1], 2) + ToBytes(7, 2);
  }

  /** The bytes of a listing with one row. */
  lemma RowExample(rows: seq<Row>)
    requires rows == [Row([97], [98], [99], [100])]
    ensures Enc(RowsV(rows)) == [1, 0, 0, 0] + ([1, 0, 0, 0, 97] + [1, 0, 0, 0, 98] + ([1, 0, 0, 0, 99] + [1, 0, 0, 0, 100]))
  {
    hide ToBytes, EncStr;
    SmallLength(1);
    StrExample(97);
    StrExample(98);
    StrExample(99);
    StrExample(100);
    assert rows[..0] == [] && EncRows(rows) == EncRows([]) + EncRow(rows[0]);
  }

  lemma SignatureExample(types: seq<seq<byte>>)
    requires types == [[105]]
    ensures EncSignature(Call([102], true, [105], types, [])) == [1, 0, 0, 0, 102, 1, 1, 0, 0, 0, 105, 2, 0, 0, 0, 105, 59]
  {
    hide ToBytes;
    SmallLength(2);
    StrExample(102);
    StrExample(105);
    assert types[..0] == [] && ParamsText(types) == ParamsText([]) + ([105] + [SEPARATOR]);
    assert EncStr([105, 59]) == [2, 0, 0, 0] + [105, 59];
  }

  lemma ArgsExample(args: seq<Value>)
    requires args == [IntV(4, true, 5)]
    ensures EncArgs(args) == [5, 0, 0, 0]
  {
    hide ToBytes;
    SmallLength(5);
    assert args[..0] == [] && EncArgs(args) == EncArgs([]) + Enc(args[0]);
  }

  lemma HeaderExample()
    ensures HeaderBytes(21, PT_CALL, 7) == [21, 0, 0, 0, 2, 0, 0, 0, 7, 0, 0, 0]
  {
    hide ToBytes;
    SmallLength(2);
    SmallLength(7);
    SmallLength(21);
  }

  /** The packet of a call of `f` with return type `i`, one parameter of type `i`, the
      argument 5 and the id 7, byte by byte. */
  lemma CallExample(c: Call)
    requires c == Call([102], true, [105], [[105]], [IntV(4, true, 5)])
    ensures |CallBytes(c)| == 21
    ensures CallPacket(c, 7)
            == [21, 0, 0, 0, 2, 0, 0, 0, 7, 0, 0, 0] + ([1, 0, 0, 0, 102, 1, 1, 0, 0, 0, 105, 2, 0, 0, 0, 105, 59] + [5, 0, 0, 0])
  {
    hide EncSignature, EncArgs, HeaderBytes;
    SignatureExample(c.types);
    SignatureOf(c);
    ArgsExample(c.args);
    HeaderExample();
  }

  lemma SignatureOf(c: Call)
    ensures EncSignature(c) == EncSignature(c.(args := []))
  {
  }
}
