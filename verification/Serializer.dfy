/** The serializers and deserializers as they run on a data stream, and the two
    passes that build a call packet. */
module Serializer {
  import opened Prelude
  import opened Packets
  import opened Bytes
  import opened Stream
  import opened Codec

  // ----- A series of writes, piece by piece ------------------------------------------

  /** A series that stays inside can be cut anywhere. */
  lemma Continue(o: Out, a: seq<seq<byte>>, b: seq<seq<byte>>)
    requires AllInside(o, a + b)
    ensures AllInside(o, a) && AllInside(PutAll(o, a), b)
    ensures PutAll(o, a + b) == PutAll(PutAll(o, a), b)
  {
    PutAllAppend(o, a, b);
  }

  lemma ContinueOne(o: Out, a: seq<seq<byte>>, c: seq<byte>)
    requires AllInside(o, a + [c])
    ensures AllInside(o, a) && Inside(PutAll(o, a), |c|)
    ensures PutAll(o, a + [c]) == Put(PutAll(o, a), c)
  {
    Continue(o, a, [c]);
    PutAllOne(PutAll(o, a), c);
  }

  lemma First(o: Out, c: seq<byte>, b: seq<seq<byte>>)
    requires AllInside(o, [c] + b)
    ensures Inside(o, |c|) && AllInside(o, [c]) && PutAll(o, [c]) == Put(o, c)
    ensures AllInside(Put(o, c), b) && PutAll(o, [c] + b) == PutAll(Put(o, c), b)
  {
    Continue(o, [c], b);
    PutAllOne(o, c);
  }

  lemma Shorter(o: Out, a: seq<seq<byte>>, all: seq<seq<byte>>)
    requires a <= all && AllInside(o, all)
    ensures AllInside(o, a)
  {
    assert all == a + all[|a|..];
    Continue(o, a, all[|a|..]);
  }

  lemma {:induction false} IntPrefix(items: seq<int>, i: nat, w: nat)
    requires i <= |items|
    ensures IntChunks(items[..i], w) <= IntChunks(items, w)
    decreases |items| - i
  {
    if i < |items| {
      IntPrefix(items, i + 1, w);
      assert items[..i + 1][..i] == items[..i];
    } else {
      assert items[..i] == items;
    }
  }

  lemma {:induction false} RowPrefix(rows: seq<Row>, i: nat)
    requires i <= |rows|
    ensures RowsChunks(rows[..i]) <= RowsChunks(rows)
    decreases |rows| - i
  {
    if i < |rows| {
      RowPrefix(rows, i + 1);
      assert rows[..i + 1][..i] == rows[..i];
    } else {
      assert rows[..i] == rows;
    }
  }

  // ----- Writing -------------------------------------------------------------------

  method WriteString(s: DataStream, v: seq<byte>)
    requires s.CanWriteAll(StrChunks(v))
    modifies s`writePos, s.write
    ensures s.View() == PutAll(old(s.View()), StrChunks(v))
  {
    ghost var o := s.View();
    assert StrChunks(v) == [ToBytes(|v|, 4)] + [v];
    First(o, ToBytes(|v|, 4), [v]);
    s.WriteInt(|v|, 4);
    PutAllOne(s.View(), v);
    s.WriteRaw(v);
  }

  /** The write of item `i` inside the loop. */
  lemma IntStep(o: Out, items: seq<int>, i: nat, w: nat)
    requires i < |items| && AllInside(o, IntChunks(items, w))
    ensures AllInside(o, IntChunks(items[..i], w)) && AllInside(o, IntChunks(items[..i + 1], w))
    ensures Inside(PutAll(o, IntChunks(items[..i], w)), w)
    ensures PutAll(o, IntChunks(items[..i + 1], w)) == Put(PutAll(o, IntChunks(items[..i], w)), ToBytes(items[i], w))
  {
    hide PutAll, Put, Inside, AllInside;
    IntPrefix(items, i + 1, w);
    Shorter(o, IntChunks(items[..i + 1], w), IntChunks(items, w));
    assert items[..i + 1][..i] == items[..i];
    ContinueOne(o, IntChunks(items[..i], w), ToBytes(items[i], w));
  }

  lemma IntStart(o: Out, items: seq<int>, w: nat)
    requires AllInside(o, IntChunks(items, w))
    ensures AllInside(o, IntChunks(items[..0], w)) && PutAll(o, IntChunks(items[..0], w)) == o
  {
    IntPrefix(items, 0, w);
    Shorter(o, [], IntChunks(items, w));
  }

  method WriteInts(s: DataStream, items: seq<int>, w: nat)
    requires s.CanWriteAll([ToBytes(|items|, 4)] + IntChunks(items, w))
    modifies s`writePos, s.write
    ensures s.View() == PutAll(old(s.View()), [ToBytes(|items|, 4)] + IntChunks(items, w))
  {
    hide Put, PutAll, Inside, AllInside, IntChunks, ToBytes;
    First(s.View(), ToBytes(|items|, 4), IntChunks(items, w));
    s.WriteInt(|items|, 4);
    ghost var o1 := s.View();
    var i := 0;
    IntStart(o1, items, w);
    while i < |items|
      invariant 0 <= i <= |items|
      invariant AllInside(o1, IntChunks(items[..i], w))
      invariant s.View() == PutAll(o1, IntChunks(items[..i], w))
    {
      IntStep(o1, items, i, w);
      s.WriteInt(items[i], w);
      i := i + 1;
    }
    assert items[..i] == items;
  }

  method WriteRow(s: DataStream, r: Row)
    requires s.CanWriteAll(RowChunks(r))
    modifies s`writePos, s.write
    ensures s.View() == PutAll(old(s.View()), RowChunks(r))
  {
    ghost var o := s.View();
    ghost var a, b, c, d := StrChunks(r.name), StrChunks(r.returnType), StrChunks(r.paramsTypes), StrChunks(r.comment);
    Continue(o, a + b + c, d);
    Continue(o, a + b, c);
    Continue(o, a, b);
    WriteString(s, r.name);
    WriteString(s, r.returnType);
    WriteString(s, r.paramsTypes);
    WriteString(s, r.comment);
  }

  lemma RowStep(o: Out, rows: seq<Row>, i: nat)
    requires i < |rows| && AllInside(o, RowsChunks(rows))
    ensures AllInside(o, RowsChunks(rows[..i])) && AllInside(o, RowsChunks(rows[..i + 1]))
    ensures AllInside(PutAll(o, RowsChunks(rows[..i])), RowChunks(rows[i]))
    ensures PutAll(o, RowsChunks(rows[..i + 1])) == PutAll(PutAll(o, RowsChunks(rows[..i])), RowChunks(rows[i]))
  {
    hide PutAll, Put, Inside, AllInside, RowChunks;
    RowPrefix(rows, i + 1);
    Shorter(o, RowsChunks(rows[..i + 1]), RowsChunks(rows));
    assert rows[..i + 1][..i] == rows[..i];
    Continue(o, RowsChunks(rows[..i]), RowChunks(rows[i]));
  }

  lemma RowStart(o: Out, rows: seq<Row>)
    requires AllInside(o, RowsChunks(rows))
    ensures AllInside(o, RowsChunks(rows[..0])) && PutAll(o, RowsChunks(rows[..0])) == o
  {
    RowPrefix(rows, 0);
    Shorter(o, [], RowsChunks(rows));
  }

  method WriteRows(s: DataStream, rows: seq<Row>)
    requires s.CanWriteAll([ToBytes(|rows|, 4)] + RowsChunks(rows))
    modifies s`writePos, s.write
    ensures s.View() == PutAll(old(s.View()), [ToBytes(|rows|, 4)] + RowsChunks(rows))
  {
    hide Put, PutAll, Inside, AllInside, RowChunks, RowsChunks, ToBytes;
    First(s.View(), ToBytes(|rows|, 4), RowsChunks(rows));
    s.WriteInt(|rows|, 4);
    ghost var o1 := s.View();
    var i := 0;
    RowStart(o1, rows);
    while i < |rows|
      invariant 0 <= i <= |rows|
      invariant AllInside(o1, RowsChunks(rows[..i]))
      invariant s.View() == PutAll(o1, RowsChunks(rows[..i]))
    {
      RowStep(o1, rows, i);
      WriteRow(s, rows[i]);
      i := i + 1;
    }
    assert rows[..i] == rows;
  }

  /** The overloads of the stream's output operator. */
  method WriteValue(s: DataStream, v: Value)
    requires s.CanWriteAll(Chunks(v))
    modifies s`writePos, s.write
    ensures s.View() == PutAll(old(s.View()), Chunks(v))
  {
    match v {
      case IntV(w, _, x) =>
        PutAllOne(s.View(), ToBytes(x, w));
        s.WriteInt(x, w);
      case BoolV(b) =>
        PutAllOne(s.View(), EncBool(b));
        s.WriteBool(b);
      case RawV(raw) =>
        PutAllOne(s.View(), raw);
        s.WriteRaw(raw);
      case StrV(t) => WriteString(s, t);
      case VecV(w, _, items) => WriteInts(s, items, w);
      case RowsV(rows) => WriteRows(s, rows);
    }
  }

  method SerializeArgs(s: DataStream, args: seq<Value>)
    requires s.CanWriteAll(ArgsChunks(args))
    modifies s`writePos, s.write
    ensures s.View() == PutAll(old(s.View()), ArgsChunks(args))
    decreases |args|
  {
    hide Chunks;
    if |args| > 0 {
      var n := |args| - 1;
      Continue(s.View(), ArgsChunks(args[..n]), Chunks(args[n]));
      SerializeArgs(s, args[..n]);
      WriteValue(s, args[n]);
    }
  }

  /** The holder that only adds up the size of the parameter text. */
  method ParamsSize(types: seq<seq<byte>>) returns (size: nat)
    ensures size == |ParamsText(types)|
  {
    size := 0;
    var i := 0;
    while i < |types|
      invariant 0 <= i <= |types| && size == |ParamsText(types[..i])|
    {
      assert types[..i + 1][..i] == types[..i];
      size := size + |types[i]|;
      size := size + 1;
      i := i + 1;
    }
    assert types[..i] == types;
  }

  /** The holder that builds the text of a registered handler. */
  method MakeParamsType(types: seq<seq<byte>>) returns (text: seq<byte>)
    ensures text == ParamsText(types)
  {
    text := [];
    var i := 0;
    while i < |types|
      invariant 0 <= i <= |types| && text == ParamsText(types[..i])
    {
      assert types[..i + 1][..i] == types[..i];
      text := text + types[i];
      text := text + [SEPARATOR];
      i := i + 1;
    }
    assert types[..i] == types;
  }

  /** The holder that streams the text without building it. */
  method WriteTypes(s: DataStream, types: seq<seq<byte>>)
    requires s.CanWriteAll(TypeChunks(types))
    modifies s`writePos, s.write
    ensures s.View() == PutAll(old(s.View()), TypeChunks(types))
    decreases |types|
  {
    if |types| > 0 {
      hide PutAll, AllInside, Put, Inside;
      var n := |types| - 1;
      ghost var o, a := s.View(), TypeChunks(types[..n]);
      assert TypeChunks(types) == (a + [types[n]]) + [[SEPARATOR]];
      ContinueOne(o, a + [types[n]], [SEPARATOR]);
      ContinueOne(o, a, types[n]);
      WriteTypes(s, types[..n]);
      s.WriteRaw(types[n]);
      s.WriteRaw([SEPARATOR]);
    }
  }

  method SerializeCallSignature(s: DataStream, c: Call)
    requires s.CanWriteAll(SignatureChunks(c))
    modifies s`writePos, s.write
    ensures s.View() == PutAll(old(s.View()), SignatureChunks(c))
  {
    hide StrChunks, ParamsText, TypeChunks, PutAll, AllInside, Put, Inside, ToBytes;
    ghost var o := s.View();
    ghost var a, f, r := StrChunks(c.name), EncBool(c.sendReturn), StrChunks(c.returnType);
    ghost var n, t := ToBytes(|ParamsText(c.types)|, 4), TypeChunks(c.types);
    Continue(o, a + [f] + r + [n], t);
    ContinueOne(o, a + [f] + r, n);
    Continue(o, a + [f], r);
    ContinueOne(o, a, f);
    WriteString(s, c.name);
    s.WriteBool(c.sendReturn);
    WriteString(s, c.returnType);
    var size := ParamsSize(c.types);
    s.WriteInt(size, 4);
    WriteTypes(s, c.types);
  }

  method SerializeCall(s: DataStream, c: Call)
    requires s.CanWriteAll(CallChunks(c))
    modifies s`writePos, s.write
    ensures s.View() == PutAll(old(s.View()), CallChunks(c))
  {
    hide SignatureChunks, ArgsChunks;
    Continue(s.View(), SignatureChunks(c), ArgsChunks(c.args));
    SerializeCallSignature(s, c);
    SerializeArgs(s, c.args);
  }

  method PacketHeaderWrite(s: DataStream, size: u32, ptype: u32, id: u32)
    requires s.CanWriteAll(HeaderChunks(size, ptype, id))
    modifies s`writePos, s.write
    ensures s.View() == PutAll(old(s.View()), HeaderChunks(size, ptype, id))
  {
    ghost var o := s.View();
    ghost var a, b, c := ToBytes(size, 4), ToBytes(ptype, 4), ToBytes(id, 4);
    assert HeaderChunks(size, ptype, id) == [a] + [b] + [c];
    ContinueOne(o, [a] + [b], c);
    First(o, a, [b]);
    PutAllOne(PutAll(o, [a]), b);
    s.WriteInt(size, 4);
    s.WriteInt(ptype, 4);
    s.WriteInt(id, 4);
  }

  /** The size of the call without writing it anywhere. */
  method MeasureCall(c: Call) returns (size: u32)
    requires |CallBytes(c)| < U32_SIZE
    ensures size == |CallBytes(c)|
  {
    CallPieces(c);
    MeasureOnly(0, CallChunks(c));
    var measure := new DataStream.Measure();
    SerializeCall(measure, c);
    size := measure.writePos;
  }

  lemma HeaderPieces(size: u32, ptype: u32, id: u32)
    ensures Concat(HeaderChunks(size, ptype, id)) == HeaderBytes(size, ptype, id)
  {
    var a, b, c := ToBytes(size, 4), ToBytes(ptype, 4), ToBytes(id, 4);
    ConcatOne(a);
    ConcatOne(b);
    ConcatOne(c);
    Join([b], b, [c], c);
    Join([a], a, [b] + [c], b + c);
    assert HeaderChunks(size, ptype, id) == [a] + ([b] + [c]);
  }

  /** A stream over a new packet whose header is written; for id zero there is
      no packet and the stream has no buffer. */
  method CreateDataStream(size: u32, ptype: u32, id: u32) returns (s: DataStream)
    requires HEADER_SIZE + size < U32_SIZE
    ensures fresh(s) && s.readData == None && (s.write == null || fresh(s.write))
    ensures s.write == null <==> id == INVALID_ID
    ensures s.write == null ==> s.writePos == 0
    ensures s.write != null ==> |s.write[..]| == HEADER_SIZE + size && s.writePos == HEADER_SIZE
                                && s.write[..HEADER_SIZE] == HeaderBytes(size, ptype, id)
  {
    if id != INVALID_ID {
      var buffer := new byte[HEADER_SIZE + size];
      s := new DataStream.Writer(buffer);
      HeaderPieces(size, ptype, id);
      MeasureThenWrite(buffer[..], 0, HeaderChunks(size, ptype, id));
      PacketHeaderWrite(s, size, ptype, id);
      assert s.View() == Out(Some(s.write[..]), s.writePos);
      return;
    }
    s := new DataStream.Measure();
  }

  /** The packet of a call: measure, allocate, write the header, write the body.
      The body fills the packet exactly; no write is refused. */
  method BuildCall(c: Call, id: u32) returns (packet: array?<byte>)
    requires HEADER_SIZE + |CallBytes(c)| < U32_SIZE
    ensures packet == null <==> id == INVALID_ID
    ensures packet != null ==> fresh(packet) && packet[..] == CallPacket(c, id)
  {
    var size := MeasureCall(c);
    var s := CreateDataStream(size, PT_CALL, id);
    CallPieces(c);
    if s.write == null {
      MeasureOnly(0, CallChunks(c));
      SerializeCall(s, c);
      return s.write;
    }
    ghost var b := s.write[..];
    MeasureThenWrite(b, HEADER_SIZE, CallChunks(c));
    assert s.View() == Out(Some(b), HEADER_SIZE);
    SerializeCall(s, c);
    packet := s.write;
    assert s.View() == Out(Some(packet[..]), s.writePos);
    assert b[..HEADER_SIZE] == HeaderBytes(size, PT_CALL, id);
  }

  /** The packet in a buffer that the caller supplies: a buffer that is too small
      gives no packet and stays as it was; bytes behind the packet stay. */
  method BuildCallInplace(c: Call, id: u32, buffer: array<byte>) returns (ok: bool)
    requires HEADER_SIZE + |CallBytes(c)| < U32_SIZE && buffer.Length < U32_SIZE
    modifies buffer
    ensures ok <==> HEADER_SIZE + |CallBytes(c)| <= buffer.Length
    ensures ok ==> buffer[..] == Over(old(buffer[..]), 0, CallPacket(c, id))
    ensures !ok ==> buffer[..] == old(buffer[..])
  {
    hide Over, AllInside, PutAll, CallBytes, CallChunks, HeaderChunks, HeaderBytes, Total, Concat;
    var size := MeasureCall(c);
    CallPieces(c);
    if buffer.Length < HEADER_SIZE + size {
      return false;
    }
    ghost var b0 := buffer[..];
    var s := new DataStream.Writer(buffer);
    HeaderPieces(size, PT_CALL, id);
    WriteOver(b0, 0, HeaderChunks(size, PT_CALL, id));
    PacketHeaderWrite(s, size, PT_CALL, id);
    ghost var b1 := buffer[..];
    assert s.View() == Out(Some(b1), s.writePos);
    WriteOver(b1, HEADER_SIZE, CallChunks(c));
    SerializeCall(s, c);
    assert s.View() == Out(Some(buffer[..]), s.writePos);
    OverOver(b0, 0, HeaderBytes(size, PT_CALL, id), CallBytes(c));
    return true;
  }

  lemma WriteOver(b: seq<byte>, pos: u32, cs: seq<seq<byte>>)
    requires pos + Total(cs) <= |b| < U32_SIZE
    ensures |Concat(cs)| == Total(cs) && AllInside(Out(Some(b), pos), cs)
    ensures PutAll(Out(Some(b), pos), cs) == Out(Some(Over(b, pos, Concat(cs))), pos + Total(cs))
  {
    MeasureThenWrite(b, pos, cs);
  }

  /** The packet that carries a result; a void result has an empty body. */
  function ReturnPacket(ret: Option<Value>, id: u32): seq<byte>
    requires ret.Some? ==> HEADER_SIZE + |Enc(ret.value)| < U32_SIZE
  {
    var body := if ret.Some? then Enc(ret.value) else [];
    HeaderBytes(|body|, PT_RETURN, id) + body
  }

  method SerializeReturn(ret: Option<Value>, id: u32) returns (packet: array?<byte>)
    requires ret.Some? ==> HEADER_SIZE + |Enc(ret.value)| < U32_SIZE
    ensures packet == null <==> id == INVALID_ID
    ensures packet != null ==> fresh(packet) && packet[..] == ReturnPacket(ret, id)
  {
    if id == INVALID_ID {
      return null;
    }
    var s: DataStream;
    if ret.None? {
      s := CreateDataStream(0, PT_RETURN, id);
      assert s.write[..] == s.write[..HEADER_SIZE];
      return s.write;
    }
    packet := SerializeBody(ret.value, PT_RETURN, id);
  }

  /** A packet with one value, built in two passes. */
  method SerializeBody(v: Value, ptype: u32, id: u32) returns (packet: array?<byte>)
    requires HEADER_SIZE + |Enc(v)| < U32_SIZE
    ensures packet == null <==> id == INVALID_ID
    ensures packet != null ==> fresh(packet) && packet[..] == HeaderBytes(|Enc(v)|, ptype, id) + Enc(v)
  {
    ValuePieces(v);
    MeasureOnly(0, Chunks(v));
    var measure := new DataStream.Measure();
    WriteValue(measure, v);
    var size := measure.writePos;
    var s := CreateDataStream(size, ptype, id);
    if s.write == null {
      WriteValue(s, v);
      return null;
    }
    ghost var b := s.write[..];
    MeasureThenWrite(b, HEADER_SIZE, Chunks(v));
    assert s.View() == Out(Some(b), HEADER_SIZE);
    WriteValue(s, v);
    packet := s.write;
    assert s.View() == Out(Some(packet[..]), s.writePos);
    assert b[..HEADER_SIZE] == HeaderBytes(size, ptype, id);
  }

  /** The value of a packet with one value is read back. */
  lemma BodyBack(v: Value, ptype: u32, id: u32)
    requires ValueOk(v) && LengthsOk(v) && HEADER_SIZE + |Enc(v)| < U32_SIZE
    ensures var data := HeaderBytes(|Enc(v)|, ptype, id) + Enc(v);
            && GetU32(data, 0) == (|Enc(v)|, 4) && GetU32(data, 4) == (ptype, 8) && GetU32(data, 8) == (id, HEADER_SIZE)
            && GetValue(data, HEADER_SIZE, ShapeOf(v)) == (v, |data|)
  {
    hide GetU32, GetValue, Enc, ToBytes, ValueOk, LengthsOk;
    var header := HeaderBytes(|Enc(v)|, ptype, id);
    var data := header + Enc(v);
    assert At(data, 0, header) && At(data, HEADER_SIZE, Enc(v)) by {
      AtSplit(data, 0, header, Enc(v));
    }
    HeaderAt(data, |Enc(v)|, ptype, id);
    ValueRoundTrip(data, HEADER_SIZE, v);
  }

  /** The result that the waiting caller reads is the one that the handler returned. */
  lemma ReturnRoundTrip(v: Value, id: u32)
    requires ValueOk(v) && LengthsOk(v) && HEADER_SIZE + |Enc(v)| < U32_SIZE
    ensures var data := ReturnPacket(Some(v), id);
            && GetU32(data, 0) == (|Enc(v)|, 4) && GetU32(data, 4) == (PT_RETURN, 8) && GetU32(data, 8) == (id, HEADER_SIZE)
            && GetValue(data, HEADER_SIZE, ShapeOf(v)) == (v, |data|)
  {
    hide GetU32, GetValue, Enc, ValueOk, LengthsOk;
    BodyBack(v, PT_RETURN, id);
  }

  // ----- Reading -------------------------------------------------------------------

  method ReadString(s: DataStream) returns (v: seq<byte>)
    requires s.ReadOk()
    modifies s`readPos
    ensures (v, s.readPos) == GetString(s.Source(), old(s.readPos)) && s.ReadOk()
  {
    v := [];
    var n := s.ReadU32();
    var ok := s.IsReadAvailable(n);
    if !ok {
      return;
    }
    assert s.Source()[s.readPos..s.readPos] == [];
    if n != 0 {
      var c := s.ReadRaw(n);
      v := c.value;
    }
  }

  method ReadInts(s: DataStream, w: nat, signed: bool) returns (n: nat, xs: seq<int>)
    requires s.ReadOk() && w > 0
    modifies s`readPos
    ensures n == GetU32(s.Source(), old(s.readPos)).0
    ensures (xs, s.readPos) == GetInts(s.Source(), GetU32(s.Source(), old(s.readPos)).1, n, w, signed) && s.ReadOk()
  {
    n := s.ReadU32();
    ghost var p := s.readPos;
    xs := [];
    var i := 0;
    while i < n
      invariant 0 <= i <= n && s.ReadOk()
      invariant (xs, s.readPos) == GetInts(s.Source(), p, i, w, signed)
    {
      var x := s.ReadInt(w, signed, 0);
      xs := xs + [x];
      i := i + 1;
    }
  }

  method ReadRow(s: DataStream) returns (r: Row)
    requires s.ReadOk()
    modifies s`readPos
    ensures (r, s.readPos) == GetRow(s.Source(), old(s.readPos)) && s.ReadOk()
  {
    hide GetString;
    var name := ReadString(s);
    var returnType := ReadString(s);
    var paramsTypes := ReadString(s);
    var comment := ReadString(s);
    r := Row(name, returnType, paramsTypes, comment);
  }

  method ReadRows(s: DataStream) returns (n: nat, rows: seq<Row>)
    requires s.ReadOk()
    modifies s`readPos
    ensures n == GetU32(s.Source(), old(s.readPos)).0
    ensures (rows, s.readPos) == GetRows(s.Source(), GetU32(s.Source(), old(s.readPos)).1, n) && s.ReadOk()
  {
    n := s.ReadU32();
    ghost var p := s.readPos;
    rows := [];
    var i := 0;
    while i < n
      invariant 0 <= i <= n && s.ReadOk()
      invariant (rows, s.readPos) == GetRows(s.Source(), p, i)
    {
      hide GetRow;
      var r := ReadRow(s);
      rows := rows + [r];
      i := i + 1;
    }
  }

  /** The overloads of the stream's input operator. */
  method ReadValue(s: DataStream, shape: Shape) returns (v: Value)
    requires s.ReadOk() && ShapeOk(shape)
    modifies s`readPos
    ensures (v, s.readPos) == GetValue(s.Source(), old(s.readPos), shape) && s.ReadOk()
  {
    match shape {
      case IntS(w, signed) =>
        var x := s.ReadInt(w, signed, 0);
        v := IntV(w, signed, x);
      case BoolS =>
        var b := s.ReadBool();
        v := BoolV(b);
      case RawS(n) =>
        var c := s.ReadRaw(n);
        v := RawV(if c.Some? then c.value else Zeros(n));
      case StrS =>
        var t := ReadString(s);
        v := StrV(t);
      case VecS(w, signed) =>
        var n, xs := ReadInts(s, w, signed);
        v := VecV(w, signed, xs);
      case RowsS =>
        var n, rows := ReadRows(s);
        v := RowsV(rows);
    }
  }

  method DeserializeArgs(s: DataStream, shapes: seq<Shape>) returns (args: seq<Value>)
    requires s.ReadOk() && forall x :: x in shapes ==> ShapeOk(x)
    modifies s`readPos
    ensures (args, s.readPos) == GetArgs(s.Source(), old(s.readPos), shapes) && s.ReadOk()
    decreases |shapes|
  {
    hide GetValue;
    args := [];
    if |shapes| > 0 {
      var n := |shapes| - 1;
      args := DeserializeArgs(s, shapes[..n]);
      var v := ReadValue(s, shapes[n]);
      args := args + [v];
    }
  }

  method DeserializeNameSignature(s: DataStream) returns (sig: Signature)
    requires s.ReadOk()
    modifies s`readPos
    ensures (sig, s.readPos) == GetSignature(s.Source(), old(s.readPos)) && s.ReadOk()
  {
    hide GetText;
    var name := s.ReadText();
    var sendReturn := s.ReadBool();
    var returnType := s.ReadText();
    var paramsType := s.ReadText();
    sig := Signature(name, sendReturn, returnType, paramsType);
  }

  method ReadHeader(s: DataStream) returns (size: u32, ptype: u32, id: u32)
    requires s.ReadOk() && Available(s.Source(), s.readPos, HEADER_SIZE)
    modifies s`readPos
    ensures s.readPos == old(s.readPos) + HEADER_SIZE && s.ReadOk()
    ensures GetU32(s.Source(), old(s.readPos)).0 == size && GetU32(s.Source(), old(s.readPos) + 4).0 == ptype
    ensures GetU32(s.Source(), old(s.readPos) + 8).0 == id
  {
    size := s.ReadU32();
    ptype := s.ReadU32();
    id := s.ReadU32();
  }

  /** The whole way: the packet built by the caller, read by the callee. */
  method CallThroughPacket(c: Call, id: u32) returns (ptype: u32, readId: u32, sig: Signature, args: seq<Value>)
    requires CallOk(c) && HEADER_SIZE + |CallBytes(c)| < U32_SIZE && id != INVALID_ID
    ensures ptype == PT_CALL && readId == id && args == c.args
    ensures sig == Signature(Some(c.name), c.sendReturn, Some(c.returnType), Some(ParamsText(c.types)))
  {
    hide GetSignature, GetArgs, CallBytes, GetU32;
    CallRoundTrip(c, id);
    ShapesOk(c.args);
    var packet := BuildCall(c, id);
    var s := new DataStream.Reader(packet[..]);
    var size: u32;
    size, ptype, readId := ReadHeader(s);
    sig := DeserializeNameSignature(s);
    args := DeserializeArgs(s, Shapes(c.args));
  }

  lemma {:induction false} ShapesOk(args: seq<Value>)
    requires forall v :: v in args ==> ValueOk(v)
    ensures forall x :: x in Shapes(args) ==> ShapeOk(x)
  {
    if args != [] {
      var init, v := args[..|args| - 1], args[|args| - 1];
      ShapesOk(init);
      assert ValueOk(v);
      assert Shapes(args) == Shapes(init) + [ShapeOf(v)];
      forall x | x in Shapes(args)
        ensures ShapeOk(x)
      {
        assert x in Shapes(init) || x == ShapeOf(v);
      }
    } else {
      assert Shapes(args) == [];
    }
  }
}
