/** The data stream: a cursor that writes into a buffer of fixed size, or only
    measures when it has no buffer, and a cursor that reads. */
module Stream {
  import opened Prelude
  import opened Packets
  import opened Bytes

  // ----- Writing, as functions on values ---------------------------------------

  /** What a stream has written: the buffer, if it has one, and the position. */
  datatype Out = Out(buf: Option<seq<byte>>, pos: u32)

  /** The bounds check of every write; it gives up when the sum could wrap. */
  predicate Refuses(size: nat, pos: nat, len: nat) {
    pos + len < U32_MAX && size < pos + len
  }

  /** The write touches only the buffer: it is refused, or it fits. */
  predicate Stays(size: nat, pos: nat, len: nat) {
    Refuses(size, pos, len) || pos + len <= size
  }

  /** Exactly when a write stays inside: it fits, or the check has room to see that it
      does not. The check gives up at the largest 32-bit number, and then a write that
      does not fit runs past the end. */
  lemma StaysInside(size: u32, pos: u32, len: u32)
    requires pos <= size
    ensures Stays(size, pos, len) <==> pos + len <= size || pos + len < U32_MAX
    ensures !Stays(size, pos, len) <==> !Refuses(size, pos, len) && pos + len > size
  {
  }

  /** There is a write that runs past the end of the buffer, except from the start of a
      buffer of the largest size. */
  lemma SomeWriteRunsPast(size: u32, pos: u32)
    requires pos <= size
    ensures (exists len: u32 :: !Stays(size, pos, len)) <==> size < U32_MAX || pos > 0
  {
    if size < U32_MAX || pos > 0 {
      var len: u32 := if size < U32_MAX then U32_MAX - pos else U32_MAX - pos + 1;
      assert !Stays(size, pos, len);
    }
  }

  /** A write of `n` bytes stays inside the stream's buffer, if it has one. */
  predicate Inside(o: Out, n: nat) {
    n < U32_SIZE && (o.buf.Some? ==> o.pos <= |o.buf.value| < U32_SIZE && Stays(|o.buf.value|, o.pos, n))
  }

  /** One write of the bytes `c`: ignored when refused, measured without a buffer. */
  function Put(o: Out, c: seq<byte>): Out
    requires Inside(o, |c|)
  {
    match o.buf
    case None => o.(pos := (o.pos + |c|) % U32_SIZE)
    case Some(b) =>
      if Refuses(|b|, o.pos, |c|) then o
      else Out(Some(b[..o.pos] + c + b[o.pos + |c|..]), o.pos + |c|)
  }

  function Total(cs: seq<seq<byte>>): nat {
    if cs == [] then 0 else Total(cs[..|cs| - 1]) + |cs[|cs| - 1]|
  }

  function Concat(cs: seq<seq<byte>>): (r: seq<byte>)
    ensures |r| == Total(cs)
  {
    if cs == [] then [] else Concat(cs[..|cs| - 1]) + cs[|cs| - 1]
  }

  /** Every write of the series stays inside. */
  predicate AllInside(o: Out, cs: seq<seq<byte>>)
    decreases |cs|, 0
  {
    cs == [] || (AllInside(o, cs[..|cs| - 1]) && Inside(PutAll(o, cs[..|cs| - 1]), |cs[|cs| - 1]|))
  }

  /** A series of writes. */
  function PutAll(o: Out, cs: seq<seq<byte>>): (r: Out)
    requires AllInside(o, cs)
    ensures r.buf.Some? == o.buf.Some? && (o.buf.Some? ==> |r.buf.value| == |o.buf.value|)
    ensures cs != [] && o.buf.Some? ==> r.pos <= |o.buf.value|
    decreases |cs|, 1
  {
    if cs == [] then o
    else Put(PutAll(o, cs[..|cs| - 1]), cs[|cs| - 1])
  }

  lemma {:induction false} ConcatAppend(a: seq<seq<byte>>, b: seq<seq<byte>>)
    ensures Concat(a + b) == Concat(a) + Concat(b)
    ensures Total(a + b) == Total(a) + Total(b)
  {
    if b == [] {
      assert a + b == a;
    } else {
      var b1 := b[..|b| - 1];
      ConcatAppend(a, b1);
      assert (a + b)[..|a + b| - 1] == a + b1;
      assert Concat(a) + (Concat(b1) + b[|b| - 1]) == Concat(a) + Concat(b1) + b[|b| - 1];
    }
  }

  lemma ConcatOne(c: seq<byte>)
    ensures Concat([c]) == c && Total([c]) == |c|
  {
    assert [c][..0] == [];
    assert Concat([c]) == [] + c;
  }

  lemma {:induction false} PutAllAppend(o: Out, a: seq<seq<byte>>, b: seq<seq<byte>>)
    ensures AllInside(o, a + b) <==> AllInside(o, a) && AllInside(PutAll(o, a), b)
    ensures AllInside(o, a + b) ==> PutAll(o, a + b) == PutAll(PutAll(o, a), b)
  {
    if b == [] {
      assert a + b == a;
    } else {
      PutAllAppend(o, a, b[..|b| - 1]);
      assert (a + b)[..|a + b| - 1] == a + b[..|b| - 1];
    }
  }

  lemma PutAllOne(o: Out, c: seq<byte>)
    ensures AllInside(o, [c]) <==> Inside(o, |c|)
    ensures Inside(o, |c|) ==> PutAll(o, [c]) == Put(o, c)
  {
    assert [c][..0] == [];
    assert AllInside(o, [c][..0]);
  }

  /** The measure alone, for any total below the width of the position. */
  lemma {:induction false} MeasureOnly(pos: u32, cs: seq<seq<byte>>)
    requires pos + Total(cs) < U32_SIZE
    ensures AllInside(Out(None, pos), cs)
    ensures PutAll(Out(None, pos), cs) == Out(None, pos + Total(cs))
  {
    if cs != [] {
      MeasureOnly(pos, cs[..|cs| - 1]);
    }
  }

  /** The buffer `b` with the bytes `x` written over it from `pos` on. */
  function Over(b: seq<byte>, pos: nat, x: seq<byte>): (r: seq<byte>)
    requires pos + |x| <= |b|
    ensures |r| == |b|
  {
    b[..pos] + x + b[pos + |x|..]
  }

  lemma OverOver(b: seq<byte>, pos: nat, x: seq<byte>, c: seq<byte>)
    requires pos + |x| + |c| <= |b|
    ensures Over(Over(b, pos, x), pos + |x|, c) == Over(b, pos, x + c)
  {
    var b1 := Over(b, pos, x);
    assert b1[..pos + |x|] == b[..pos] + x;
    assert b1[pos + |x| + |c|..] == b[pos + |x| + |c|..];
  }

  /** The two passes agree: what the pass without a buffer measures is what the
      writing pass writes, and when the total fits no write is refused and the
      bytes are the concatenation of the pieces. */
  lemma {:induction false} MeasureThenWrite(b: seq<byte>, pos: u32, cs: seq<seq<byte>>)
    requires pos + Total(cs) <= |b| < U32_SIZE
    ensures AllInside(Out(None, pos), cs) && PutAll(Out(None, pos), cs) == Out(None, pos + Total(cs))
    ensures AllInside(Out(Some(b), pos), cs)
    ensures PutAll(Out(Some(b), pos), cs) == Out(Some(Over(b, pos, Concat(cs))), pos + Total(cs))
  {
    MeasureOnly(pos, cs);
    if cs == [] {
      assert b == Over(b, pos, []);
    } else {
      var n := |cs| - 1;
      MeasureThenWrite(b, pos, cs[..n]);
      OverOver(b, pos, Concat(cs[..n]), cs[n]);
    }
  }

  // ----- Reading, as functions on values ------------------------------------------

  predicate Available(data: seq<byte>, pos: nat, n: nat) {
    pos + n <= |data|
  }

  /** An integer read into a variable that holds `before`. */
  function GetIntOr(data: seq<byte>, pos: nat, w: nat, signed: bool, before: int): (int, nat) {
    if Available(data, pos, w) then (Decode(data, pos, w, signed), pos + w) else (before, pos)
  }

  /** An integer read into a variable that was default-constructed. */
  function GetInt(data: seq<byte>, pos: nat, w: nat, signed: bool): (int, nat) {
    GetIntOr(data, pos, w, signed, 0)
  }

  function GetBool(data: seq<byte>, pos: nat): (bool, nat) {
    if Available(data, pos, 1) then (data[pos] != 0, pos + 1) else (false, pos)
  }

  function GetU32(data: seq<byte>, pos: nat): (nat, nat) {
    if Available(data, pos, 4) then (FromBytes(data, pos, 4), pos + 4) else (0, pos)
  }

  lemma Pow4()
    ensures Pow256(4) == U32_SIZE
  {
    assert Pow256(1) == 256 && Pow256(2) == 65536 && Pow256(3) == 16777216;
  }

  /** Raw bytes, or nothing when the data is too short. */
  function GetRaw(data: seq<byte>, pos: nat, n: nat): (Option<seq<byte>>, nat) {
    if Available(data, pos, n) then (Some(data[pos..pos + n]), pos + n) else (None, pos)
  }

  /** A length-prefixed string: the length is consumed even when the text is missing. */
  function GetText(data: seq<byte>, pos: nat): (Option<seq<byte>>, nat) {
    var (n, p) := GetU32(data, pos);
    if n == 0 then (Some([]), p) else GetRaw(data, p, n)
  }

  // ----- The class ------------------------------------------------------------------

  class DataStream {
    var readData: Option<seq<byte>>
    var write: array?<byte>
    var readPos: u32
    var writePos: u32

    constructor Measure()
      ensures readData == None && write == null && readPos == 0 && writePos == 0
    {
      readData, write, readPos, writePos := None, null, 0, 0;
    }

    constructor Writer(buffer: array<byte>)
      ensures readData == None && write == buffer && readPos == 0 && writePos == 0
    {
      readData, write, readPos, writePos := None, buffer, 0, 0;
    }

    constructor Reader(data: seq<byte>)
      ensures readData == Some(data) && write == null && readPos == 0 && writePos == 0
    {
      readData, write, readPos, writePos := Some(data), null, 0, 0;
    }

    ghost function View(): Out
      reads this, write
    {
      Out(if write == null then None else Some(write[..]), writePos)
    }

    ghost predicate CanWrite(n: nat)
      reads this, write
    {
      Inside(View(), n)
    }

    ghost predicate CanWriteAll(cs: seq<seq<byte>>)
      reads this, write
    {
      AllInside(View(), cs)
    }

    method WriteRaw(c: seq<byte>)
      requires CanWrite(|c|)
      modifies this`writePos, write
      ensures View() == Put(old(View()), c)
    {
      if write != null {
        if writePos + |c| < U32_MAX && write.Length < writePos + |c| {
          return;
        }
        ghost var before := write[..];
        forall i | 0 <= i < |c| {
          write[writePos + i] := c[i];
        }
        assert write[..] == before[..writePos] + c + before[writePos + |c|..];
      }
      writePos := (writePos + |c|) % U32_SIZE;
    }

    /** Integers of any width; the shifting loop produces the bytes. */
    method WriteInt(v: int, w: nat)
      requires CanWrite(w)
      modifies this`writePos, write
      ensures View() == Put(old(View()), ToBytes(v, w))
    {
      if write != null {
        if writePos + w < U32_MAX && write.Length < writePos + w {
          return;
        }
        WriteUnsafe(write, writePos, v, w);
      }
      writePos := (writePos + w) % U32_SIZE;
    }

    method WriteBool(b: bool)
      requires CanWrite(1)
      modifies this`writePos, write
      ensures View() == Put(old(View()), [if b then 1 else 0])
    {
      WriteRaw([if b then 1 else 0]);
    }

    /** What there is to read; nothing without a read buffer. */
    function Source(): seq<byte>
      reads this
    {
      if readData.Some? then readData.value else []
    }

    predicate ReadOk()
      reads this
    {
      readPos <= |Source()| < U32_SIZE
    }

    method IsReadAvailable(n: nat) returns (r: bool)
      requires ReadOk()
      ensures r == (readData.Some? && Available(Source(), readPos, n))
    {
      if readData.Some? {
        return |readData.value| - readPos >= n;
      }
      return false;
    }

    /** Reads into a variable that holds `before`; it stays as it is when the data is
        too short. */
    method ReadInt(w: nat, signed: bool, before: int) returns (v: int)
      requires ReadOk() && w > 0
      modifies this`readPos
      ensures (v, readPos) == GetIntOr(Source(), old(readPos), w, signed, before) && ReadOk()
    {
      var ok := IsReadAvailable(w);
      if !ok {
        return before;
      }
      v := ReadUnsafe(readData.value, readPos, w, signed);
      readPos := readPos + w;
    }

    method ReadU32() returns (v: u32)
      requires ReadOk()
      modifies this`readPos
      ensures (v, readPos) == GetU32(Source(), old(readPos)) && ReadOk()
    {
      var ok := IsReadAvailable(4);
      if !ok {
        return 0;
      }
      var s := ReadUnsafe(readData.value, readPos, 4, true);
      Pow4();
      FromBytesBound(readData.value, readPos, 4);
      v := if s < 0 then s + U32_SIZE else s;
      readPos := readPos + 4;
    }

    method ReadRaw(n: nat) returns (c: Option<seq<byte>>)
      requires ReadOk()
      modifies this`readPos
      ensures readData.Some? ==> (c, readPos) == GetRaw(Source(), old(readPos), n)
      ensures readData.None? ==> c.None? && readPos == old(readPos)
      ensures ReadOk()
    {
      var ok := IsReadAvailable(n);
      if !ok {
        return None;
      }
      c := Some(readData.value[readPos..readPos + n]);
      readPos := readPos + n;
    }

    method ReadBool() returns (b: bool)
      requires ReadOk()
      modifies this`readPos
      ensures (b, readPos) == GetBool(Source(), old(readPos)) && ReadOk()
    {
      var c := ReadRaw(1);
      b := c.Some? && c.value[0] != 0;
    }

    method ReadText() returns (c: Option<seq<byte>>)
      requires ReadOk()
      modifies this`readPos
      ensures (c, readPos) == GetText(Source(), old(readPos)) && ReadOk()
    {
      var n := ReadU32();
      if n == 0 {
        return Some([]);
      }
      c := ReadRaw(n);
    }
  }
}
