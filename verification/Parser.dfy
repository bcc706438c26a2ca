/** The incremental packet parser over a byte transport, and the framing of a
    whole stream that it refines. */
module Parser {
  import opened Prelude
  import opened Packets
  import opened Bytes
  import opened Stream
  import opened Codec

  // ----- Framing of a whole stream -------------------------------------------------

  function BodySize(s: seq<byte>): nat
    requires |s| >= HEADER_SIZE
  {
    FromBytes(s, 0, 4)
  }

  /** How many bytes the first packet of `s` has, once its header is there. */
  function PacketSize(s: seq<byte>): nat
    requires |s| >= HEADER_SIZE
  {
    HEADER_SIZE + BodySize(s)
  }

  predicate HasPacket(s: seq<byte>) {
    |s| >= HEADER_SIZE && |s| >= PacketSize(s)
  }

  /** The complete packets of a stream. */
  function Frames(s: seq<byte>): seq<seq<byte>> {
    if !HasPacket(s) then [] else [s[..PacketSize(s)]] + Frames(s[PacketSize(s)..])
  }

  /** The incomplete packet at the end of a stream. */
  function Rest(s: seq<byte>): (r: seq<byte>)
    ensures !HasPacket(r) && |r| <= |s|
  {
    if !HasPacket(s) then s else Rest(s[PacketSize(s)..])
  }

  /** Every header of the stream announces a packet that fits 32 bits. */
  predicate Sound(s: seq<byte>) {
    |s| >= HEADER_SIZE ==>
      PacketSize(s) < U32_SIZE && (HasPacket(s) ==> Sound(s[PacketSize(s)..]))
  }

  /** How many bytes are asked for when `rest` is there: the remaining header, then
      the remaining body. */
  function Needed(rest: seq<byte>): (n: nat)
    requires !HasPacket(rest)
    ensures n > 0
  {
    if |rest| < HEADER_SIZE then HEADER_SIZE - |rest| else PacketSize(rest) - |rest|
  }

  lemma {:induction false} FromBytesPrefix(s: seq<byte>, t: seq<byte>, pos: nat, w: nat)
    requires pos + w <= |s|
    ensures FromBytes(s + t, pos, w) == FromBytes(s, pos, w)
    decreases w
  {
    if w > 0 {
      FromBytesPrefix(s, t, pos + 1, w - 1);
    }
  }

  /** Framing is incremental: what has been framed stays, and the rest goes on. */
  lemma {:induction false} FramesExtend(s: seq<byte>, t: seq<byte>)
    ensures Frames(s + t) == Frames(s) + Frames(Rest(s) + t)
    ensures Rest(s + t) == Rest(Rest(s) + t)
    ensures Sound(s + t) ==> Sound(s) && Sound(Rest(s) + t)
    decreases |s|
  {
    hide FromBytes;
    if |s| >= HEADER_SIZE {
      FromBytesPrefix(s, t, 0, 4);
    }
    if HasPacket(s) {
      var n := PacketSize(s);
      assert (s + t)[..n] == s[..n] && (s + t)[n..] == s[n..] + t;
      FramesExtend(s[n..], t);
      assert Frames(s + t) == [s[..n]] + (Frames(s[n..]) + Frames(Rest(s[n..]) + t));
    }
  }

  lemma ConcatFirst(p: seq<byte>, ps: seq<seq<byte>>, rest: seq<byte>)
    ensures Concat([p] + ps) + rest == p + (Concat(ps) + rest)
  {
    ConcatAppend([p], ps);
    ConcatOne(p);
  }

  lemma FramesUnfold(s: seq<byte>)
    ensures !HasPacket(s) ==> Concat(Frames(s)) + Rest(s) == s
    ensures HasPacket(s) ==> var n := PacketSize(s);
                             Frames(s) == [s[..n]] + Frames(s[n..]) && Rest(s) == Rest(s[n..])
  {
    hide FromBytes;
  }

  /** A stream is its packets followed by the rest. */
  lemma {:induction false} FramesConserve(s: seq<byte>)
    ensures Concat(Frames(s)) + Rest(s) == s
    decreases |s|
  {
    hide FromBytes, Concat, Frames, Rest;
    FramesUnfold(s);
    if HasPacket(s) {
      var n := PacketSize(s);
      FramesConserve(s[n..]);
      ConcatFirst(s[..n], Frames(s[n..]), Rest(s[n..]));
    }
  }

  predicate IsPacket(p: seq<byte>) {
    |p| >= HEADER_SIZE && |p| == PacketSize(p)
  }

  lemma FramesNothing()
    ensures Frames([]) == [] && Rest([]) == [] && Sound([])
  {
  }

  /** Framing undoes concatenation: the packets that were written one after the
      other are the packets that are found, and nothing is left over. */
  lemma {:induction false} FramesOfPackets(ps: seq<seq<byte>>)
    requires forall p :: p in ps ==> IsPacket(p)
    ensures Frames(Concat(ps)) == ps && Rest(Concat(ps)) == []
    ensures (forall p :: p in ps ==> |p| < U32_SIZE) ==> Sound(Concat(ps))
  {
    hide Frames, Rest, Sound, IsPacket;
    if ps == [] {
      FramesNothing();
    } else {
      var init, p := ps[..|ps| - 1], ps[|ps| - 1];
      FramesOfPackets(init);
      FramesExtend(Concat(init), p);
      assert [] + p == p;
      OnePacket(p);
      if forall q :: q in ps ==> |q| < U32_SIZE {
        SoundAppend(Concat(init), p);
      }
      assert ps == init + [p];
    }
  }

  lemma OnePacket(p: seq<byte>)
    requires IsPacket(p)
    ensures Frames(p) == [p] && Rest(p) == [] && (|p| < U32_SIZE ==> Sound(p))
  {
    assert p[..PacketSize(p)] == p && p[PacketSize(p)..] == [];
  }

  lemma {:induction false} SoundAppend(s: seq<byte>, t: seq<byte>)
    requires Rest(s) == [] && Sound(s) && Sound(t)
    ensures Sound(s + t)
    decreases |s|
  {
    hide FromBytes;
    if HasPacket(s) {
      var n := PacketSize(s);
      FromBytesPrefix(s, t, 0, 4);
      assert (s + t)[n..] == s[n..] + t;
      SoundAppend(s[n..], t);
    } else {
      assert s + t == t;
    }
  }

  lemma PacketsThenRest(ps: seq<seq<byte>>, rest: seq<byte>)
    requires (forall p :: p in ps ==> IsPacket(p)) && !HasPacket(rest)
    ensures Frames(Concat(ps) + rest) == ps && Rest(Concat(ps) + rest) == rest
  {
    FramesOfPackets(ps);
    FramesExtend(Concat(ps), rest);
    assert [] + rest == rest;
  }

  /** What a call packet announces is what it carries. */
  lemma CallIsPacket(c: Call, id: u32)
    requires |CallBytes(c)| + HEADER_SIZE < U32_SIZE
    ensures IsPacket(CallPacket(c, id))
  {
    var data, header := CallPacket(c, id), HeaderBytes(|CallBytes(c)|, PT_CALL, id);
    assert At(data, 0, header) by {
      assert data == header + CallBytes(c);
      AtSplit(data, 0, header, CallBytes(c));
    }
    HeaderAt(data, |CallBytes(c)|, PT_CALL, id);
  }

  // ----- The byte transport --------------------------------------------------------

  /** What can happen while a reader waits; `Wake` is a wakeup without news. */
  datatype Event = Arrive(bytes: seq<byte>) | Cancel | Wake

  function After(s: seq<byte>, e: Event): seq<byte> {
    if e.Arrive? then s + e.bytes else s
  }

  /** All that arrives in a series of events. */
  function Arrived(es: seq<Event>): seq<byte> {
    if es == [] then [] else (if es[0].Arrive? then es[0].bytes else []) + Arrived(es[1..])
  }

  /** The wait for `expected` bytes ends within the events. */
  predicate Served(s: seq<byte>, cancelled: bool, es: seq<Event>, expected: nat)
    decreases |es|
  {
    |s| >= expected || cancelled || (es != [] && Served(After(s, es[0]), es[0].Cancel?, es[1..], expected))
  }

  class ByteTransport {
    var data: seq<byte>
    var cancelled: bool
    /** How many reads still succeed; `None` on a transport that never fails. */
    var failsAfter: Option<nat>

    constructor ()
      ensures data == [] && !cancelled && failsAfter.None?
    {
      data, cancelled, failsAfter := [], false, None;
    }

    predicate Healthy()
      reads this
    {
      failsAfter.None?
    }

    method ReadBytesAvailable() returns (n: nat)
      ensures n == |data|
    {
      return |data|;
    }

    method Read(buffer: array<byte>, offset: nat, n: nat) returns (ok: bool)
      requires offset + n <= buffer.Length
      modifies this`data, this`failsAfter, buffer
      ensures ok ==> n <= |old(data)| && data == old(data)[n..]
                     && buffer[..] == Over(old(buffer[..]), offset, old(data)[..n])
      ensures !ok ==> data == old(data) && buffer[..] == old(buffer[..])
      ensures Healthy() == old(Healthy()) && (Healthy() ==> ok == (n <= |old(data)|))
    {
      if failsAfter.Some? {
        if failsAfter.value == 0 {
          return false;
        }
        failsAfter := Some(failsAfter.value - 1);
      }
      if |data| < n {
        return false;
      }
      ghost var before := buffer[..];
      forall i | 0 <= i < n {
        buffer[offset + i] := data[i];
      }
      assert buffer[..] == Over(before, offset, data[..n]);
      data := data[n..];
      return true;
    }

    /** Sleeps until the expected bytes are there or the wait is cancelled. */
    method WaitRespond(expected: nat, events: seq<Event>) returns (ok: bool, used: nat)
      requires Served(data, cancelled, events, expected)
      modifies this`data, this`cancelled
      ensures used <= |events| && data == old(data) + Arrived(events[..used])
      ensures ok == !cancelled && (ok ==> |data| >= expected)
      ensures cancelled <==> old(cancelled) || Cancel in events[..used]
    {
      hide Arrived;
      used := 0;
      NoneArrived(events);
      assert events[0..] == events;
      while |data| < expected && !cancelled
        invariant used <= |events|
        invariant data == old(data) + Arrived(events[..used])
        invariant Served(data, cancelled, events[used..], expected)
        invariant cancelled <==> old(cancelled) || Cancel in events[..used]
        decreases |events| - used
      {
        ArrivedPush(events, used);
        assert events[..used + 1] == events[..used] + [events[used]];
        match events[used] {
          case Arrive(bytes) => data := data + bytes;
          case Cancel => cancelled := true;
          case Wake =>
        }
        used := used + 1;
      }
      ok := !cancelled;
    }
  }

  lemma {:induction false} ArrivedPush(es: seq<Event>, i: nat)
    requires i < |es|
    ensures Arrived(es[..i + 1]) == Arrived(es[..i]) + if es[i].Arrive? then es[i].bytes else []
    ensures es[i..][0] == es[i] && es[i..][1..] == es[i + 1..]
  {
    if i == 0 {
      assert es[..1][1..] == [] && es[..1][0] == es[0];
      assert Arrived(es[..1]) == (if es[0].Arrive? then es[0].bytes else []) + Arrived([]);
    } else {
      ArrivedPush(es[1..], i - 1);
      assert es[..i + 1][1..] == es[1..][..i] && es[..i][1..] == es[1..][..i - 1];
    }
  }

  // ----- The parser ------------------------------------------------------------------

  const NO_SIZE: u32 := U32_MAX

  datatype ReadDataStatus = DataRead | NoData | Failed

  /** The first bytes of a buffer after a write behind them. */
  lemma OverPrefix(b: seq<byte>, pos: nat, x: seq<byte>)
    requires pos + |x| <= |b|
    ensures Over(b, pos, x)[..pos + |x|] == b[..pos] + x
    ensures pos >= HEADER_SIZE ==> Over(b, pos, x)[..HEADER_SIZE] == b[..HEADER_SIZE]
  {
  }

  lemma SizeInHeader(s: seq<byte>)
    requires |s| >= HEADER_SIZE
    ensures BodySize(s) == BodySize(s[..HEADER_SIZE])
  {
    assert s == s[..HEADER_SIZE] + s[HEADER_SIZE..];
    FromBytesPrefix(s[..HEADER_SIZE], s[HEADER_SIZE..], 0, 4);
  }

  lemma Regroup(done: seq<byte>, held: seq<byte>, data: seq<byte>, k: nat)
    requires k <= |data|
    ensures done + held + data[..k] == done + (held + data[..k])
    ensures done + held + data[..k] + data[k..] == done + held + data
  {
  }

  lemma WholePacket(ps: seq<seq<byte>>, p: seq<byte>)
    requires |p| >= HEADER_SIZE && BodySize(p[..HEADER_SIZE]) == |p| - HEADER_SIZE
    ensures IsPacket(p) && Concat(ps + [p]) == Concat(ps) + p
  {
    SizeInHeader(p);
    ConcatAppend(ps, [p]);
    ConcatOne(p);
  }

  lemma SoundHeader(ps: seq<seq<byte>>, header: seq<byte>, data: seq<byte>)
    requires forall p :: p in ps ==> IsPacket(p)
    requires |header| == HEADER_SIZE && Sound(Concat(ps) + header + data)
    ensures PacketSize(header) < U32_SIZE
  {
    hide FromBytes, Concat, IsPacket;
    FramesOfPackets(ps);
    assert Concat(ps) + header + data == Concat(ps) + (header + data);
    FramesExtend(Concat(ps), header + data);
    assert [] + (header + data) == header + data;
    FromBytesPrefix(header, data, 0, 4);
  }

  class PacketParser {
    var dataSize: u32
    var needSize: u32
    const rawHeader: array<byte>
    var incoming: array?<byte>
    ghost var consumed: seq<byte>
    ghost var emitted: seq<seq<byte>>

    /** The state inside a call: the needed bytes may all be there. */
    ghost predicate Loose()
      reads this, rawHeader, incoming
    {
      && rawHeader.Length == HEADER_SIZE && incoming != rawHeader
      && (dataSize == NO_SIZE ==> needSize <= HEADER_SIZE)
      && (dataSize != NO_SIZE ==>
            && incoming != null && incoming.Length == HEADER_SIZE + dataSize < U32_SIZE && needSize <= dataSize
            && BodySize(incoming[..HEADER_SIZE]) == dataSize)
      && consumed == Concat(emitted) + Held()
      && (forall p :: p in emitted ==> IsPacket(p))
    }

    /** The part of a packet that the state holds. */
    ghost function Held(): seq<byte>
      reads this, rawHeader, incoming
      requires rawHeader.Length == HEADER_SIZE
      requires dataSize == NO_SIZE ==> needSize <= HEADER_SIZE
      requires dataSize != NO_SIZE ==> incoming != null && needSize <= incoming.Length
    {
      if dataSize == NO_SIZE then rawHeader[..HEADER_SIZE - needSize] else incoming[..incoming.Length - needSize]
    }

    /** The state between calls: what is consumed is the emitted packets and a
        packet of which something is missing. */
    ghost predicate Valid()
      reads this, rawHeader, incoming
    {
      Loose() && needSize > 0
    }

    constructor ()
      ensures Valid() && consumed == [] && emitted == []
      ensures fresh(rawHeader) && incoming == null
    {
      rawHeader := new byte[12](i => 0);
      dataSize, needSize, incoming := NO_SIZE, 12, null;
      consumed, emitted := [], [];
    }

    lemma HeldIsOpen()
      requires Valid()
      ensures !HasPacket(Held()) && needSize == Needed(Held())
    {
      hide Concat, IsPacket, FromBytes;
      if dataSize != NO_SIZE {
        assert Held()[..HEADER_SIZE] == incoming[..HEADER_SIZE];
        SizeInHeader(Held());
      }
    }

    /** What the state holds is the unfinished rest of the consumed bytes, and what
        was emitted are the packets in them. */
    lemma HeldIsRest()
      requires Valid()
      ensures Rest(consumed) == Held() && Frames(consumed) == emitted
    {
      HeldIsOpen();
      PacketsThenRest(emitted, Held());
    }

    /** Reads what there is, but no more than is still needed. */
    method ReadDataIsAvailable(t: ByteTransport, buffer: array<byte>, base: nat, size: u32)
      returns (status: ReadDataStatus)
      requires needSize <= size && base + size == buffer.Length
      modifies this`needSize, t`data, t`failsAfter, buffer
      ensures status.Failed? || old(t.data) == [] ==>
                needSize == old(needSize) && t.data == old(t.data) && buffer[..] == old(buffer[..])
      ensures !status.Failed? ==>
                var k := if old(needSize) <= |old(t.data)| then old(needSize) else |old(t.data)|;
                && needSize == old(needSize) - k && t.data == old(t.data)[k..]
                && buffer[..] == Over(old(buffer[..]), buffer.Length - old(needSize), old(t.data)[..k])
      ensures status.NoData? <==> old(t.data) == []
      ensures t.Healthy() == old(t.Healthy()) && (t.Healthy() ==> !status.Failed?)
      ensures old(needSize) == 0 ==> !status.Failed?
    {
      var available := t.ReadBytesAvailable();
      if available > 0 {
        var readSize := if needSize <= available then needSize else available;
        if readSize != 0 {
          var ok := t.Read(buffer, base + size - needSize, readSize);
          if !ok {
            return Failed;
          }
          needSize := needSize - readSize;
        } else {
          assert buffer[..] == Over(buffer[..], buffer.Length, t.data[..0]);
        }
        return DataRead;
      }
      assert buffer[..] == Over(buffer[..], buffer.Length - needSize, t.data[..0]);
      return NoData;
    }

    /** The header is complete: allocate the packet and go on with its body. */
    method ReceiveReadHeader()
      requires Loose() && dataSize == NO_SIZE && needSize == 0
      requires PacketSize(rawHeader[..]) < U32_SIZE
      modifies this`dataSize, this`needSize, this`incoming
      ensures Loose() && dataSize != NO_SIZE && needSize == dataSize
      ensures fresh(incoming)
    {
      assert rawHeader[..HEADER_SIZE] == rawHeader[..];
      FromBytesBound(rawHeader[..], 0, 4);
      Pow4();
      var s := ReadUnsafe(rawHeader[..], 0, 4, false);
      dataSize := s;
      needSize := dataSize;
      incoming := new byte[HEADER_SIZE + dataSize](i => 0);
      forall i | 0 <= i < HEADER_SIZE {
        incoming[i] := rawHeader[i];
      }
      assert incoming[..HEADER_SIZE] == rawHeader[..];
    }

    method PullHeader(t: ByteTransport) returns (status: ReadDataStatus)
      requires Loose() && dataSize == NO_SIZE
      modifies this`needSize, this`consumed, t`data, t`failsAfter, rawHeader
      ensures Loose() && emitted == old(emitted)
      ensures consumed + t.data == old(consumed + t.data)
      ensures status.Failed? ==> !t.Healthy() && 0 < needSize == old(needSize) && consumed == old(consumed)
      ensures status.NoData? ==> needSize == old(needSize)
      ensures !status.Failed? && needSize != 0 ==> t.data == []
      ensures t.Healthy() == old(t.Healthy())
    {
      hide Concat, IsPacket, BodySize, Over;
      ghost var data0, need0, held0 := t.data, needSize, Held();
      ghost var k := if need0 <= |data0| then need0 else |data0|;
      OverPrefix(rawHeader[..], HEADER_SIZE - need0, data0[..k]);
      status := ReadDataIsAvailable(t, rawHeader, 0, HEADER_SIZE);
      if !status.Failed? {
        Regroup(Concat(emitted), held0, data0, k);
        consumed := consumed + data0[..k];
        assert Held() == held0 + data0[..k];
      }
    }

    method PullBody(t: ByteTransport) returns (status: ReadDataStatus)
      requires Loose() && dataSize != NO_SIZE
      modifies this`needSize, this`consumed, t`data, t`failsAfter, incoming
      ensures Loose() && emitted == old(emitted)
      ensures consumed + t.data == old(consumed + t.data)
      ensures status.Failed? ==> !t.Healthy() && 0 < needSize == old(needSize) && consumed == old(consumed)
      ensures status.NoData? ==> needSize == old(needSize)
      ensures !status.Failed? && needSize != 0 ==> t.data == []
      ensures t.Healthy() == old(t.Healthy())
    {
      hide Concat, IsPacket, BodySize, Over;
      ghost var data0, need0, held0 := t.data, needSize, Held();
      ghost var k := if need0 <= |data0| then need0 else |data0|;
      OverPrefix(incoming[..], incoming.Length - need0, data0[..k]);
      status := ReadDataIsAvailable(t, incoming, HEADER_SIZE, dataSize);
      if !status.Failed? {
        Regroup(Concat(emitted), held0, data0, k);
        consumed := consumed + data0[..k];
        assert Held() == held0 + data0[..k];
      }
    }

    /** The complete packet leaves the state, which starts afresh. */
    method Emit() returns (packet: array<byte>)
      requires Loose() && dataSize != NO_SIZE && needSize == 0
      modifies this, rawHeader
      ensures Valid() && incoming == null && packet == old(incoming) && packet[..] == old(packet[..])
      ensures emitted == old(emitted) + [packet[..]] && Held() == [] && consumed == old(consumed)
    {
      hide Concat, IsPacket, BodySize;
      packet := incoming;
      ghost var whole := packet[..];
      WholePacket(emitted, whole);
      Regroup(Concat(emitted), whole, [], 0);
      assert Held() == whole && whole[..HEADER_SIZE] == packet[..HEADER_SIZE];
      emitted := emitted + [whole];
      dataSize, needSize, incoming := NO_SIZE, 12, null;
      ClearHeader();
      assert consumed + [] == consumed;
    }

    /** The header bytes of a fresh state. */
    method ClearHeader()
      requires rawHeader.Length == HEADER_SIZE
      modifies rawHeader
    {
      forall i | 0 <= i < 12 {
        rawHeader[i] := 0;
      }
    }

    /** A header is only read from a sound stream. */
    lemma HeaderIsSound(data: seq<byte>)
      requires Loose() && dataSize == NO_SIZE && needSize == 0 && Sound(consumed + data)
      ensures PacketSize(rawHeader[..]) < U32_SIZE
    {
      hide Concat, IsPacket, PacketSize, Sound;
      assert Held() == rawHeader[..];
      SoundHeader(emitted, rawHeader[..], data);
    }

    /** One call of the parser. It consumes what the transport has, up to the end of
        the current packet, and hands the packet out as soon as it is complete. */
    method ReadNeededDataSize(t: ByteTransport) returns (r: u32, packet: array?<byte>)
      requires Valid() && Sound(consumed + t.data)
      modifies this, rawHeader, incoming, t
      ensures Valid() && (incoming == old(incoming) || incoming == null || fresh(incoming))
      ensures packet == null || packet == old(incoming) || fresh(packet)
      ensures consumed + t.data == old(consumed + t.data) && t.cancelled == old(t.cancelled)
      ensures r == NO_SIZE ==> packet == null && !t.Healthy()
      ensures r != NO_SIZE ==> r == needSize
      ensures packet == null ==> emitted == old(emitted)
      ensures packet != null ==> emitted == old(emitted) + [packet[..]] && Held() == []
      ensures r != NO_SIZE && packet == null ==> t.data == []
      ensures t.Healthy() == old(t.Healthy())
    {
      hide Concat, IsPacket, BodySize, Sound, PacketSize;
      packet := null;
      if dataSize == NO_SIZE {
        var status := PullHeader(t);
        if status.Failed? {
          return NO_SIZE, null;
        }
        if status.DataRead? && needSize == 0 {
          HeaderIsSound(t.data);
          ReceiveReadHeader();
        }
      }
      if dataSize != NO_SIZE {
        var status := PullBody(t);
        if status.Failed? {
          return NO_SIZE, null;
        }
        if needSize == 0 {
          packet := Emit();
        }
      }
      r := needSize;
    }
  }

  /** The next packet of a stream comes out exactly when it is complete. */
  lemma NextFrame(ps: seq<seq<byte>>, s: seq<byte>)
    requires (forall p :: p in ps ==> IsPacket(p))
    ensures Frames(Concat(ps) + s) == ps + Frames(s)
  {
    FramesOfPackets(ps);
    FramesExtend(Concat(ps), s);
    assert [] + s == s;
  }

  // ----- The proxy -------------------------------------------------------------------

  /** The transport delivers a complete packet, or is cancelled, within the events. */
  predicate Completes(s: seq<byte>, cancelled: bool, es: seq<Event>)
    decreases |es|
  {
    HasPacket(s) || cancelled || (es != [] && Completes(After(s, es[0]), es[0].Cancel?, es[1..]))
  }

  /** A transport that completes the packet serves every wait on the way to it. */
  lemma {:induction false} CompletesServes(held: seq<byte>, data: seq<byte>, cancelled: bool, es: seq<Event>)
    requires !HasPacket(held) && Completes(held + data, cancelled, es)
    ensures Served(data, cancelled, es, Needed(held))
    decreases |es|
  {
    hide FromBytes;
    if |held| >= HEADER_SIZE {
      FromBytesPrefix(held, data, 0, 4);
    }
    if !HasPacket(held + data) && !cancelled {
      assert held + After(data, es[0]) == After(held + data, es[0]);
      CompletesServes(held, After(data, es[0]), es[0].Cancel?, es[1..]);
    }
  }

  lemma ServedIfOpen(held: seq<byte>, cancelled: bool, es: seq<Event>)
    requires Completes(held, cancelled, es)
    ensures !HasPacket(held) ==> Served([], cancelled, es, Needed(held))
  {
    hide HasPacket, Completes, Served;
    assert held + [] == held;
    if !HasPacket(held) {
      CompletesServes(held, [], cancelled, es);
    }
  }

  lemma {:induction false} CompletesLater(s: seq<byte>, cancelled: bool, es: seq<Event>, n: nat)
    requires n <= |es| && Completes(s, cancelled, es)
    requires !HasPacket(s + Arrived(es[..n])) && !cancelled && Cancel !in es[..n]
    ensures Completes(s + Arrived(es[..n]), false, es[n..])
    decreases n
  {
    if n == 0 {
      assert s + Arrived(es[..0]) == s && es[0..] == es;
    } else {
      var a := if es[0].Arrive? then es[0].bytes else [];
      assert es[..n][1..] == es[1..][..n - 1] && es[..n][0] == es[0] && es[1..][n - 1..] == es[n..];
      assert s + Arrived(es[..n]) == After(s, es[0]) + Arrived(es[1..][..n - 1]);
      assert forall e :: e in es[1..][..n - 1] ==> e in es[..n];
      NotYet(s, Arrived(es[..n]));
      CompletesLater(After(s, es[0]), es[0].Cancel?, es[1..], n - 1);
    }
  }

  lemma NotYet(s: seq<byte>, t: seq<byte>)
    requires !HasPacket(s + t)
    ensures !HasPacket(s)
  {
    if |s| >= HEADER_SIZE {
      FromBytesPrefix(s, t, 0, 4);
    }
  }

  lemma WaitCompletes(held: seq<byte>, data: seq<byte>)
    requires !HasPacket(held) && |data| >= Needed(held) && !HasPacket(held + data)
    ensures |held| < HEADER_SIZE <= |held + data|
  {
    if |held| >= HEADER_SIZE {
      FromBytesPrefix(held, data, 0, 4);
    }
  }

  lemma SoundSoFar(s: seq<byte>, t: seq<byte>)
    requires Sound(s + t)
    ensures Sound(s)
  {
    FramesExtend(s, t);
  }

  /** Turns a transport of bytes into one of packets. */
  class TransportProxy {
    const transport: ByteTransport
    const parser: PacketParser

    constructor (transport: ByteTransport)
      ensures this.transport == transport && fresh(parser) && fresh(parser.rawHeader) && parser.incoming == null
      ensures parser.Valid() && parser.consumed == [] && parser.emitted == []
    {
      this.transport := transport;
      parser := new PacketParser();
    }

    /** All bytes that the peer has sent so far. */
    ghost function Stream(): seq<byte>
      reads transport, parser
    {
      parser.consumed + transport.data
    }

    /** The bytes of the packet to come. */
    ghost function Ahead(): seq<byte>
      reads transport, parser, parser.rawHeader, parser.incoming
      requires parser.Valid()
    {
      parser.Held() + transport.data
    }

    /** Parse, wait if nothing is complete, parse again. A waiting call brings a packet,
        or completes a header that was incomplete, or tells of a cancelled wait or a
        transport whose reads fail. */
    method Read(wait: bool, events: seq<Event>) returns (ok: bool, packet: array?<byte>, used: nat)
      requires parser.Valid() && Sound(Stream() + Arrived(events))
      requires wait && !HasPacket(Ahead()) ==> Served([], transport.cancelled, events, Needed(Ahead()))
      modifies parser, parser.rawHeader, parser.incoming, transport
      ensures parser.Valid() && transport.Healthy() == old(transport.Healthy())
      ensures parser.incoming == old(parser.incoming) || parser.incoming == null || fresh(parser.incoming)
      ensures used <= |events| && Stream() == old(Stream()) + Arrived(events[..used])
      ensures packet != null ==> ok && parser.emitted == old(parser.emitted) + [packet[..]]
      ensures packet == null ==> parser.emitted == old(parser.emitted)
      ensures !ok ==> (wait && transport.cancelled) || !transport.Healthy()
      ensures !wait ==> used == 0
      ensures wait && ok && packet == null ==>
                && |old(Ahead())| < HEADER_SIZE <= |parser.Held()| && transport.data == [] && !transport.cancelled
                && (old(Completes(Ahead(), transport.cancelled, events)) ==> Completes(Ahead(), false, events[used..]))
    {
      hide Sound, Frames, HasPacket, Needed, Arrived, Concat, Completes, Served, IsPacket, BodySize, PacketParser.Held;
      used := 0;
      var needed: u32;
      ghost var stream := Stream();
      SoundSoFar(stream, Arrived(events));
      assert stream + Arrived(events[..0]) == stream by {
        NoneArrived(events);
      }
      needed, packet := parser.ReadNeededDataSize(transport);
      if needed == NO_SIZE {
        return false, null, 0;
      }
      if packet != null || !wait {
        return true, packet, 0;
      }
      NothingComplete(parser, old(parser.Held()), old(transport.data));
      assert Ahead() == parser.Held() + [] == parser.Held();
      ok, packet, used := WaitAndParse(needed, events);
    }

    /** The second half: everything is held, so wait for what is needed and parse. */
    method WaitAndParse(needed: u32, events: seq<Event>) returns (ok: bool, packet: array?<byte>, used: nat)
      requires parser.Valid() && needed == parser.needSize && transport.data == []
      requires Sound(Stream() + Arrived(events)) && Served([], transport.cancelled, events, needed)
      modifies parser, parser.rawHeader, parser.incoming, transport
      ensures parser.Valid() && transport.Healthy() == old(transport.Healthy())
      ensures parser.incoming == old(parser.incoming) || parser.incoming == null || fresh(parser.incoming)
      ensures used <= |events| && Stream() == old(Stream()) + Arrived(events[..used])
      ensures packet != null ==> ok && parser.emitted == old(parser.emitted) + [packet[..]]
      ensures packet == null ==> parser.emitted == old(parser.emitted)
      ensures !ok ==> transport.cancelled || !transport.Healthy()
      ensures ok && packet == null ==>
                && |old(parser.Held())| < HEADER_SIZE <= |parser.Held()| && transport.data == [] && !transport.cancelled
                && (old(Completes(parser.Held(), transport.cancelled, events)) ==> Completes(Ahead(), false, events[used..]))
    {
      hide Sound, Frames, HasPacket, Needed, Arrived, Concat, Completes, Served, IsPacket, BodySize, PacketParser.Held;
      ghost var held, stream := parser.Held(), Stream();
      parser.HeldIsOpen();
      ok, used := transport.WaitRespond(needed, events);
      assert Stream() == stream + Arrived(events[..used]);
      if !ok {
        return false, null, used;
      }
      Earlier(stream, events, used);
      ghost var data := transport.data;
      var missing;
      missing, packet := parser.ReadNeededDataSize(transport);
      if missing == NO_SIZE {
        return false, null, used;
      }
      if packet == null {
        parser.HeldIsOpen();
        StillIncomplete(parser.emitted, held, data, parser.Held(), events, used);
        assert Ahead() == parser.Held() + [];
      }
    }
  }

  /** The first parse gave no packet: everything is held. */
  lemma NothingComplete(parser: PacketParser, h: seq<byte>, d: seq<byte>)
    requires parser.Valid() && parser.consumed + [] == Concat(parser.emitted) + h + d
    ensures parser.Held() == h + d && !HasPacket(h + d) && parser.needSize == Needed(h + d)
  {
    hide HasPacket, Needed, Concat;
    SameHeld(parser.emitted, h, d, parser.Held(), []);
    parser.HeldIsOpen();
    assert parser.Held() + [] == parser.Held();
  }

  /** The second parse gave no packet although the wait was served: only the header
      was waited for. */
  lemma StillIncomplete(ps: seq<seq<byte>>, held: seq<byte>, data: seq<byte>, held2: seq<byte>, es: seq<Event>, used: nat)
    requires Concat(ps) + held2 + [] == Concat(ps) + held + data
    requires used <= |es| && data == Arrived(es[..used])
    requires !HasPacket(held) && |data| >= Needed(held) && !HasPacket(held2)
    requires Cancel !in es[..used]
    ensures |held| < HEADER_SIZE <= |held2| && (Completes(held, false, es) ==> Completes(held2 + [], false, es[used..]))
  {
    hide HasPacket, Completes, Needed, Concat, Arrived;
    SameHeld(ps, held, data, held2, []);
    assert held2 + [] == held2;
    WaitCompletes(held, data);
    if Completes(held, false, es) {
      CompletesLater(held, false, es, used);
    }
  }

  lemma NoneArrived(es: seq<Event>)
    ensures Arrived(es[..0]) == []
  {
  }

  lemma SameHeld(ps: seq<seq<byte>>, h: seq<byte>, d: seq<byte>, h1: seq<byte>, d1: seq<byte>)
    requires Concat(ps) + h1 + d1 == Concat(ps) + h + d
    ensures h1 + d1 == h + d
  {
    var c := Concat(ps);
    assert (c + h1 + d1)[|c|..] == h1 + d1;
    assert (c + h + d)[|c|..] == h + d;
  }

  lemma Earlier(s: seq<byte>, es: seq<Event>, n: nat)
    requires n <= |es| && Sound(s + Arrived(es))
    ensures Sound(s + Arrived(es[..n]))
  {
    ArrivedSplit(es, n);
    assert s + Arrived(es) == s + Arrived(es[..n]) + Arrived(es[n..]);
    SoundSoFar(s + Arrived(es[..n]), Arrived(es[n..]));
  }

  lemma {:induction false} ArrivedSplit(es: seq<Event>, n: nat)
    requires n <= |es|
    ensures Arrived(es) == Arrived(es[..n]) + Arrived(es[n..])
    decreases n
  {
    if n == 0 {
      assert es[..0] == [] && es[0..] == es;
    } else {
      ArrivedSplit(es[1..], n - 1);
      assert es[..n][1..] == es[1..][..n - 1] && es[1..][n - 1..] == es[n..];
    }
  }

  /** Reads until a packet comes. On a transport that delivers a packet or is cancelled
      two reads are enough from every state of the parser; only a cancelled wait or a
      failing transport leaves it without a packet. */
  method ReceivePacket(proxy: TransportProxy, events: seq<Event>)
    returns (ok: bool, packet: array?<byte>, tries: nat)
    requires proxy.parser.Valid() && Sound(proxy.Stream() + Arrived(events))
    requires Completes(proxy.Ahead(), proxy.transport.cancelled, events)
    modifies proxy.parser, proxy.parser.rawHeader, proxy.parser.incoming, proxy.transport
    ensures proxy.parser.Valid() && tries <= 2
    ensures ok ==> packet != null && proxy.parser.emitted == old(proxy.parser.emitted) + [packet[..]]
    ensures !ok ==> proxy.transport.cancelled || !proxy.transport.Healthy()
  {
    hide Sound, Arrived, Concat, Completes, Served, HasPacket, Needed, IsPacket, BodySize, PacketParser.Held;
    var used;
    ServedIfOpen(proxy.Ahead(), proxy.transport.cancelled, events);
    ok, packet, used := proxy.Read(true, events);
    if !ok || packet != null {
      return ok, packet, 1;
    }
    ghost var stream := old(proxy.Stream());
    ArrivedSplit(events, used);
    assert stream + Arrived(events[..used]) + Arrived(events[used..]) == stream + Arrived(events);
    ServedIfOpen(proxy.Ahead(), false, events[used..]);
    ok, packet, used := proxy.Read(true, events[used..]);
    tries := 2;
  }

  // ----- Every way of cutting the stream -----------------------------------------------

  /** A schedule: bytes come in, and now and then the parser is called. */
  datatype Step = Chunk(bytes: seq<byte>) | Parse

  function AllBytes(steps: seq<Step>): seq<byte> {
    if steps == [] then []
    else AllBytes(steps[..|steps| - 1]) + if steps[|steps| - 1].Chunk? then steps[|steps| - 1].bytes else []
  }

  lemma {:induction false} AllBytesPrefix(steps: seq<Step>, n: nat)
    requires n <= |steps| && Sound(AllBytes(steps))
    ensures Sound(AllBytes(steps[..n]))
    decreases |steps|
  {
    hide Sound;
    if n == |steps| {
      assert steps[..n] == steps;
    } else {
      var last := |steps| - 1;
      SoundSoFar(AllBytes(steps[..last]), if steps[last].Chunk? then steps[last].bytes else []);
      AllBytesPrefix(steps[..last], n);
      assert steps[..last][..n] == steps[..n];
    }
  }

  lemma AllBytesStep(steps: seq<Step>, i: nat)
    requires Sound(AllBytes(steps))
    ensures AllBytes(steps[..0]) == []
    ensures i < |steps| ==> Sound(AllBytes(steps[..i]))
    ensures i < |steps| ==> AllBytes(steps[..i + 1]) == AllBytes(steps[..i]) + if steps[i].Chunk? then steps[i].bytes else []
  {
    hide Sound;
    if i < |steps| {
      AllBytesPrefix(steps, i);
      assert steps[..i + 1][..i] == steps[..i];
    }
  }

  /** Whatever the chunks and whenever the parser is called between them: the packets
      that come out are the packets of the whole stream, in order. */
  method ParseSchedule(steps: seq<Step>) returns (packets: seq<seq<byte>>)
    requires Sound(AllBytes(steps))
    ensures packets == Frames(AllBytes(steps))
  {
    hide Concat, IsPacket, BodySize, Sound, PacketParser.Held, AllBytes, Frames;
    var t := new ByteTransport();
    var p := new PacketParser();
    packets := [];
    var i := 0;
    AllBytesStep(steps, 0);
    while i < |steps|
      invariant i <= |steps| && fresh(p) && fresh(p.rawHeader) && fresh(t) && (p.incoming == null || fresh(p.incoming))
      invariant p.Valid() && t.Healthy() && p.emitted == packets
      invariant p.consumed + t.data == AllBytes(steps[..i])
    {
      AllBytesStep(steps, i);
      match steps[i] {
        case Chunk(bytes) =>
          t.data := t.data + bytes;
        case Parse =>
          var _, packet := p.ReadNeededDataSize(t);
          if packet != null {
            packets := packets + [packet[..]];
          }
      }
      i := i + 1;
    }
    assert steps[..i] == steps;
    packets := Drain(p, t, packets);
    p.HeldIsRest();
    assert p.consumed + [] == p.consumed;
  }

  lemma MoreFrames(ps: seq<seq<byte>>, held: seq<byte>, data: seq<byte>)
    requires forall p :: p in ps ==> IsPacket(p)
    ensures |ps| <= |Frames(Concat(ps) + held + data)|
  {
    NextFrame(ps, held + data);
    assert Concat(ps) + held + data == Concat(ps) + (held + data);
  }

  /** Calls the parser until it has nothing more to give. */
  method Drain(p: PacketParser, t: ByteTransport, before: seq<seq<byte>>) returns (packets: seq<seq<byte>>)
    requires p.Valid() && t.Healthy() && Sound(p.consumed + t.data) && before == p.emitted
    modifies p, p.rawHeader, p.incoming, t
    ensures p.Valid() && t.data == [] && packets == p.emitted
    ensures p.consumed == old(p.consumed + t.data)
  {
    ghost var stream := p.consumed + t.data;
    var more := true;
    packets := before;
    while more
      invariant p.incoming == old(p.incoming) || p.incoming == null || fresh(p.incoming)
      invariant p.Valid() && t.Healthy() && p.emitted == packets && p.consumed + t.data == stream
      invariant !more ==> t.data == []
      decreases |Frames(stream)| - |packets|, more
    {
      hide Concat, IsPacket, BodySize, Sound, PacketParser.Held;
      var _, packet := p.ReadNeededDataSize(t);
      more := packet != null;
      if more {
        packets := packets + [packet[..]];
        MoreFrames(p.emitted, p.Held(), t.data);
      }
    }
  }
}
