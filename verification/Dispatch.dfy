/** What happens to an incoming call: the handler is looked up by its key, counted,
    invoked, and answered. Handlers here compute a result and do nothing else. */
module Dispatch {
  import opened Prelude
  import opened Packets
  import opened Bytes
  import opened Stream
  import opened Codec
  import opened Serializer
  import opened Keys

  /** A registered handler: `callable` tells whether the delegate may be called; `types`
      are the names of its parameter types and `shapes` what they are; a void handler
      returns `None`. */
  datatype Handler = Handler(callable: bool, returnType: Text, types: seq<Text>, shapes: seq<Shape>,
                             run: seq<Value> -> Option<Value>)

  /** What the names of types mean, the same on both sides; `None` is void. */
  type Typing = Text -> Option<Shape>

  predicate ShapesFit(shapes: seq<Shape>, types: seq<Text>, typing: Typing) {
    |shapes| == |types| && forall i :: 0 <= i < |types| ==> typing(types[i]) == Some(shapes[i])
  }

  predicate ResultFits(result: Option<Value>, shape: Option<Shape>) {
    match result
    case None => shape.None?
    case Some(v) => shape == Some(ShapeOf(v)) && ValueOk(v) && LengthsOk(v)
  }

  /** The call that the compiler makes: the arguments have the types that are named. */
  predicate CallTyped(c: Call, typing: Typing) {
    NoSeparator(c.types) && ShapesFit(Shapes(c.args), c.types, typing)
  }

  /** The handler that the compiler makes, under the key of its own parameter types. */
  ghost predicate HandlerTyped(k: Key, h: Handler, typing: Typing) {
    && NoSeparator(h.types) && k.params == ParamsText(h.types) && ShapesFit(h.shapes, h.types, typing)
    && forall args :: Shapes(args) == h.shapes ==> ResultFits(h.run(args), typing(h.returnType))
  }

  /** Equal keys mean equal parameter types: the handler that is found under the key of
      a call takes arguments of the shapes that the call has. */
  lemma ShapesFromKey(c: Call, h: Handler, typing: Typing)
    requires CallTyped(c, typing) && HandlerTyped(KeyOf(c), h, typing)
    ensures h.types == c.types && h.shapes == Shapes(c.args)
    ensures ResultFits(h.run(c.args), typing(h.returnType))
  {
    hide ResultFits;
    TextNamesTypes(h.types, c.types);
    assert forall i :: 0 <= i < |c.types| ==> typing(c.types[i]) == Some(h.shapes[i]);
  }

  function KeyOf(c: Call): Key {
    Key(c.name, ParamsText(c.types))
  }

  class CallInfo {
    const key: Key
    var count: u32
    var invoke: Option<Handler>

    constructor (key: Key)
      ensures this.key == key && count == 0 && invoke.None?
    {
      this.key, count, invoke := key, 0, None;
    }

    method IncrementCallCount()
      modifies this`count
      ensures count == (old(count) + 1) % U32_SIZE
    {
      count := (count + 1) % U32_SIZE;
    }

    function IsInvokable(): (r: Option<Handler>)
      reads this
      ensures r.Some? ==> r == invoke && r.value.callable
    {
      if invoke.Some? && invoke.value.callable then invoke else None
    }
  }

  const UNKNOWN_ERROR: byte := 0
  const NO_CALL_NAME_PARAMETERS: byte := 1
  const NO_CALL_RETURN_TYPE: byte := 2
  const RESPOND_NO_CALL_NAME_PARAMETERS: byte := 3
  const RESPOND_NO_CALL_RETURN_TYPE: byte := 4

  const SPACE: Text := [32]
  const OPEN: Text := [40]
  const CLOSE: Text := [41]

  /** The signature in readable form. */
  function Message(returnType: Text, key: Key): Text {
    returnType + SPACE + key.name + OPEN + key.params + CLOSE
  }

  /** The text names the return type, the procedure and its parameters, in this order. */
  lemma MessageReads(returnType: Text, key: Key)
    ensures var m := Message(returnType, key);
            && |m| == |returnType| + |key.name| + |key.params| + 3
            && m[..|returnType|] == returnType && m[|returnType|] == 32
            && m[|returnType| + 1..|returnType| + 1 + |key.name|] == key.name && m[|returnType| + 1 + |key.name|] == 40
            && m[|returnType| + 2 + |key.name|..|m| - 1] == key.params && m[|m| - 1] == 41
  {
  }

  function FailBody(error: byte, message: Text): (r: seq<byte>)
    ensures |r| == 5 + |message|
  {
    [error] + EncStr(message)
  }

  function FailPacket(error: byte, message: Text, id: u32): seq<byte>
    requires HEADER_SIZE + 5 + |message| < U32_SIZE
  {
    HeaderBytes(|FailBody(error, message)|, PT_RETURN_FAIL_CALL, id) + FailBody(error, message)
  }

  /** A call as the callee reads it. */
  datatype Request = Request(key: Key, sendReturn: bool, returnType: Text, argsAt: nat)

  /** The signature is complete. */
  predicate Readable(data: seq<byte>) {
    var sig := GetSignature(data, HEADER_SIZE).0;
    HEADER_SIZE <= |data| < U32_SIZE && sig.name.Some? && sig.returnType.Some? && sig.paramsType.Some?
  }

  function RequestOf(data: seq<byte>): Request
    requires Readable(data)
  {
    var (sig, p) := GetSignature(data, HEADER_SIZE);
    Request(Key(sig.name.value, sig.paramsType.value), sig.sendReturn, sig.returnType.value, p)
  }

  /** How the lookup ends. */
  datatype Found = Handled(h: Handler) | Failed(error: byte)

  function Verdict(invokable: Option<Handler>, returnType: Text): Found {
    if invokable.None? then Failed(NO_CALL_NAME_PARAMETERS)
    else if returnType != [] && returnType != invokable.value.returnType then Failed(NO_CALL_RETURN_TYPE)
    else Handled(invokable.value)
  }

  /** The packets that answer a request. */
  function Responses(found: Found, r: Request, data: seq<byte>, id: u32): seq<seq<byte>>
    requires Fits(found, r, data)
  {
    if !r.sendReturn || id == INVALID_ID then []
    else match found
         case Handled(h) => [ReturnPacket(h.run(GetArgs(data, r.argsAt, h.shapes).0), id)]
         case Failed(error) => [FailPacket(error, Message(r.returnType, r.key), id)]
  }

  /** The answer fits a packet. */
  predicate Fits(found: Found, r: Request, data: seq<byte>) {
    match found
    case Handled(h) =>
      && (forall x :: x in h.shapes ==> ShapeOk(x))
      && var result := h.run(GetArgs(data, r.argsAt, h.shapes).0);
         result.Some? ==> HEADER_SIZE + |Enc(result.value)| < U32_SIZE
    case Failed(_) => HEADER_SIZE + 5 + |Message(r.returnType, r.key)| < U32_SIZE
  }

  /** The packet that brings the listing. */
  function ListPacket(rows: seq<Row>, id: u32): seq<byte>
    requires HEADER_SIZE + |Enc(RowsV(rows))| < U32_SIZE
  {
    HeaderBytes(|Enc(RowsV(rows))|, PT_RETURN_ENUMERATE, id) + Enc(RowsV(rows))
  }

  /** A request is answered by the handler of its key when it names no return type or the
      handler's own; otherwise the answer says what does not match. */
  lemma AnswerExactly(h: Option<Handler>, r: Request, data: seq<byte>, id: u32)
    requires Fits(Verdict(h, r.returnType), r, data)
    ensures var answers := Responses(Verdict(h, r.returnType), r, data, id);
            && (!r.sendReturn || id == INVALID_ID ==> answers == [])
            && (r.sendReturn && id != INVALID_ID ==> |answers| == 1)
    ensures h.Some? && (r.returnType == [] || r.returnType == h.value.returnType) ==>
              var result := h.value.run(GetArgs(data, r.argsAt, h.value.shapes).0);
              && (result.Some? ==> HEADER_SIZE + |Enc(result.value)| < U32_SIZE)
              && (r.sendReturn && id != INVALID_ID ==> Responses(Verdict(h, r.returnType), r, data, id)[0] == ReturnPacket(result, id))
    ensures h.None? || (r.returnType != [] && r.returnType != h.value.returnType) ==>
              && HEADER_SIZE + 5 + |Message(r.returnType, r.key)| < U32_SIZE
              && (r.sendReturn && id != INVALID_ID ==>
                    Responses(Verdict(h, r.returnType), r, data, id)[0]
                    == FailPacket(if h.None? then NO_CALL_NAME_PARAMETERS else NO_CALL_RETURN_TYPE, Message(r.returnType, r.key), id))
  {
    hide GetArgs, Message, Enc, FailPacket, ReturnPacket;
  }

  class Internals {
    var procs: map<Key, CallInfo>
    /** The comments of the entries. */
    var comments: map<Key, Text>
    /** Whether an error handler is set. */
    var onInvalidRemoteCall: bool
    /** What the error handler was called with. */
    var errors: seq<(byte, Text)>
    /** Whether a callback for changed call counts is set, and what it was called with. */
    var onCallCountChanged: bool
    var counted: seq<Key>
    /** What was written to the transport. */
    var written: seq<seq<byte>>

    ghost predicate Valid()
      reads this`procs, this`comments, procs.Values
    {
      comments.Keys == procs.Keys && forall k :: k in procs ==> procs[k].key == k
    }

    constructor ()
      ensures Valid() && procs == map[] && comments == map[] && errors == [] && counted == [] && written == []
    {
      procs, comments, onInvalidRemoteCall, errors, written := map[], map[], false, [], [];
      onCallCountChanged, counted := false, [];
    }

    /** Every handler that can be called is the compiler's. */
    ghost predicate Typed(typing: Typing)
      reads this`procs, procs.Values
    {
      forall k :: Invokable(k).Some? ==> HandlerTyped(k, Invokable(k).value, typing)
    }

    function Invokable(k: Key): Option<Handler>
      reads this`procs, procs.Values
    {
      if k in procs then procs[k].IsInvokable() else None
    }

    /** Registers a handler. One that can be called is never replaced; the entry and its
        call count stay when a handler is set again. */
    method AddProcSignature(key: Key, h: Option<Handler>, comment: Text) returns (info: CallInfo?)
      requires Valid()
      modifies this`procs, this`comments, procs.Values
      ensures Valid() && procs.Keys == old(procs.Keys) + {key} && fresh(procs.Values - old(procs.Values))
      ensures forall k :: k in old(procs) ==> procs[k] == old(procs[k]) && procs[k].count == old(procs[k].count)
      ensures info == null <==> old(Invokable(key)).Some? && h.Some? && h.value.callable
      ensures info != null ==> info == procs[key]
      ensures comments == if info != null then old(comments)[key := comment] else old(comments)
      ensures Invokable(key) == if info != null && h.Some? && h.value.callable then h else old(Invokable(key))
      ensures forall k :: k != key && k in procs ==> Invokable(k) == old(Invokable(k))
    {
      var callable := h.Some? && h.value.callable;
      if key !in procs {
        info := AddEntry(key, comment);
      } else {
        if procs[key].IsInvokable().Some? && callable {
          return null;
        }
        comments := comments[key := comment];
        info := procs[key];
      }
      if callable {
        SetInvoke(key, info, h);
      }
    }

    method SetInvoke(key: Key, info: CallInfo, h: Option<Handler>)
      requires Valid() && key in procs && info == procs[key] && h.Some? && h.value.callable
      modifies info`invoke
      ensures Valid() && Invokable(key) == h && forall k :: k != key ==> Invokable(k) == old(Invokable(k))
    {
      info.invoke := h;
    }

    method AddEntry(key: Key, comment: Text) returns (info: CallInfo)
      requires Valid() && key !in procs
      modifies this`procs, this`comments
      ensures Valid() && fresh(info) && info.invoke.None?
      ensures procs == old(procs)[key := info] && comments == old(comments)[key := comment]
    {
      info := new CallInfo(key);
      procs := procs[key := info];
      comments := comments[key := comment];
    }

    /** Registers a handler under its name and the text of its own parameter types. */
    method AddHandler(name: Text, h: Handler, comment: Text) returns (info: CallInfo?)
      requires Valid()
      modifies this`procs, this`comments, procs.Values
      ensures Valid() && procs.Keys == old(procs.Keys) + {Key(name, ParamsText(h.types))}
      ensures fresh(procs.Values - old(procs.Values))
      ensures info == null <==> old(Invokable(Key(name, ParamsText(h.types)))).Some? && h.callable
      ensures Invokable(Key(name, ParamsText(h.types)))
              == if info != null && h.callable then Some(h) else old(Invokable(Key(name, ParamsText(h.types))))
      ensures forall k :: k != Key(name, ParamsText(h.types)) ==> Invokable(k) == old(Invokable(k))
      ensures comments == if info != null then old(comments)[Key(name, ParamsText(h.types)) := comment] else old(comments)
      ensures forall typing :: old(Typed(typing)) && HandlerTyped(Key(name, ParamsText(h.types)), h, typing) ==> Typed(typing)
    {
      hide ParamsText, HandlerTyped;
      var text := MakeParamsType(h.types);
      info := AddProcSignature(Key(name, text), Some(h), comment);
    }

    /** A lookup after a registration: it finds the new handler exactly for its own name
        and parameter types, and for all others what it found before. */
    method RegisterThenFind(name: Text, h: Handler, name2: Text, types2: seq<Text>) returns (found: Option<Handler>)
      requires Valid() && NoSeparator(h.types) && NoSeparator(types2)
      requires h.callable && Invokable(Key(name, ParamsText(h.types))).None?
      modifies this`procs, this`comments, procs.Values
      ensures Valid()
      ensures found == if name2 == name && types2 == h.types then Some(h) else old(Invokable(Key(name2, ParamsText(types2))))
    {
      KeyNamesHandler(name, h.types, name2, types2);
      hide ParamsText;
      var added := AddHandler(name, h, []);
      var text := MakeParamsType(types2);
      var info, onCount, onError;
      info, found, onCount, onError := FindCallInfo(Key(name2, text));
    }

    /** The lookup under the lock. The error handler is handed out only when the key is
        not there, the callback for call counts only when it is. */
    method FindCallInfo(key: Key) returns (info: CallInfo?, invoke: Option<Handler>, onCount: bool, onError: bool)
      requires Valid()
      ensures info != null <==> key in procs
      ensures info != null ==> info == procs[key]
      ensures invoke == Invokable(key)
      ensures onCount == (key in procs && onCallCountChanged)
      ensures onError == (key !in procs && onInvalidRemoteCall)
    {
      if key !in procs {
        return null, None, false, onInvalidRemoteCall;
      }
      return procs[key], procs[key].IsInvokable(), onCallCountChanged, false;
    }

    /** How a handler is listed. */
    function Listed(k: Key): Row
      reads this`procs, this`comments, procs.Values
    {
      Row(k.name, if Invokable(k).Some? then Invokable(k).value.returnType else [], k.params, if k in comments then comments[k] else [])
    }

    ghost predicate Walk(ks: seq<Key>, rows: seq<Row>, signed: bool)
      reads this`procs, this`comments, procs.Values
    {
      && Ascending(ks, signed) && (forall k :: k in ks <==> Invokable(k).Some?)
      && |rows| == |ks| && forall i :: 0 <= i < |ks| ==> rows[i] == Listed(ks[i])
    }

    /** Each handler that can be called, once, in the order of the keys. */
    ghost predicate Lists(rows: seq<Row>, signed: bool)
      reads this`procs, this`comments, procs.Values
    {
      exists ks :: Walk(ks, rows, signed)
    }

    /** What the rows of a listing say: each handler that can be called has its row, with its
        name, return type, parameters and comment, and they stand in the order of the keys. */
    lemma RowsMean(rows: seq<Row>, signed: bool)
      requires Valid() && Lists(rows, signed)
      ensures forall i :: 0 <= i < |rows| ==>
                var k := Key(rows[i].name, rows[i].paramsTypes);
                k in comments && Invokable(k).Some? && rows[i].returnType == Invokable(k).value.returnType && rows[i].comment == comments[k]
      ensures forall k :: Invokable(k).Some? ==> exists i :: 0 <= i < |rows| && Key(rows[i].name, rows[i].paramsTypes) == k
      ensures forall i, j :: 0 <= i < j < |rows| ==>
                KeyLess(Key(rows[i].name, rows[i].paramsTypes), Key(rows[j].name, rows[j].paramsTypes), signed)
    {
      var ks :| Walk(ks, rows, signed);
      forall k | Invokable(k).Some?
        ensures exists i :: 0 <= i < |rows| && Key(rows[i].name, rows[i].paramsTypes) == k
      {
        assert k in ks;
        var i :| 0 <= i < |ks| && ks[i] == k;
        assert Key(rows[i].name, rows[i].paramsTypes) == k;
      }
      forall i | 0 <= i < |rows|
        ensures Key(rows[i].name, rows[i].paramsTypes) == ks[i] && Invokable(ks[i]).Some?
      {
        assert ks[i] in ks;
      }
    }

    /** There is one listing, and its rows name the handlers apart. */
    lemma OneListing(rows: seq<Row>, rows2: seq<Row>, signed: bool)
      requires Lists(rows, signed)
      ensures Lists(rows2, signed) <==> rows2 == rows
      ensures forall i, j :: 0 <= i < j < |rows| ==> (rows[i].name, rows[i].paramsTypes) != (rows[j].name, rows[j].paramsTypes)
    {
      var ks :| Walk(ks, rows, signed);
      if Lists(rows2, signed) {
        var ks2 :| Walk(ks2, rows2, signed);
        OneWalk(ks, ks2, signed);
      }
      forall i, j | 0 <= i < j < |rows|
        ensures (rows[i].name, rows[i].paramsTypes) != (rows[j].name, rows[j].paramsTypes)
      {
        KeyOrder(ks[i], ks[j], ks[i], signed);
      }
    }

    /** The loop over the map. */
    method EnumerateHandlers(signed: bool) returns (rows: seq<Row>)
      requires Valid()
      ensures Lists(rows, signed)
      ensures forall i :: 0 <= i < |rows| ==>
                var k := Key(rows[i].name, rows[i].paramsTypes);
                k in comments && Invokable(k).Some? && rows[i].returnType == Invokable(k).value.returnType && rows[i].comment == comments[k]
      ensures forall k :: Invokable(k).Some? ==> exists i :: 0 <= i < |rows| && Key(rows[i].name, rows[i].paramsTypes) == k
    {
      rows := [];
      ghost var ks := [];
      var todo := procs.Keys;
      while todo != {}
        invariant todo <= procs.Keys && Ascending(ks, signed)
        invariant forall k :: k in ks ==> Invokable(k).Some? && k !in todo
        invariant forall k :: k in procs && k !in todo && Invokable(k).Some? ==> k in ks
        invariant forall k, l :: k in ks && l in todo ==> KeyLess(k, l, signed)
        invariant |rows| == |ks| && forall i :: 0 <= i < |ks| ==> rows[i] == Listed(ks[i])
      {
        ghost var least := Smallest(todo, signed);
        var k :| k in todo && forall l :: l in todo && l != k ==> KeyLess(k, l, signed);
        var invoke := procs[k].IsInvokable();
        if invoke.Some? {
          rows := rows + [Row(k.name, invoke.value.returnType, k.params, comments[k])];
          ks := ks + [k];
        }
        todo := todo - {k};
      }
      assert Walk(ks, rows, signed);
      RowsMean(rows, signed);
    }

    /** The listing fits a packet. */
    ghost predicate ListingFits(signed: bool)
      reads this`procs, this`comments, procs.Values
    {
      forall rows :: Lists(rows, signed) ==> LengthsOk(RowsV(rows)) && HEADER_SIZE + |Enc(RowsV(rows))| < U32_SIZE
    }

    /** Handles one incoming request for the listing; one with a body is not answered. */
    method RespondListing(size: nat, id: u32, signed: bool) returns (ghost rows: seq<Row>)
      requires Valid() && ListingFits(signed)
      modifies this`written
      ensures old(Lists(rows, signed))
      ensures written == old(written) + if size == 0 && id != INVALID_ID then [ListPacket(rows, id)] else []
    {
      hide Enc, LengthsOk;
      var res := EnumerateHandlers(signed);
      rows := res;
      if size == 0 {
        var packet := SerializeBody(RowsV(res), PT_RETURN_ENUMERATE, id);
        if packet != null {
          written := written + [packet[..]];
        }
      }
    }

    /** A call that asks for an answer gets one that answers it, and no other call gets any. */
    method ProcessCall(data: seq<byte>, id: u32)
      requires Valid() && Readable(data) && GetU32(data, 4).0 == PT_CALL && GetU32(data, 8).0 == id
      requires var r := RequestOf(data); Fits(Verdict(Invokable(r.key), r.returnType), r, data)
      modifies this`errors, this`counted, this`written, procs.Values
      ensures Valid() && procs == old(procs) && forall k :: k in procs ==> procs[k].invoke == old(procs[k].invoke)
      ensures if MustAnswer(Seen(data))
              then |written| == |old(written)| + 1 && written[..|old(written)|] == old(written)
                   && |written[|old(written)|]| >= HEADER_SIZE && Answers(Seen(data), Seen(written[|old(written)|]))
              else written == old(written)
    {
      hide GetU32, GetArgs, GetSignature, Message, Responses, Fits, Enc, Readable, RequestOf, Verdict, Answers, ReturnPacket, FailPacket,
        MustAnswer, Seen;
      ghost var found := Verdict(Invokable(RequestOf(data).key), RequestOf(data).returnType);
      HandlingAnswers(found, data, id);
      InvokeLocal(data, id);
    }

    /** What a packet makes either side do. One that asks for an answer gets one that
        answers it, and no other gets any; a response goes to whoever waits. */
    method ProcessBuffer(data: seq<byte>, signed: bool) returns (result: DataStream?, ghost rows: seq<Row>)
      requires Valid() && HEADER_SIZE <= |data| < U32_SIZE
      requires GetU32(data, 4).0 == PT_ENUMERATE ==> ListingFits(signed)
      requires GetU32(data, 4).0 == PT_CALL ==>
                 Readable(data) && var r := RequestOf(data); Fits(Verdict(Invokable(r.key), r.returnType), r, data)
      modifies this`errors, this`counted, this`written, procs.Values
      ensures Valid() && procs == old(procs) && forall k :: k in procs ==> procs[k].invoke == old(procs[k].invoke)
      ensures result != null <==> Seen(data).ptype == PT_RETURN || Seen(data).ptype == PT_RETURN_ENUMERATE
      ensures result != null ==> fresh(result) && result.ReadOk() && result.Source() == data && result.readPos == HEADER_SIZE
      ensures if IsCall(Seen(data)) && MustAnswer(Seen(data))
              then |written| == |old(written)| + 1 && written[..|old(written)|] == old(written)
                   && |written[|old(written)|]| >= HEADER_SIZE && Answers(Seen(data), Seen(written[|old(written)|]))
              else written == old(written)
      ensures Seen(data).ptype == PT_ENUMERATE ==>
                && old(Lists(rows, signed)) && LengthsOk(RowsV(rows)) && HEADER_SIZE + |Enc(RowsV(rows))| < U32_SIZE
                && written == old(written) + if MustAnswer(Seen(data)) then [ListPacket(rows, Seen(data).id)] else []
    {
      hide GetU32, GetArgs, GetSignature, Message, Responses, Fits, Enc, LengthsOk, Readable, RequestOf, ListPacket, Verdict, Answers;
      var s := new DataStream.Reader(data);
      var size, ptype, id := ReadHeader(s);
      result, rows := null, [];
      if ptype == PT_CALL {
        ProcessCall(data, id);
      } else if ptype == PT_RETURN_FAIL_CALL {
        ReceiveFail(data);
      } else if ptype == PT_RETURN || ptype == PT_RETURN_ENUMERATE {
        result := s;
      } else if ptype == PT_ENUMERATE {
        rows := RespondListing(size, id, signed);
        ListingAnswers(rows, data, id);
      }
    }

    /** The answer to a call that cannot be made. */
    method ReturnFail(error: byte, message: Text, sendReturn: bool, id: u32)
      requires HEADER_SIZE + 5 + |message| < U32_SIZE
      modifies this`written
      ensures written == old(written) + if sendReturn && id != INVALID_ID then [FailPacket(error, message, id)] else []
    {
      assert written + [] == written;
      if sendReturn {
        var s := CreateDataStream(5 + |message|, PT_RETURN_FAIL_CALL, id);
        if s.write != null {
          FailPieces(error, message);
          ghost var b := s.write[..];
          ghost var cs := [[error]] + StrChunks(message);
          WriteOver(b, HEADER_SIZE, cs);
          assert s.View() == Out(Some(b), HEADER_SIZE);
          First(s.View(), [error], StrChunks(message));
          s.WriteRaw([error]);
          WriteString(s, message);
          assert s.View() == Out(Some(s.write[..]), s.writePos);
          assert b[..HEADER_SIZE] == HeaderBytes(5 + |message|, PT_RETURN_FAIL_CALL, id);
          assert s.write[..] == Over(b, HEADER_SIZE, FailBody(error, message));
          assert s.write[..] == FailPacket(error, message, id);
          written := written + [s.write[..]];
        }
      }
    }

    /** Handles one incoming call packet. */
    method InvokeLocal(data: seq<byte>, id: u32)
      requires Valid() && Readable(data)
      requires var r := RequestOf(data); Fits(Verdict(Invokable(r.key), r.returnType), r, data)
      modifies this`errors, this`counted, this`written, procs.Values
      ensures Valid() && procs == old(procs)
      ensures var r := RequestOf(data);
              written == old(written) + Responses(old(Verdict(Invokable(r.key), r.returnType)), r, data, id)
      ensures var r := RequestOf(data); var h := old(Invokable(r.key));
              && (!r.sendReturn || id == INVALID_ID ==> written == old(written))
              && (r.sendReturn && id != INVALID_ID ==> |written| == |old(written)| + 1 && written[..|old(written)|] == old(written))
              && (r.sendReturn && id != INVALID_ID && h.Some? && (r.returnType == [] || r.returnType == h.value.returnType) ==>
                    written[|old(written)|] == ReturnPacket(h.value.run(GetArgs(data, r.argsAt, h.value.shapes).0), id))
              && (r.sendReturn && id != INVALID_ID && h.Some? && r.returnType != [] && r.returnType != h.value.returnType ==>
                    written[|old(written)|] == FailPacket(NO_CALL_RETURN_TYPE, Message(r.returnType, r.key), id))
              && (r.sendReturn && id != INVALID_ID && h.None? ==>
                    written[|old(written)|] == FailPacket(NO_CALL_NAME_PARAMETERS, Message(r.returnType, r.key), id))
      ensures forall k :: k in procs ==>
                procs[k].invoke == old(procs[k].invoke)
                && procs[k].count == if k == RequestOf(data).key then (old(procs[k].count) + 1) % U32_SIZE
                                     else old(procs[k].count)
      ensures errors == old(errors) + if RequestOf(data).key !in procs && onInvalidRemoteCall
                                      then [(NO_CALL_NAME_PARAMETERS, Message(RequestOf(data).returnType, RequestOf(data).key))]
                                      else []
      ensures counted == old(counted) + if RequestOf(data).key in procs && onCallCountChanged then [RequestOf(data).key] else []
    {
      hide GetSignature, GetArgs, Message, Responses, Fits, Verdict;
      var s := new DataStream.Reader(data);
      s.readPos := HEADER_SIZE;
      var sig := DeserializeNameSignature(s);
      AnswerExactly(Invokable(RequestOf(data).key), RequestOf(data), data, id);
      InvokeFound(s, Request(Key(sig.name.value, sig.paramsType.value), sig.sendReturn, sig.returnType.value, s.readPos), id);
    }

    /** Look up the handler of a request; report, count, invoke and answer. */
    method InvokeFound(s: DataStream, r: Request, id: u32)
      requires Valid() && s.ReadOk() && s.readPos == r.argsAt && Fits(Verdict(Invokable(r.key), r.returnType), r, s.Source())
      modifies this`errors, this`counted, this`written, s`readPos, procs.Values
      ensures Valid() && procs == old(procs)
      ensures written == old(written) + Responses(old(Verdict(Invokable(r.key), r.returnType)), r, s.Source(), id)
      ensures forall k :: k in procs ==>
                procs[k].invoke == old(procs[k].invoke)
                && procs[k].count == if k == r.key then (old(procs[k].count) + 1) % U32_SIZE else old(procs[k].count)
      ensures errors == old(errors) + if r.key !in procs && onInvalidRemoteCall
                                      then [(NO_CALL_NAME_PARAMETERS, Message(r.returnType, r.key))] else []
      ensures counted == old(counted) + if r.key in procs && onCallCountChanged then [r.key] else []
    {
      hide Message, Responses, Fits;
      var info, invoke, onCount, onError := FindCallInfo(r.key);
      var found := Verdict(invoke, r.returnType);
      if found.Failed? && onError {
        errors := errors + [(found.error, Message(r.returnType, r.key))];
      }
      CountCall(r.key, info, onCount);
      Respond(s, found, r, id);
    }

    /** A call of a registered key is counted, and the callback told. */
    method CountCall(key: Key, info: CallInfo?, onCount: bool)
      requires Valid() && (info != null <==> key in procs) && (info != null ==> info == procs[key])
      modifies this`counted, procs.Values
      ensures Valid() && procs == old(procs)
      ensures forall k :: k in procs ==>
                procs[k].invoke == old(procs[k].invoke)
                && procs[k].count == if k == key then (old(procs[k].count) + 1) % U32_SIZE else old(procs[k].count)
      ensures counted == old(counted) + if info != null && onCount then [key] else []
    {
      if info != null {
        info.IncrementCallCount();
        if onCount {
          counted := counted + [info.key];
        }
      }
    }

    /** Invoke the handler and answer with its result, or with the failure. */
    method Respond(s: DataStream, found: Found, r: Request, id: u32)
      requires s.ReadOk() && s.readPos == r.argsAt && Fits(found, r, s.Source())
      modifies this`written, s`readPos
      ensures written == old(written) + Responses(found, r, s.Source(), id)
    {
      hide GetArgs, FailPacket, ReturnPacket, Message, Enc, ShapeOk;
      if found.Handled? {
        var args := DeserializeArgs(s, found.h.shapes);
        var packet := SerializeReturn(found.h.run(args), if r.sendReturn then id else INVALID_ID);
        if packet != null {
          written := written + [packet[..]];
        }
      } else {
        ReturnFail(found.error, Message(r.returnType, r.key), r.sendReturn, id);
      }
    }

    /** A failure comes back instead of a result: the error handler of the caller, if
        there is one, learns of it. */
    method ReceiveFail(data: seq<byte>)
      requires HEADER_SIZE <= |data| < U32_SIZE
      modifies this`errors
      ensures var (error, p) := GetInt(data, HEADER_SIZE, 1, false);
              errors == old(errors) + if onInvalidRemoteCall then [(AtCaller(error), GetString(data, p).0)] else []
      ensures var (error, p) := GetInt(data, HEADER_SIZE, 1, false);
              onInvalidRemoteCall ==>
                && |errors| == |old(errors)| + 1 && errors[|old(errors)|].1 == GetString(data, p).0
                && (error == NO_CALL_NAME_PARAMETERS ==> errors[|old(errors)|].0 == RESPOND_NO_CALL_NAME_PARAMETERS)
                && (error == NO_CALL_RETURN_TYPE ==> errors[|old(errors)|].0 == RESPOND_NO_CALL_RETURN_TYPE)
                && (error != NO_CALL_NAME_PARAMETERS && error != NO_CALL_RETURN_TYPE ==> errors[|old(errors)|].0 == UNKNOWN_ERROR)
    {
      var s := new DataStream.Reader(data);
      s.readPos := HEADER_SIZE;
      var e := s.ReadInt(1, false, UNKNOWN_ERROR);
      var message := ReadString(s);
      var error: byte;
      if e == NO_CALL_NAME_PARAMETERS {
        error := RESPOND_NO_CALL_NAME_PARAMETERS;
      } else if e == NO_CALL_RETURN_TYPE {
        error := RESPOND_NO_CALL_RETURN_TYPE;
      } else {
        error := UNKNOWN_ERROR;
      }
      if onInvalidRemoteCall {
        errors := errors + [(error, message)];
      }
    }
  }

  lemma FailPieces(error: byte, message: Text)
    ensures Concat([[error]] + StrChunks(message)) == FailBody(error, message)
    ensures Total([[error]] + StrChunks(message)) == 5 + |message|
  {
    ConcatOne([error]);
    StrPieces(message);
    Join([[error]], [error], StrChunks(message), EncStr(message));
  }

  // ----- From one side to the other --------------------------------------------------

  /** The callee reads the request that the caller wrote. */
  lemma RequestOfCall(c: Call, id: u32)
    requires CallOk(c) && HEADER_SIZE + |CallBytes(c)| < U32_SIZE
    ensures Readable(CallPacket(c, id))
    ensures var r := RequestOf(CallPacket(c, id));
            && r.key == KeyOf(c) && r.sendReturn == c.sendReturn && r.returnType == c.returnType
            && GetArgs(CallPacket(c, id), r.argsAt, Shapes(c.args)).0 == c.args
  {
    hide GetSignature, GetArgs, CallPacket, CallBytes, GetU32;
    CallRoundTrip(c, id);
  }

  /** The answer that the caller of `c` is owed: the handler's result on the caller's own
      arguments, or the reason why there is no such handler. */
  function Owed(c: Call, found: Found, id: u32): (r: seq<byte>)
    requires OwedFits(c, found)
  {
    match found
    case Handled(h) => ReturnPacket(h.run(c.args), id)
    case Failed(error) => FailPacket(error, Message(c.returnType, KeyOf(c)), id)
  }

  predicate OwedFits(c: Call, found: Found) {
    match found
    case Handled(h) => h.run(c.args).Some? ==> HEADER_SIZE + |Enc(h.run(c.args).value)| < U32_SIZE
    case Failed(_) => HEADER_SIZE + 5 + |Message(c.returnType, KeyOf(c))| < U32_SIZE
  }

  /** Handling the packet of a call writes the one owed answer when the caller wants one,
      and nothing otherwise. */
  lemma AnswerToCall(c: Call, id: u32, found: Found, typing: Typing)
    requires CallOk(c) && HEADER_SIZE + |CallBytes(c)| < U32_SIZE && OwedFits(c, found)
    requires CallTyped(c, typing) && (found.Handled? ==> HandlerTyped(KeyOf(c), found.h, typing))
    ensures Readable(CallPacket(c, id)) && Fits(found, RequestOf(CallPacket(c, id)), CallPacket(c, id))
    ensures Responses(found, RequestOf(CallPacket(c, id)), CallPacket(c, id), id)
            == if c.sendReturn && id != INVALID_ID then [Owed(c, found, id)] else []
  {
    hide GetArgs, GetSignature, CallPacket, CallBytes, Message, Enc, EncStr, CallOk, ShapeOk;
    RequestOfCall(c, id);
    ShapesAllOk(c);
    if found.Handled? {
      ShapesFromKey(c, found.h, typing);
    }
  }

  /** Whatever call comes in: there is one response exactly when send_return is set and
      the id is not zero, it carries the id, and its type tells success from failure. */
  lemma ResponsesCarryId(found: Found, r: Request, data: seq<byte>, id: u32)
    requires Fits(found, r, data)
    ensures |Responses(found, r, data, id)| == if r.sendReturn && id != INVALID_ID then 1 else 0
    ensures forall p :: p in Responses(found, r, data, id) ==>
              && |p| >= HEADER_SIZE && GetU32(p, 8).0 == id
              && GetU32(p, 4).0 == if found.Handled? then PT_RETURN else PT_RETURN_FAIL_CALL
  {
    hide GetU32, GetArgs, Message, Enc, EncStr;
    match found {
      case Handled(h) =>
        var result := h.run(GetArgs(data, r.argsAt, h.shapes).0);
        StartsWithHeader(if result.Some? then Enc(result.value) else [], PT_RETURN, id);
      case Failed(error) =>
        StartsWithHeader(FailBody(error, Message(r.returnType, r.key)), PT_RETURN_FAIL_CALL, id);
    }
  }

  /** The owed answer carries the id of the call, and its type tells success from failure. */
  lemma OwedHeader(c: Call, found: Found, id: u32)
    requires OwedFits(c, found)
    ensures GetU32(Owed(c, found, id), 8).0 == id
    ensures GetU32(Owed(c, found, id), 4).0 == if found.Handled? then PT_RETURN else PT_RETURN_FAIL_CALL
  {
    hide GetU32, Message, Enc, EncStr;
    match found {
      case Handled(h) =>
        var result := h.run(c.args);
        StartsWithHeader(if result.Some? then Enc(result.value) else [], PT_RETURN, id);
      case Failed(error) =>
        StartsWithHeader(FailBody(error, Message(c.returnType, KeyOf(c))), PT_RETURN_FAIL_CALL, id);
    }
  }

  /** Whether a packet asks for an answer: the send_return flag of a call, an empty body of
      a request for the listing. */
  function Asks(data: seq<byte>): bool
    requires |data| >= HEADER_SIZE
  {
    if GetU32(data, 4).0 == PT_ENUMERATE then GetU32(data, 0).0 == 0 else Readable(data) && RequestOf(data).sendReturn
  }

  /** A packet as the multiplexer sees it: the header fields, whether it asks for an answer,
      and the body. */
  function Seen(data: seq<byte>): Packet
    requires |data| >= HEADER_SIZE
  {
    var ptype, id := GetU32(data, 4).0, GetU32(data, 8).0;
    Packet(U32Of(ptype), U32Of(id), Asks(data), data[HEADER_SIZE..])
  }

  function U32Of(x: nat): u32 {
    x % U32_SIZE
  }

  /** What the multiplexer takes for granted of handling a call: it is answered exactly
      when it must be, by a packet that answers it. */
  lemma HandlingAnswers(found: Found, data: seq<byte>, id: u32)
    requires Readable(data) && Fits(found, RequestOf(data), data)
    requires GetU32(data, 4).0 == PT_CALL && GetU32(data, 8).0 == id
    ensures |Responses(found, RequestOf(data), data, id)| == if MustAnswer(Seen(data)) then 1 else 0
    ensures forall p :: p in Responses(found, RequestOf(data), data, id) ==> |p| >= HEADER_SIZE && Answers(Seen(data), Seen(p))
  {
    hide GetU32, GetArgs, GetSignature, Readable, Fits, Responses, RequestOf;
    ResponsesCarryId(found, RequestOf(data), data, id);
  }

  /** The same for a request for the listing. */
  lemma ListingAnswers(rows: seq<Row>, data: seq<byte>, id: u32)
    requires |data| >= HEADER_SIZE && GetU32(data, 4).0 == PT_ENUMERATE && GetU32(data, 8).0 == id
    requires HEADER_SIZE + |Enc(RowsV(rows))| < U32_SIZE
    ensures MustAnswer(Seen(data)) <==> GetU32(data, 0).0 == 0 && id != INVALID_ID
    ensures |ListPacket(rows, id)| >= HEADER_SIZE && Answers(Seen(data), Seen(ListPacket(rows, id)))
    ensures Seen(ListPacket(rows, id)).ptype == PT_RETURN_ENUMERATE && Seen(ListPacket(rows, id)).id == id
  {
    hide GetU32, GetSignature, Readable, RequestOf, Enc;
    StartsWithHeader(Enc(RowsV(rows)), PT_RETURN_ENUMERATE, id);
  }

  /** The callee sees the call that the caller's multiplexer sent. */
  lemma CallSeen(c: Call, id: u32)
    requires CallOk(c) && HEADER_SIZE + |CallBytes(c)| < U32_SIZE
    ensures |CallPacket(c, id)| >= HEADER_SIZE && Seen(CallPacket(c, id)) == Packet(PT_CALL, id, c.sendReturn, CallBytes(c))
  {
    hide GetU32, GetArgs, GetSignature, CallBytes, CallOk;
    CallRoundTrip(c, id);
    RequestOfCall(c, id);
  }

  lemma StartsWithHeader(body: seq<byte>, ptype: u32, id: u32)
    requires |body| < U32_SIZE
    ensures var data := HeaderBytes(|body|, ptype, id) + body;
            GetU32(data, 4).0 == ptype && GetU32(data, 8).0 == id
  {
    var header := HeaderBytes(|body|, ptype, id);
    AtSplit(header + body, 0, header, body);
    HeaderAt(header + body, |body|, ptype, id);
  }

  /** The error as the caller's error handler sees it. */
  function AtCaller(error: int): byte {
    if error == NO_CALL_NAME_PARAMETERS then RESPOND_NO_CALL_NAME_PARAMETERS
    else if error == NO_CALL_RETURN_TYPE then RESPOND_NO_CALL_RETURN_TYPE
    else UNKNOWN_ERROR
  }

  /** A failure keeps its message on the way back, and its kind, now seen from afar. */
  lemma FailRoundTrip(error: byte, message: Text, id: u32)
    requires HEADER_SIZE + 5 + |message| < U32_SIZE
    ensures var data := FailPacket(error, message, id);
            && GetU32(data, 0).0 == |data| - HEADER_SIZE && GetU32(data, 4).0 == PT_RETURN_FAIL_CALL && GetU32(data, 8).0 == id
            && GetInt(data, HEADER_SIZE, 1, false) == (error as int, HEADER_SIZE + 1)
            && GetString(data, HEADER_SIZE + 1) == (message, |data|)
  {
    hide GetString, GetInt, EncStr;
    var data, header := FailPacket(error, message, id), HeaderBytes(5 + |message|, PT_RETURN_FAIL_CALL, id);
    assert At(data, HEADER_SIZE, FailBody(error, message)) by {
      assert data == header + FailBody(error, message);
      AtSplit(data, 0, header, FailBody(error, message));
    }
    assert At(data, 0, header) by {
      AtSplit(data, 0, header, FailBody(error, message));
    }
    HeaderAt(data, 5 + |message|, PT_RETURN_FAIL_CALL, id);
    AtSplit(data, HEADER_SIZE, [error], EncStr(message));
    assert ToBytes(error, 1) == [error] + ToBytes(0, 0);
    IntAt(data, HEADER_SIZE, error, 1, false);
    StringAt(data, HEADER_SIZE + 1, message);
  }

  /** A remote call from end to end: the caller serializes the call, the callee handles
      the packet, the caller reads the response. It returns what the handler computes
      on the caller's arguments, and nothing when it waits for no value. When there is no
      such handler it returns the default value, here `None`, and the caller's error
      handler learns why. */
  method CallRemote(caller: Internals, callee: Internals, c: Call, id: u32, shape: Option<Shape>, ghost typing: Typing)
    returns (v: Option<Value>)
    requires CallOk(c) && HEADER_SIZE + |CallBytes(c)| < U32_SIZE && c.sendReturn && id != INVALID_ID
    requires CallTyped(c, typing) && typing(c.returnType) == shape && (c.returnType == [] ==> shape == None)
    requires caller != callee && callee.Valid() && callee.Typed(typing)
    requires (shape.Some? ==> ShapeOk(shape.value)) && OwedFits(c, Verdict(callee.Invokable(KeyOf(c)), c.returnType))
    modifies caller`errors, callee`errors, callee`counted, callee`written, callee.procs.Values
    ensures var h := old(callee.Invokable(KeyOf(c)));
            if h.Some? && (c.returnType == [] || c.returnType == h.value.returnType) then
              && (v.Some? <==> shape.Some?) && (v.Some? ==> v == h.value.run(c.args)) && caller.errors == old(caller.errors)
            else
              && v.None?
              && caller.errors == old(caller.errors)
                                  + if !caller.onInvalidRemoteCall then []
                                    else [(if h.None? then RESPOND_NO_CALL_NAME_PARAMETERS else RESPOND_NO_CALL_RETURN_TYPE,
                                           Message(c.returnType, KeyOf(c)))]
    ensures |callee.written| == |old(callee.written)| + 1
    ensures KeyOf(c) in callee.procs ==>
              callee.procs[KeyOf(c)].count == (old(callee.procs[KeyOf(c)].count) + 1) % U32_SIZE
  {
    hide GetArgs, CallPacket, CallBytes, GetSignature, Message, Enc, CallOk, CallTyped, EncStr, Owed, Responses, ResultFits;
    ghost var found := Verdict(callee.Invokable(KeyOf(c)), c.returnType);
    AnswerToCall(c, id, found, typing);
    RequestOfCall(c, id);
    var packet := BuildCall(c, id);
    callee.InvokeLocal(packet[..], id);
    var answer := callee.written[|callee.written| - 1];
    assert answer == Owed(c, found, id);
    if found.Handled? {
      ShapesFromKey(c, found.h, typing);
    }
    v := ReadAnswer(caller, answer, shape, c, found, id);
  }

  /** The caller reads the answer to its call. */
  method ReadAnswer(caller: Internals, answer: seq<byte>, shape: Option<Shape>, ghost c: Call, ghost found: Found, ghost id: u32)
    returns (v: Option<Value>)
    requires OwedFits(c, found) && answer == Owed(c, found, id) && (shape.Some? ==> ShapeOk(shape.value))
    requires found.Handled? && shape.Some? ==> ResultFits(found.h.run(c.args), shape)
    modifies caller`errors
    ensures match found
            case Handled(h) =>
              && (v.Some? <==> shape.Some?) && (v.Some? ==> v == h.run(c.args)) && caller.errors == old(caller.errors)
            case Failed(error) =>
              && v.None?
              && caller.errors == old(caller.errors)
                                  + if caller.onInvalidRemoteCall then [(AtCaller(error), Message(c.returnType, KeyOf(c)))] else []
  {
    hide GetU32, GetValue, GetInt, GetString, Message, Enc, EncStr, ShapeOk, ValueOk, LengthsOk;
    OwedHeader(c, found, id);
    var s := new DataStream.Reader(answer);
    var size, ptype, readId := ReadHeader(s);
    v := None;
    if ptype == PT_RETURN_FAIL_CALL {
      FailRoundTrip(found.error, Message(c.returnType, KeyOf(c)), id);
      caller.ReceiveFail(answer);
    } else if shape.Some? {
      ReturnRoundTrip(found.h.run(c.args).value, id);
      var value := ReadValue(s, shape.value);
      v := Some(value);
    }
  }

  /** The request for the listing, as the callee sees it. */
  lemma RequestSeen(id: u32)
    ensures Seen(HeaderBytes(0, PT_ENUMERATE, id)) == Packet(PT_ENUMERATE, id, true, [])
  {
    hide GetU32, Readable, RequestOf;
    HeaderAt(HeaderBytes(0, PT_ENUMERATE, id), 0, PT_ENUMERATE, id);
  }

  /** The listing of the peer's handlers from end to end. */
  method EnumerateRemote(callee: Internals, id: u32, signed: bool) returns (rows: seq<Row>)
    requires callee.Valid() && callee.ListingFits(signed) && id != INVALID_ID
    modifies callee`errors, callee`counted, callee`written, callee.procs.Values
    ensures forall i :: 0 <= i < |rows| ==>
              var k := Key(rows[i].name, rows[i].paramsTypes);
              && k in callee.comments && old(callee.Invokable(k)).Some? && rows[i].comment == callee.comments[k]
              && rows[i].returnType == old(callee.Invokable(k)).value.returnType
    ensures forall k :: old(callee.Invokable(k)).Some? ==> exists i :: 0 <= i < |rows| && Key(rows[i].name, rows[i].paramsTypes) == k
    ensures old(callee.Lists(rows, signed)) && |callee.written| == |old(callee.written)| + 1
  {
    hide GetU32, Enc, LengthsOk, Readable, RequestOf, ListPacket, HeaderBytes, Asks;
    var request := CreateDataStream(0, PT_ENUMERATE, id);
    var packet := request.write[..];
    assert packet == packet[..HEADER_SIZE];
    RequestSeen(id);
    SeenType(packet);
    var none;
    ghost var listing;
    none, listing := callee.ProcessBuffer(packet, signed);
    rows := ReadListing(callee.written[|callee.written| - 1], listing, id);
  }

  lemma SeenType(data: seq<byte>)
    requires |data| >= HEADER_SIZE
    ensures Seen(data).ptype == GetU32(data, 4).0
  {
  }

  /** The caller reads the listing. */
  method ReadListing(answer: seq<byte>, ghost listing: seq<Row>, ghost id: u32) returns (rows: seq<Row>)
    requires LengthsOk(RowsV(listing)) && HEADER_SIZE + |Enc(RowsV(listing))| < U32_SIZE
    requires answer == ListPacket(listing, id)
    ensures rows == listing
  {
    hide GetU32, GetValue, Enc, LengthsOk;
    BodyBack(RowsV(listing), PT_RETURN_ENUMERATE, id);
    var s := new DataStream.Reader(answer);
    var size, ptype, readId := ReadHeader(s);
    var v := ReadValue(s, RowsS);
    rows := v.rows;
  }

  /** A call whose return type does not match is answered with a failure, and the error
      handler of the callee is not told although the call failed. */
  method AnswerMismatch(callee: Internals, c: Call, id: u32)
    requires CallOk(c) && HEADER_SIZE + |CallBytes(c)| < U32_SIZE && c.sendReturn && id != INVALID_ID
    requires HEADER_SIZE + 5 + |Message(c.returnType, KeyOf(c))| < U32_SIZE
    requires callee.Valid() && callee.Invokable(KeyOf(c)).Some?
    requires c.returnType != [] && c.returnType != callee.Invokable(KeyOf(c)).value.returnType
    modifies callee`errors, callee`counted, callee`written, callee.procs.Values
    ensures callee.written == old(callee.written) + [FailPacket(NO_CALL_RETURN_TYPE, Message(c.returnType, KeyOf(c)), id)]
    ensures callee.errors == old(callee.errors)
  {
    hide GetArgs, CallPacket, CallBytes, GetSignature, Message, CallOk, FailPacket;
    RequestOfCall(c, id);
    var packet := BuildCall(c, id);
    callee.InvokeLocal(packet[..], id);
  }

  /** Such a call exists, with an error handler set. */
  method MismatchIsSilent() returns (callee: Internals, c: Call)
    ensures callee.onInvalidRemoteCall && callee.errors == []
    ensures HEADER_SIZE + 5 + |Message(c.returnType, KeyOf(c))| < U32_SIZE
    ensures callee.written == [FailPacket(NO_CALL_RETURN_TYPE, Message(c.returnType, KeyOf(c)), 1)]
  {
    hide Message, FailPacket, CallBytes, CallOk;
    c := Call([102], true, [105], [], []);
    SmallCall(c);
    callee := new Internals();
    callee.onInvalidRemoteCall := true;
    var added := callee.AddHandler([102], Handler(true, [118], [], [], args => None), []);
    AnswerMismatch(callee, c, 1);
    assert [] + [FailPacket(NO_CALL_RETURN_TYPE, Message(c.returnType, KeyOf(c)), 1)]
        == [FailPacket(NO_CALL_RETURN_TYPE, Message(c.returnType, KeyOf(c)), 1)];
  }

  lemma SmallCall(c: Call)
    requires c == Call([102], true, [105], [], [])
    ensures CallOk(c) && |CallBytes(c)| == 15 && ParamsText(c.types) == []
    ensures |Message(c.returnType, KeyOf(c))| == 5
  {
  }

  lemma ShapesAllOk(c: Call)
    requires CallOk(c)
    ensures forall x :: x in Shapes(c.args) ==> ShapeOk(x)
  {
    ShapesOk(c.args);
  }
}
