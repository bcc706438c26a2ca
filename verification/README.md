# Verified model of MAssIpcCall

MAssIpcCall is a C++ library for remote calls between two peers. This project models
its hard core in Dafny and proves what the core is built to guarantee. `dafny verify
dfyconfig.toml` checks everything.

| files | what they model |
|---|---|
| `Prelude`, `Packets` | options, counting, packet headers |
| `CallIds`, `Pending` | call id allocation; the shared state of the multiplexer, its two critical sections, and the loop that drains a transport |
| `Endpoint`, `Flow`, `Network` | the multiplexer as a transition system over threads and nested activations; what every step moves where; two endpoints over FIFO channels |
| `Ages`, `Waiting`, `Progress`, `Deadlock` | when the two endpoints block each other, and two runs in which they do |
| `Bytes`, `Stream`, `Codec`, `Serializer` | little-endian integers, the data stream, the wire format, two-pass serialization and deserialization |
| `Parser` | the incremental packet parser, the byte transport it reads, and the transport proxy |
| `Keys`, `Dispatch` | the keys of the handler map; lookup, invocation and answer of a call, the listing of the handlers, and both from end to end |
| `Traversal`, `CallbackList` | traversal of a callback list that its handlers change, as a transition system and on the heap |
| `Waiter`, `WaitProtocol` | events, shared checks on wrapping counters, the notification filter; the threads that wait |
| `Transthread` | the registry of calls between threads, the adding of threads, cancellation and the end of a thread |

Form. The parts that update state in place are classes and methods with loops
(`Pending.PendingResponses`, `Pending.Drain`, `Stream.DataStream`, the methods of
`Serializer`, `Parser.PacketParser`, `Dispatch.Internals`, `CallbackList.List`,
`Waiter.ConditionWaitLock`, `Transthread.Internals`). Their contracts equate the new state
with a function of the old one, and the lemmas are about that function. Protocols of
several threads are transition systems whose actions are single critical sections,
transport reads or writes, or handler runs; they use the same functions.

Reading of the multiplexer. `Endpoint.Endpoint` keeps every activation ever started, so
an index names one activation for good; `IsTop` tells which one of a thread executes. A log
that nothing reads records what happened. The transport may return any packet at any time;
only `Network` fixes that it returns what the peer wrote, in order. Handlers, posted jobs
and the transport itself may call back in at any depth.

Some properties hold only under a condition. The condition is proved exact, with what
happens outside it:

- Call ids are distinct as long as issued and skipped ids total at most 2^32 - 1
  (`CallIds.BoundIsExact`, `CallIds.DistinctExactly`); then the first one comes again.
- A call that somebody waits for moves on, or a younger wait is in its way, as long as it is not
  shut off: queued on a side where the thread that reads processes no calls and every thread
  that would waits itself, or posted to a thread that waits itself (`Waiting.ShutExactly`,
  `Progress.NoDeadlock`). Both happen, and then both sides may wait for ever
  (`Deadlock.BlockedRun`, `Deadlock.ParkedRun`). They cannot when every call that waits
  processes incoming calls and is made on a thread to which nothing is posted
  (`Progress.CarefulMoves`).
- A check of the waiter counts signals as long as fewer than 2^32 are outstanding
  (`Waiter.SemaphoreExactly`); then it forgets them.
- A write into a buffer is refused or fits as long as it fits or ends before the largest
  32-bit number (`Stream.StaysInside`); otherwise the bounds check gives up and the write runs
  past the end (`Stream.SomeWriteRunsPast`). The other members require the writes to stay
  inside, and `Stream.MeasureThenWrite` shows that they do in a packet that was measured.
- Removing handlers by tag gives up the entry of a list as long as no iterator stands on one
  of its nodes (`CallbackList.RemoveTag`). A handler that clears its own tag leaves an entry
  without handlers, and such an entry keeps type handlers from running
  (`CallbackList.StaleEntry`, `CallbackList.CallName`).
- A failed call is reported to the callee's error handler exactly when the key is not
  registered (`Dispatch.Internals.InvokeLocal`); a return type that does not match is answered
  but not reported (`Dispatch.AnswerMismatch`, `Dispatch.MismatchIsSilent`).
- The end of a thread settles every call to it as long as no thread is added while it already
  has a record to which a call is in progress (`Transthread.FinishSettles`): adding looks for the
  record and inserts one in two critical sections, and the insertion overwrites. Then the call
  stays in progress and its sender asleep (`Transthread.LostCall`, `Transthread.LostForGood`).
  Adding each thread from one place before it is called is enough (`Transthread.AddedAlone`).
- A cancel settles every call that the thread has made as long as no insertion overwrites the
  record of a sender and no thread ends with calls to others in progress
  (`Transthread.CancelReaches`, `Transthread.MissedCancel`); new calls are canceled at once as
  long as the cancel found a record and nothing took it away (`Transthread.CancelDisables`).
- Parameter texts are unambiguous as long as no type name contains the separator, which the
  source asserts statically (`Keys.TextNamesTypes`, `Keys.SeparatorCollides`).

## Model

| member | source | states |
|---|---|---|
| CallIds.NewId | Ipc/MAssIpcCall.cpp:442-459 | an id that is allocated is neither zero nor the key of a stored response |
| CallIds.Skips | Ipc/MAssIpcCall.cpp:449-456 | the loop stops within one lap, at the first candidate without a stored response |
| CallIds.CandidateHits | Ipc/MAssIpcCall.cpp:449-456 | from every counter value each nonzero id comes up within one lap of turns |
| CallIds.IssuedDistinct | Ipc/MAssIpcCall.cpp:442-459 | over any run, from any counter value and across wraparound, ids are pairwise distinct while issued plus skipped ids total at most 2^32 - 1 |
| CallIds.OneLapRepeats | Ipc/MAssIpcCall.cpp:442-459 | the bound is tight: with nothing stored, allocation number 2^32 returns the first id again |
| CallIds.DistinctExactly | Ipc/MAssIpcCall.cpp:442-459 | with nothing stored the ids of a run are pairwise distinct if and only if the run is no longer than 2^32 - 1 |
| CallIds.BoundIsExact | Ipc/MAssIpcCall.cpp:442-459 | whatever is stored: a bound on the advances guarantees distinct ids in every run if and only if it is at most 2^32 - 1 |
| Pending.PendingResponses.ReadBufferPass | Ipc/MAssIpcCall.cpp:223-261 | each outcome of the first critical section under its exact condition, in the order re-entrance, stored response, queued call, sleep or give up, become the reader; what is taken and what stays as it was |
| Pending.PendingResponses.StoreBuffer | Ipc/MAssIpcCall.cpp:293-313 | the second critical section gives up the reader role and sorts the packet by type: a call goes to the end of the queue, a response is stored unless its id is, an undefined type changes nothing |
| Pending.PendingResponses.NewCallId | Ipc/MAssIpcCall.cpp:442-459 | the loop terminates whenever some nonzero id is free and returns the first free one |
| Pending.Drain.ProcessTransport | Ipc/MAssIpcCall.cpp:211-322 | alone on a transport that never fails, with handlers that do not send, it terminates on every stream of packets, hands over exactly the calls in arrival order, stores the responses and leaves the queue empty |
| Pending.HealthyStream | Ipc/MAssIpcCall.cpp:345-348 | when types are defined and ids nonzero one call reads everything and dispatches each call as often as it arrived |
| Pending.StoredIds | Ipc/MAssIpcCall.cpp:302-306 | afterwards a response is stored under an id exactly when one arrived for it or was there before |
| Pending.FirstResponseWins | Ipc/MAssIpcCall.cpp:304-304 | the first response with an id is the one that stays stored |
| Endpoint.InvStep | Ipc/MAssIpcCall.cpp:211-322 | every action of every thread, whatever the transport delivers, keeps the role, stack, sleep and content invariants |
| Endpoint.InvAlways | Ipc/MAssIpcCall.cpp:211-322 | the invariants hold in every state of every run |
| Endpoint.ReaderExclusion | Ipc/MAssIpcCall.cpp:215-251 | over all threads and nested activations at most one is between taking and giving up the reader role, the locked id names its thread exactly, and no activation of that thread sleeps |
| Endpoint.NestedEntryReturns | Ipc/MAssIpcCall.cpp:226-227 | an entry from the thread inside the transport read returns empty at once and changes nothing else |
| Endpoint.CanMove | Ipc/MAssIpcCall.cpp:219-321 | the executing activation of a thread always has a next action unless it sleeps |
| Endpoint.ResponseFirst | Ipc/MAssIpcCall.cpp:226-260 | whoever looks for a stored response, and did not come in from inside the transport read, takes it and leaves the queue alone |
| Endpoint.EndsExactly | Ipc/MAssIpcCall.cpp:226-320 | a wait ends with its response when that has been handled, and without one only by re-entrance or a failed read; a call that waits for nothing also ends when another thread reads, or when there is nothing more to do |
| Endpoint.NoLostWakeup | Ipc/MAssIpcCall.cpp:224-261 | in every reachable state a sleeper has no stored response and no queued call it may take, and another thread holds the reader role and can move |
| Endpoint.ArrivalStep | Ipc/MAssIpcCall.cpp:264-313 | every action keeps the account of delivered packets |
| Endpoint.DeliveredArrives | Ipc/MAssIpcCall.cpp:275-307 | what the transport delivered, without undefined types, is what was sorted in, in that order, and then what the reader has in hand |
| Endpoint.Conservation | Ipc/MAssIpcCall.cpp:229-313 | every packet of defined type that the transport delivered is in the reader's hand, or was taken once, waits in the queue or the map, or was dropped as a duplicate; calls are taken in the order of delivery; each key is the id in the stored header |
| Flow.SendBalance | Ipc/MAssIpcCall.cpp:350-360 | per id: requests whose id was taken are unsent or written, whatever the action |
| Flow.CallBalance | Ipc/MAssIpcCall.cpp:229-273 | per id: a call that arrived is queued, held, or handled with or without an answer, and no action loses or copies one |
| Flow.ReplyBalance | Ipc/MAssIpcCall.cpp:166-196 | per id: an answer is posted to another thread or written, exactly once |
| Flow.RespBalance | Ipc/MAssIpcCall.cpp:254-313 | per id: a response that arrived is held, stored, returned, dropped or ignored |
| Flow.DeliveredBalance | Ipc/MAssIpcCall.cpp:229-313 | over a whole run, per id: each delivered call is held or was handled, each delivered response is held, given to its waiter, or lost |
| Flow.AskStep | Ipc/MAssIpcCall.h:556-573 | per id: each request that wants a response keeps exactly one activation for it |
| Flow.IdStep | Ipc/MAssIpcCall.cpp:442-459 | every issued id sits on its own place of the counter's lap |
| Network.CallerLedger | Ipc/MAssIpcCall.cpp:350-365 | actions of the caller keep both ledgers: request and response of an id are each in one place |
| Network.CalleeLedger | Ipc/MAssIpcCall.cpp:140-199 | actions of the callee keep both ledgers |
| Network.NetStep | Autotests/IpcTransport_MemoryShare.h:89-125 | every action of either endpoint over FIFO channels keeps the invariant of the pair |
| Network.OnePlace | Ipc/MAssIpcCall.cpp:211-365 | in every run with at most 2^32 - 1 id advances the call an activation waits for is in exactly one place, and nobody else waits for it |
| Network.OwnResponse | Ipc/MAssIpcCall.cpp:264-273 | the response a waiter gets is the one answer the peer produced, for the one request issued with this id |
| Network.HandledOnce | Ipc/MAssIpcCall.cpp:304-304 | each request is handled at most once, no response is dropped because its id is stored, and none is ignored |
| Network.NoCollision | Ipc/MAssIpcCall.cpp:304-304 | the insertion into the response map never meets a stored id |
| Network.SleeperIsServed | Ipc/MAssIpcCall.cpp:241-313 | a sleeper whose call is neither with the peer nor in a channel has its response in the hands of the activation that reads |
| Ages.RoleClearStep | Ipc/MAssIpcCall.cpp:229-306 | whoever holds the reader role has no response stored under the id it waits for, and no call is queued when it processes calls |
| Ages.YoungerCaller | Ipc/MAssIpcCall.cpp:350-365 | actions of the caller keep that whatever runs above the handling of a call was started after the activation that asks |
| Ages.YoungerCallee | Ipc/MAssIpcCall.cpp:264-273 | actions of the callee keep it |
| Waiting.QueueExactly | Ipc/MAssIpcCall.cpp:224-261 | queued calls are served by a step exactly when the reader's thread, or a thread that processes calls, is not stuck, or nobody reads |
| Waiting.JobExactly | Ipc/MAssIpcCall.cpp:166-175 | a posted call or result is served by a step exactly when its thread is not stuck |
| Waiting.WaiterMoves | Ipc/MAssIpcCall.cpp:211-365 | for each place where the call of a waiting activation can be there is a step that takes it on from there, or a stuck activation above the waiting one or above the handling of its call, or the call is shut off |
| Waiting.ShutExactly | Ipc/MAssIpcCall.cpp:211-365 | a stuck wait is shut off if and only if no step moves its call on and no stuck activation is in its way |
| Progress.NoDeadlock | Ipc/MAssIpcCall.cpp:208-322 | in every reachable state of the pair, from every waiting activation of either side a finite chain of ever younger stuck activations, each in the way of the one before, leads to one whose call a step moves on, or to one that is shut off; no empty read by a waiting call, spurious wakeup, new call, or entry on a side where something runs counts as a step |
| Progress.HaltMeans | Ipc/MAssIpcCall.cpp:208-322 | while somebody waits no step is left if and only if every thread of both sides is stuck, jobs wait for such threads and a side without threads has nothing to do; then some wait is shut off |
| Progress.CarefulMoves | Ipc/MAssIpcCall.h:556-573 | when every call that waits is made with processing of incoming calls and on a thread to which nothing is posted, the chain always ends in a step |
| Deadlock.BlockedRun | Ipc/MAssIpcCall.cpp:233-247 | the input: fourteen actions, one thread a side, a call that waits without processing calls and is called back; the call back is queued for nobody and no step is left |
| Deadlock.ParkedRun | Ipc/MAssIpcCall.cpp:166-175 | the input: on both sides the call of the peer is posted to the thread that waits for the peer; no step is left although both waits process calls |
| Bytes.WriteUnsafe | Ipc/MAssIpc_DataStream.h:130-143 | the shifting loop writes the low bytes of the number, least significant first, and nothing else |
| Bytes.ReadUnsafe | Ipc/MAssIpc_DataStream.h:145-160 | the shifting loop in a variable of the number's width and sign yields the number the bytes stand for |
| Bytes.DecodeToBytes | Ipc/MAssIpc_DataStream.h:130-160 | reading back the bytes of a number gives the number, for every width and sign |
| Stream.StaysInside | Ipc/MAssIpc_DataStream.cpp:58-72 | a write is refused or fits if and only if it fits or ends before the largest 32-bit number; in every other case it is not refused and runs past the end |
| Stream.SomeWriteRunsPast | Ipc/MAssIpc_DataStream.cpp:58-72 | there is such a write for every buffer and position, except at the start of a buffer of the largest size |
| Stream.DataStream.WriteRaw | Ipc/MAssIpc_DataStream.cpp:51-72 | whenever the write stays inside it is copied, refused by the bounds check, or only measured |
| Stream.DataStream.WriteInt | Ipc/MAssIpc_DataStream.h:103-117 | an integer write does the same with the bytes of the number |
| Stream.DataStream.ReadRaw | Ipc/MAssIpc_DataStream.cpp:74-101 | a raw read of any length returns the next bytes, or nothing and stays in place when they or the read buffer are not there |
| Stream.DataStream.ReadInt | Ipc/MAssIpc_DataStream.h:119-128 | an integer read decodes the next bytes, or leaves its target and its place as they were |
| Stream.DataStream.ReadText | Ipc/MAssIpc_RawString.cpp:7-15 | a length-prefixed text is read back; the length is consumed even when the text is missing |
| Stream.PutAllAppend | Ipc/MAssIpc_DataStream.cpp:58-72 | series of writes compose, and a series stays inside exactly when its parts do |
| Stream.MeasureThenWrite | Ipc/MAssIpc_DataStream.cpp:58-72 | measure and write pass agree: what the stream without storage measures is what is written, and when the total fits no write is refused and the bytes are the concatenation |
| Codec.CallPieces | Ipc/MAssIpcCall.h:526-553 | the writes of a call, one after the other, make its body |
| Codec.ValueRoundTrip | Ipc/MAssIpc_DataStream.cpp:274-312 | every value reads back as itself wherever it stands, and is consumed exactly: integers of every width and sign, bools, strings, integer vectors, enumerate tables |
| Codec.ArgsRoundTrip | Ipc/MAssIpc_Internals.h:836-853 | so does every list of arguments |
| Codec.SignatureRoundTrip | Ipc/MAssIpcCall.cpp:57-68 | name, send_return flag, return type and parameter text are read back |
| Codec.HeaderAt | Ipc/MAssIpc_PacketParser.cpp:82-103 | size, type and id are read back from the header that was written |
| Codec.CallRoundTrip | Ipc/MAssIpcCall.h:548-553 | the whole packet of a call reads back as the call and is consumed exactly |
| Codec.ValueExamples | Ipc/MAssIpc_DataStream.h:130-143 | one value of each kind, byte by byte |
| Codec.RowExample | Ipc/MAssIpc_DataStream.cpp:296-302 | a listing with one row, byte by byte |
| Codec.CallExample | Ipc/MAssIpc_PacketParser.cpp:97-103 | a call packet, byte by byte |
| Codec.MissingData | Ipc/MAssIpc_DataStream.cpp:282-312 | where data is missing numbers are zero, texts and vectors empty, and the place stays |
| Serializer.WriteInts | Ipc/MAssIpc_DataStream.h:213-220 | the vector loop writes length and items |
| Serializer.WriteRows | Ipc/MAssIpc_DataStream.cpp:296-302 | the enumerate loop writes the count and four strings for each row |
| Serializer.ParamsSize | Ipc/MAssIpc_Internals.h:933-942 | the size holder adds up to the length of the parameter text |
| Serializer.MakeParamsType | Ipc/MAssIpc_Internals.h:1042-1051 | the registered text is the text that a caller streams |
| Serializer.WriteTypes | Ipc/MAssIpc_Internals.h:922-931 | the streaming holder writes that text type by type |
| Serializer.SerializeCall | Ipc/MAssIpcCall.h:548-553 | the serializer makes exactly the writes of the call, in order |
| Serializer.CreateDataStream | Ipc/MAssIpc_Internals.cpp:15-32 | a packet with its header for a valid id, a stream without storage for id zero |
| Serializer.BuildCall | Ipc/MAssIpcCall.h:556-573 | measure, allocate, header, body: the packet is filled exactly and its size field is the length of the body |
| Serializer.BuildCallInplace | Ipc/MAssIpc_Internals.cpp:35-45 | a caller's buffer gets the same packet at its start; one that is too small is refused and stays as it was |
| Serializer.SerializeReturn | Ipc/MAssIpc_Internals.h:966-977 | the result packet, built in two passes; none for id zero |
| Serializer.ReturnRoundTrip | Ipc/MAssIpc_Internals.h:966-977 | the waiting caller reads the value that the handler returned |
| Serializer.ReadInts | Ipc/MAssIpc_DataStream.h:222-231 | the vector loop reads what the format says, zeros when data is missing |
| Serializer.ReadRows | Ipc/MAssIpc_DataStream.cpp:304-312 | the enumerate loop reads what the format says |
| Serializer.DeserializeArgs | Ipc/MAssIpc_Internals.h:836-845 | the arguments are read in order by their types |
| Serializer.DeserializeNameSignature | Ipc/MAssIpcCall.cpp:57-68 | the signature is read as the format says |
| Serializer.CallThroughPacket | Ipc/MAssIpcCall.h:556-573 | built by one side and read by the other, a packet gives back header, name, flag, types and arguments |
| Parser.FramesExtend | Ipc/MAssIpc_PacketParser.cpp:39-70 | framing is incremental: packets found in a prefix stay, and the rest goes on from where it was |
| Parser.FramesConserve | Ipc/MAssIpc_PacketParser.cpp:39-70 | a stream is its packets followed by the incomplete rest |
| Parser.FramesOfPackets | Ipc/MAssIpc_PacketParser.cpp:39-103 | framing undoes the concatenation of packets |
| Parser.CallIsPacket | Ipc/MAssIpc_PacketParser.cpp:97-103 | a serialized call is framed by its own size field |
| Parser.ByteTransport.WaitRespond | Autotests/IpcTransport_MemoryCopy.h:53-59 | the wait loop ends with the expected bytes or cancelled, whatever the wakeups between |
| Parser.PacketParser.ReadDataIsAvailable | Ipc/MAssIpc_PacketParser.cpp:19-37 | reads what is there up to what is needed to the right place; a failed read changes nothing |
| Parser.PacketParser.ReceiveReadHeader | Ipc/MAssIpc_PacketParser.cpp:72-80 | the complete header sizes the packet and starts it |
| Parser.PacketParser.HeldIsRest | Ipc/MAssIpc_PacketParser.h:41-56 | between calls the emitted packets are the frames of the consumed bytes and the state holds their rest |
| Parser.PacketParser.ReadNeededDataSize | Ipc/MAssIpc_PacketParser.cpp:39-70 | a call conserves the bytes, emits at most the one packet it completes and then holds nothing of the next, and without a packet leaves no byte unread; only a failing transport makes it fail |
| Parser.ParseSchedule | Ipc/MAssIpc_PacketParser.cpp:19-80 | for every cutting of a sound stream into chunks and every schedule of calls the emitted packets are the frames of the stream |
| Parser.TransportProxy.Read | Ipc/MAssIpc_TransportProxy.cpp:25-48 | parse, wait, parse, on any transport whose wait ends: a waiting call brings a packet, or turns an incomplete header into a complete one, or reports a cancelled wait or a failed read; no byte is lost |
| Parser.ReceivePacket | Ipc/MAssIpc_TransportProxy.cpp:25-48 | when the transport goes on to deliver a packet, from every parser state two reads bring it unless the wait is cancelled or the transport fails |
| Keys.TextNamesTypes | Ipc/MAssIpc_Internals.h:886-958 | without separators inside type names parameter texts are equal exactly when the type lists are |
| Keys.SeparatorCollides | Ipc/MAssIpc_Internals.h:888-899 | the static check is needed: one name with a separator reads like two names |
| Keys.KeyOrder | Ipc/MAssIpc_Internals.h:373-385 | the order of keys is strict and total and separates all keys that differ in a byte, for signed and unsigned characters |
| Keys.TextLessExactly | Ipc/MAssIpc_RawString.h:71-74 | a text is smaller exactly when it is the beginning of the other or has the smaller character where they differ first |
| Keys.KeyLessExactly | Ipc/MAssIpc_Internals.h:378-384 | keys are ordered by their names, and by their parameters where the names agree |
| Keys.OneWalk | Ipc/MAssIpc_Internals.cpp:118-120 | there is one ascending walk through a set of keys |
| Keys.KeyNamesHandler | Ipc/MAssIpc_Internals.h:373-390 | two keys are equal exactly when names and parameter types are |
| Dispatch.Internals.AddProcSignature | Ipc/MAssIpc_Internals.cpp:125-149 | a callable handler is never replaced; entries and their counters survive re-registration, and the comment is the latest that was accepted |
| Dispatch.Internals.AddHandler | Ipc/MAssIpcCall.h:508-516 | a handler goes under its name and the text of its own parameter types, and well-typed handlers stay well typed |
| Dispatch.Internals.RegisterThenFind | Ipc/MAssIpc_Internals.cpp:99-149 | a lookup after a registration finds the new handler exactly for its name and parameter types, and otherwise what it found before |
| Dispatch.Internals.FindCallInfo | Ipc/MAssIpc_Internals.cpp:99-111 | entry and invokable handler; the callback for call counts only when the key is there, the error handler only when it is not |
| Dispatch.Internals.InvokeLocal | Ipc/MAssIpcCall.cpp:111-199 | for direct calls: a request that wants a response is answered by the handler of its key when it names no return type or the handler's, otherwise with the failure that says what does not match; the counter of the key and no other goes up by one and its callback runs exactly when the key is registered, the error handler runs exactly when it is not |
| Dispatch.MessageReads | Ipc/MAssIpcCall.cpp:80-89 | where return type, name and parameters stand in the text of a failure |
| Dispatch.ShapesFromKey | Ipc/MAssIpc_Internals.h:1006-1016 | the handler found under the key of a call takes arguments of the types that the call has |
| Dispatch.AnswerToCall | Ipc/MAssIpcCall.cpp:140-199 | handling a call packet writes one answer exactly when send_return is set and the id is not zero, with the handler's result on the caller's arguments or the reason of the failure |
| Dispatch.ResponsesCarryId | Ipc/MAssIpc_Internals.cpp:68-95 | for every readable packet: one response exactly when it is wanted, carrying the id, its type telling success from failure |
| Dispatch.OwedHeader | Ipc/MAssIpc_Internals.cpp:68-95 | the answer carries the id of the call and its type tells success from failure |
| Dispatch.HandlingAnswers | Ipc/MAssIpcCall.cpp:140-199 | this is what the multiplexer's model takes for granted of handling a call: for every readable call packet one response that answers it exactly when it must be answered |
| Dispatch.ListingAnswers | Ipc/MAssIpcCall.cpp:398-413 | the same for a request for the listing, which must be answered exactly when its size is zero and its id is not |
| Dispatch.CallSeen | Ipc/MAssIpcCall.h:556-573 | the callee's multiplexer sees the type, id, flag and body that the caller issued |
| Dispatch.RequestSeen | Ipc/MAssIpcCall.cpp:423-435 | so it does for the request for the listing |
| Dispatch.Internals.ProcessBuffer | Ipc/MAssIpcCall.cpp:367-421 | a packet that must be answered is answered once, by a packet that answers it, and no other packet makes anything be written; a response goes to the waiting call; the listing is answered with the listing |
| Dispatch.Internals.EnumerateHandlers | Ipc/MAssIpc_Internals.cpp:112-123 | the loop lists each handler that can be called, once, in the order of the keys; each row has the name, return type, parameters and comment of its handler |
| Dispatch.Internals.RowsMean | Ipc/MAssIpc_Internals.cpp:112-123 | so does every listing |
| Dispatch.Internals.OneListing | Ipc/MAssIpc_Internals.cpp:112-123 | there is one such listing, and its rows differ in name or parameter types |
| Dispatch.EnumerateRemote | Ipc/MAssIpcCall.cpp:423-435 | from end to end: the caller reads a row with name, return type, parameters and comment for exactly the handlers that can be called |
| Dispatch.Internals.ReceiveFail | Ipc/MAssIpcCall.cpp:375-394 | the caller reads error and message and tells its error handler exactly when it has one: a missing name or a wrong return type as seen from afar, anything else as unknown |
| Dispatch.FailRoundTrip | Ipc/MAssIpcCall.cpp:133-138 | the failure keeps its kind and message on the way back |
| Dispatch.CallRemote | Ipc/MAssIpcCall.h:575-590 | a remote call from end to end: when the handler of the key can be called and the call names no return type or its own, the caller gets what the handler computes on its arguments, or nothing when it waits for no value; otherwise it gets the default value, and its error handler learns whether the handler or the return type was wrong; the call is counted once |
| Dispatch.AnswerMismatch | Ipc/MAssIpcCall.cpp:124-129 | a registered key with another return type is answered with a failure, and the callee's error handler is not told |
| Dispatch.MismatchIsSilent | Ipc/MAssIpcCall.cpp:124-129 | such a call, with an error handler set |
| Traversal.InvStep | Practice/TestabilityInterfaceQt/IntegrationSut/EventHandlerMap.h:264-335 | every step of every nested traversal, and every removal and addition during it, keeps all cursors on track and no node without a reason |
| Traversal.EndOfTraversal | Practice/TestabilityInterfaceQt/IntegrationSut/EventHandlerMap.h:602-615 | the handlers registered throughout a traversal were invoked once each, in list order |
| Traversal.RemovedNeverInvoked | Practice/TestabilityInterfaceQt/IntegrationSut/EventHandlerMap.h:217-241 | a removed registration is never invoked again by any traversal |
| Traversal.PassedNeverInvoked | Practice/TestabilityInterfaceQt/IntegrationSut/EventHandlerMap.h:264-275 | a traversal never comes back to what is behind it |
| Traversal.FrontIsPassed | Practice/TestabilityInterfaceQt/IntegrationSut/EventHandlerMap.h:299-307 | a handler added at the front is behind every running traversal |
| CallbackList.Unlink | Practice/TestabilityInterfaceQt/IntegrationSut/EventHandlerMap.h:175-185 | the pointers of the other nodes form the ring without the node |
| CallbackList.AddBefore | Practice/TestabilityInterfaceQt/IntegrationSut/EventHandlerMap.h:164-173 | the pointers form the ring with the node in front of the given one |
| CallbackList.AddAfter | Practice/TestabilityInterfaceQt/IntegrationSut/EventHandlerMap.h:153-162 | the pointers form the ring with the node behind the given one |
| CallbackList.List.Drop | Practice/TestabilityInterfaceQt/IntegrationSut/EventHandlerMap.h:117-121 | giving up a reference unlinks the node exactly when it was the last one, and the ring stays well formed |
| CallbackList.List.RemoveFromList | Practice/TestabilityInterfaceQt/IntegrationSut/EventHandlerMap.h:217-241 | the element leaves its node and the others keep their order; the node stays linked while an iterator holds it |
| CallbackList.List.PushBack | Practice/TestabilityInterfaceQt/IntegrationSut/EventHandlerMap.h:289-297 | the element gets a new node and stands behind all others, which keep their order; a listed one is released first |
| CallbackList.List.PushFront | Practice/TestabilityInterfaceQt/IntegrationSut/EventHandlerMap.h:299-307 | the element gets a new node and stands in front of all others, which keep their order; a listed one is released first |
| CallbackList.List.Front | Practice/TestabilityInterfaceQt/IntegrationSut/EventHandlerMap.h:277-287 | an iterator starts with a reference to the first node |
| CallbackList.List.GetNext | Practice/TestabilityInterfaceQt/IntegrationSut/EventHandlerMap.h:264-275 | the iterator takes the next node before it gives up this one |
| CallbackList.CallHandlers | Practice/TestabilityInterfaceQt/IntegrationSut/EventHandlerMap.h:602-608 | on the heap, with handlers that remove, add and call again at any depth: the k-th invoked handler does what the k-th entry of the script says, step by step; the lasting handlers are invoked once each in list order, the outer traversals keep their places, it terminates, and it tells whether an invoked handler lets type handlers run |
| CallbackList.Perform | Practice/TestabilityInterfaceQt/IntegrationSut/EventHandlerMap.h:602-608 | a handler leaves the list as its acts say, in their order |
| CallbackList.ActLists | Practice/TestabilityInterfaceQt/IntegrationSut/EventHandlerMap.h:217-307 | what one act does to the order of the elements |
| CallbackList.RemovedStaysOut | Practice/TestabilityInterfaceQt/IntegrationSut/EventHandlerMap.h:602-608 | an element that is not listed and not added again is not invoked for the rest of the traversal and not listed afterwards |
| CallbackList.FirstRemovesSecond | Practice/TestabilityInterfaceQt/IntegrationSut/EventHandlerMap.h:602-608 | two handlers, the first removes the second: the first is invoked, the second neither invoked nor listed |
| CallbackList.CallName | Practice/TestabilityInterfaceQt/IntegrationSut/EventHandlerMap.h:588-615 | the handlers of the type run exactly when nothing is registered under the name or some invoked handler of the name does not skip them; an entry without handlers keeps them from running |
| Traversal.EmptyExactly | Practice/TestabilityInterfaceQt/IntegrationSut/EventHandlerMap.h:277-287 | a list has no node exactly when no handler is registered and no iterator stands on a node |
| CallbackList.RemoveTag | Practice/TestabilityInterfaceQt/IntegrationSut/EventHandlerMap.h:558-572 | exactly the handlers with the tag go; the entry is given up if and only if, before the call, all handlers had the tag and no iterator stood on a node |
| CallbackList.StaleEntry | Practice/TestabilityInterfaceQt/IntegrationSut/EventHandlerMap.h:558-615 | a handler that clears its own tag while it is invoked leaves an entry without handlers, and then neither name nor type handlers run |
| Waiter.BindValid | Ipc/MAssIpcWaiter.h:156-164 | binding a check keeps the filter equal to the bindings |
| Waiter.BindEventValid | Ipc/MAssIpcWaiter.h:166-183 | sharing the checks of another event keeps it equal |
| Waiter.DestroyValid | Ipc/MAssIpcWaiter.h:116-128 | destroying an event keeps it equal |
| Waiter.BoundIsFiltered | Ipc/MAssIpcWaiter.h:32-37 | every check of a live event is announced in the filter |
| Waiter.ProbeExactly | Ipc/MAssIpcWaiter.h:223-233 | the predicate of a wait finds something exactly when a check is triggered, and the first triggered check says whether it means cancellation |
| Waiter.SignalCounts | Ipc/MAssIpcWaiter.h:256-265 | a signal raises what is outstanding by one, except that 2^32 count as none |
| Waiter.ResetConsumes | Ipc/MAssIpcWaiter.h:94-137 | a reset in trigger mode consumes one signal for each listing of the check, as long as there are any; cancel checks keep theirs |
| Waiter.CheckIsSemaphore | Ipc/MAssIpcWaiter.h:94-137 | over any run of signals and resets with fewer than 2^32 outstanding a check is a counting semaphore, across wraparound |
| Waiter.SemaphoreExactly | Ipc/MAssIpcWaiter.h:94-137 | a check agrees with the semaphore all through a run if and only if there are never 2^32 signals outstanding |
| Waiter.WrapForgets | Ipc/MAssIpcWaiter.h:377-383 | with 2^32 - 1 outstanding, one more signal and the check is not triggered |
| Waiter.ResetNeverTriggers | Ipc/MAssIpcWaiter.h:130-137 | no reset in any mode triggers a check |
| Waiter.ConditionWaitLock.BindEvent | Ipc/MAssIpcWaiter.h:166-183 | the sharing loop, in place |
| Waiter.ConditionWaitLock.DestroyEvent | Ipc/MAssIpcWaiter.h:116-128 | the erasing loop, in place |
| Waiter.ConditionWaitLock.ResetTriggered | Ipc/MAssIpcWaiter.h:130-137 | the resetting loop, in place |
| Waiter.ConditionWaitLock.IsTriggeredLocked | Ipc/MAssIpcWaiter.h:223-233 | true exactly when some check of the event is triggered; the result is the cancel flag of the first triggered one |
| Waiter.ConditionWaitLock.Result | Ipc/MAssIpcWaiter.h:200-214 | a wait returns canceled exactly when all waits are canceled or the first triggered check says so, and times out exactly when nothing is triggered |
| WaitProtocol.InvStep | Ipc/MAssIpcWaiter.h:116-221 | every step of signalling, binding, resetting and waiting keeps the invariant |
| WaitProtocol.FilterIsBindings | Ipc/MAssIpcWaiter.h:28-37 | in every reachable state the filter holds each id as often as live events bind it |
| WaitProtocol.NoSleeperMissed | Ipc/MAssIpcWaiter.h:201-214 | a thread sleeps only while nothing is canceled and the signal behind each triggered check of its event is between its increment and its notification; with no notification on its way nobody sleeps on a wait that could end |
| WaitProtocol.WaitEnds | Ipc/MAssIpcWaiter.h:187-214 | over runs: a wait ends by its timeout or when its thread looks and everything is canceled or a check is triggered, and in no other way; a thread that looks in vain sleeps, on the same event |
| WaitProtocol.ResultExactly | Ipc/MAssIpcWaiter.h:200-214 | over runs: what a wait returns when it ends, and that nothing else changes it |
| WaitProtocol.CanceledForGood | Ipc/MAssIpcWaiter.h:201-214 | after all waits are canceled nobody sleeps any more, and every wait that ends returns canceled |
| WaitProtocol.OutstandingStep | Ipc/MAssIpcWaiter.h:94-137 | a signal counts once on every check of its source, a reset changes only the checks of its event, and no other step changes what is outstanding |
| WaitProtocol.BindStep | Ipc/MAssIpcWaiter.h:156-164 | a new check starts at the count it is given and is listed last |
| Transthread.Internals.RegisterCall | Ipc/MAssIpc_TransthreadCaller.cpp:97-116 | the new waiter is in both sets, canceled at once exactly when the sender has given up its set |
| Transthread.Internals.CallFromThread | Ipc/MAssIpc_TransthreadCaller.cpp:94-121 | the waiter is registered, then the receiver's flag is set and its sleepers are notified |
| Transthread.Internals.CancelDisableWaitingCall | Ipc/MAssIpc_TransthreadCaller.cpp:23-43 | exactly the calls that the thread's record knows as sender become canceled, and the set is given up |
| Transthread.Internals.OnFinished | Ipc/MAssIpc_TransthreadCaller.cpp:163-185 | the record goes and exactly the calls that it knows as receiver become finished with the receiver |
| Transthread.InvStep | Ipc/MAssIpc_TransthreadCaller.cpp:23-249 | every step, the two halves of adding a thread included, keeps the registry exact, leaves no call of a record without its set in progress, and no sleeper on a settled call |
| Transthread.Internals.AddTargetThreadId | Ipc/MAssIpc_TransthreadCaller.cpp:57-80 | with nobody between its two critical sections it makes the record of a thread that has none, and changes nothing otherwise |
| Transthread.OpenStep | Ipc/MAssIpc_TransthreadCaller.cpp:23-241 | a call in progress is settled by its own end, by a cancel of the thread that has its sender's record and by the end of the thread that has its receiver's record, and by no other step |
| Transthread.StateStep | Ipc/MAssIpc_TransthreadCaller.cpp:163-241 | what state a call has after any step: done only by its own end, canceled only by a cancel of its sender, finished with the receiver only by the end of its receiver |
| Transthread.SleepStep | Ipc/MAssIpc_TransthreadCaller.cpp:193-249 | a thread that looks sleeps exactly when its call is in progress and nothing came in, and a sleeper sleeps until its condition is notified |
| Transthread.CallStep | Ipc/MAssIpc_TransthreadCaller.cpp:94-116 | a new call is in progress when its sender has its set and canceled when the sender gave it up, and its records are the ones that sender and receiver have |
| Transthread.CancelSettles | Ipc/MAssIpc_TransthreadCaller.cpp:23-43 | once a set of sent calls is given up no call from that record is in progress, ever again, made before or after |
| Transthread.SentStep | Ipc/MAssIpc_TransthreadCaller.cpp:23-80 | every call in progress stays known to the record of its sender, except exactly when a step overwrites or erases that record under it |
| Transthread.CancelMeans | Ipc/MAssIpc_TransthreadCaller.cpp:23-43 | a cancel of any thread would settle every call from it if and only if every call in progress is known to its sender's record |
| Transthread.CancelReaches | Ipc/MAssIpc_TransthreadCaller.cpp:23-80 | over a whole run: every cancel at any time would settle every call from its thread if and only if no insertion overwrites a record with sent calls in progress and no thread ends with calls to others in progress |
| Transthread.RefusesStep | Ipc/MAssIpc_TransthreadCaller.cpp:23-116 | a thread's new calls are canceled at once from a cancel that finds its record until that record is overwritten or erased |
| Transthread.CancelDisables | Ipc/MAssIpc_TransthreadCaller.cpp:23-116 | over a run: after a cancel they are canceled at once all along if and only if the cancel found a record and no step took it away |
| Transthread.MissedCancel | Ipc/MAssIpc_TransthreadCaller.cpp:57-80 | the input: a call made while its sender is being added; a cancel misses it |
| Transthread.ReceivedStep | Ipc/MAssIpc_TransthreadCaller.cpp:57-80 | every call in progress stays known to the record of its receiver, except exactly when an insertion overwrites that record |
| Transthread.FinishMeans | Ipc/MAssIpc_TransthreadCaller.cpp:163-185 | the end of any thread would settle every call to it if and only if every call in progress is known to its receiver's record |
| Transthread.FinishSettles | Ipc/MAssIpc_TransthreadCaller.cpp:57-185 | over a whole run: the end of any thread at any time would settle every call to it if and only if no insertion overwrites a record to which a call is in progress |
| Transthread.AddedAlone | Ipc/MAssIpc_TransthreadCaller.cpp:57-80 | when nobody else makes a record for a thread while it is being added, no record is overwritten and the end of every thread settles every call to it |
| Transthread.RecordGone | Ipc/MAssIpc_TransthreadCaller.cpp:57-185 | after a record is gone no call to it is in progress, ever again, if and only if it went by the end of its thread or had no call in progress when it was overwritten |
| Transthread.LostCall | Ipc/MAssIpc_TransthreadCaller.cpp:57-80 | the input: a call made while its receiver is being added; the end of the receiver leaves it in progress and its sender asleep |
| Transthread.LostForGood | Ipc/MAssIpc_TransthreadCaller.cpp:163-241 | whatever happens then, only its own end or a cancel of its sender settles such a call |
| Transthread.SettledForGood | Ipc/MAssIpc_TransthreadCaller.cpp:221-241 | a settled call never returns to in-progress |
| Transthread.NoSleepOnSettled | Ipc/MAssIpc_TransthreadCaller.cpp:193-219 | no thread sleeps on a settled call |

## Left out

- Qt and Winsock transports, event loops and the applications around them: library calls that cannot be seen.
- C++ templates: argument lists are values with shapes, handlers are functions from values to an optional value; `float` and `double` travel as opaque bytes.
- `weak_ptr` expiry, exceptions, exhausted memory and assertions as a user interface: transport and internals stay alive for a run, and a destroyed handler entry does not occur while an event is bound to it.
- Malformed packets and oversize lengths: the stream of the parser is required to be sound (every announced packet fits 32 bits), the signature of a call to be complete.
- Pending.Drain.ProcessTransport: needs that nobody else holds the reader role and that no response is stored under id zero at the start; handlers are not run, only handed over.
- Endpoint.InvStep: the transport read is one action and its contents are arbitrary; that a packet's flag and size decide about the answer is a field of the packet here and is derived from the bytes in `Dispatch.Internals.ProcessBuffer`.
- Progress.NoDeadlock: a handler that is not itself calling returns, a posted job runs when its thread does nothing else, and a side on which nothing runs looks in when a packet or a call is there; that steps which can be taken are taken in the end (fairness), and a transport that runs posted jobs inside its read, are not modelled.
- Dispatch.Internals.InvokeLocal: direct calls only, and handlers compute a result without calling back; posting a call or its result to another thread, and re-entrance, are actions of `Endpoint.Next`.
- Dispatch.CallRemote: both sides agree on what type names mean, and a handler's result has its declared type, as the compiler ensures.
- Serializer.ReadRows: missing data yields empty strings; the memory that a wrong count would allocate is not modelled.
- CallbackList.List.PushBack: a listed element gives up its old node before the new one is linked; the source drops it at the end of the same critical section. The lock that identifies a list, and several threads on one list, are not modelled.
- CallbackList.CallName: the handlers of one list act on that list only; the cast of an element to the caller's type is left out, because elements enter under a key that holds the type.
- WaitProtocol.InvStep: time is an action that may happen at any moment.
- Transthread.InvStep: the platform's receiver object is made between the two critical sections of adding a thread and is not part of this model; processing of posted calls by nested waits is left to the environment, because the single flag gives no wakeup guarantee under nesting; the queue of the receiver's event loop is a library call; the pseudo thread of direct calls makes no waiter.
- The autotests' other transports, `AddAllProcs`, `ClearProcsWithTag` and simple getters and setters: nothing hard.
