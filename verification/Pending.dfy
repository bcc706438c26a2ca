/** The shared state of the multiplexer and its critical sections, first as
    functions on values, then as the class that updates it in place, and last
    the single-threaded loop that drains a transport. */
module Pending {
  import opened Prelude
  import opened Packets
  import opened CallIds

  type Thread = nat

  /** What `m_lock` protects. `locked` names the thread inside the transport read. */
  datatype State = State(locked: Option<Thread>, counter: u32,
                         responses: map<u32, Packet>, queue: seq<Packet>)

  /** How one pass through the first critical section ends. */
  datatype Outcome =
    | Reentrant                 // the calling thread is already inside the transport read
    | TakeResponse(p: Packet)
    | TakeCall(p: Packet)
    | Sleep                     // another thread reads, and this one waits for it
    | NotReader                 // another thread reads, and this one must not wait
    | BecomeReader

  /** One pass of the first critical section up to the point where it leaves the
      lock or waits on the condition. `entering` is false after a wakeup. */
  function ReadPass(s: State, t: Thread, wait: u32, process: bool, entering: bool): (State, Outcome) {
    if entering && s.locked == Some(t) then (s, Reentrant)
    else if wait in s.responses then
      (s.(responses := s.responses - {wait}), TakeResponse(s.responses[wait]))
    else if process && s.queue != [] then (s.(queue := s.queue[1..]), TakeCall(s.queue[0]))
    else if s.locked.Some? then (s, if wait != INVALID_ID then Sleep else NotReader)
    else (s.(locked := Some(t)), BecomeReader)
  }

  /** Insertion that keeps the element already stored under the key. */
  function Insert(m: map<u32, Packet>, p: Packet): map<u32, Packet> {
    if p.id in m then m else m[p.id := p]
  }

  /** The second critical section: give up the reader role and sort the packet in. */
  function StorePass(s: State, got: Option<Packet>): State {
    var s1 := s.(locked := None);
    if got.None? || got.value.ptype == PT_UNDEFINED then s1
    else if got.value.ptype <= PT_CALL then s1.(queue := s1.queue + [got.value])
    else s1.(responses := Insert(s1.responses, got.value))
  }

  /** Whether the second critical section stored a response, inserted or not. */
  predicate NewReturn(got: Option<Packet>) {
    got.Some? && IsResponse(got.value)
  }

  class PendingResponses {
    var lockedId: Option<Thread>
    var incrementalId: u32
    var idDataReturn: map<u32, Packet>
    var dataIncomingCall: seq<Packet>

    constructor ()
      ensures View() == State(None, 0, map[], [])
    {
      lockedId, incrementalId, idDataReturn, dataIncomingCall := None, 0, map[], [];
    }

    ghost function View(): State
      reads this
    {
      State(lockedId, incrementalId, idDataReturn, dataIncomingCall)
    }

    method ReadBufferPass(t: Thread, wait: u32, process: bool, entering: bool) returns (r: Outcome)
      modifies this
      ensures (View(), r) == ReadPass(old(View()), t, wait, process, entering)
      ensures r.Reentrant? <==> entering && old(lockedId) == Some(t)
      ensures r.TakeResponse? <==> !r.Reentrant? && wait in old(idDataReturn)
      ensures r.TakeCall? <==> !r.Reentrant? && wait !in old(idDataReturn) && process && old(dataIncomingCall) != []
      ensures r.BecomeReader? <==> !r.Reentrant? && !r.TakeResponse? && !r.TakeCall? && old(lockedId) == None
      ensures r.Sleep? || r.NotReader? ==> r.Sleep? == (wait != INVALID_ID)
      ensures r.TakeResponse? ==> r.p == old(idDataReturn)[wait]
      ensures idDataReturn == if r.TakeResponse? then old(idDataReturn) - {wait} else old(idDataReturn)
      ensures r.TakeCall? ==> r.p == old(dataIncomingCall)[0]
      ensures dataIncomingCall == if r.TakeCall? then old(dataIncomingCall)[1..] else old(dataIncomingCall)
      ensures lockedId == if r.BecomeReader? then Some(t) else old(lockedId)
      ensures incrementalId == old(incrementalId)
    {
      if entering && lockedId == Some(t) {
        return Reentrant;
      }
      if wait !in idDataReturn {
        if process && dataIncomingCall != [] {
          r := TakeCall(dataIncomingCall[0]);
          dataIncomingCall := dataIncomingCall[1..];
        } else if lockedId.Some? {
          r := if wait != INVALID_ID then Sleep else NotReader;
        } else {
          lockedId := Some(t);
          r := BecomeReader;
        }
      } else {
        r := TakeResponse(idDataReturn[wait]);
        idDataReturn := idDataReturn - {wait};
      }
    }

    method StoreBuffer(got: Option<Packet>, process: bool) returns (more: bool, newReturn: bool)
      modifies this
      ensures View() == StorePass(old(View()), got)
      ensures lockedId == None && incrementalId == old(incrementalId)
      ensures dataIncomingCall == old(dataIncomingCall) + if got.Some? && IsCall(got.value) then [got.value] else []
      ensures idDataReturn == if got.Some? && IsResponse(got.value) && got.value.id !in old(idDataReturn)
                              then old(idDataReturn)[got.value.id := got.value] else old(idDataReturn)
      ensures more == (process && View().queue != []) && newReturn == NewReturn(got)
    {
      more, newReturn := false, false;
      lockedId := None;
      if got.Some? && got.value.ptype != PT_UNDEFINED {
        if got.value.ptype <= PT_CALL {
          dataIncomingCall := dataIncomingCall + [got.value];
        } else {
          if got.value.id !in idDataReturn {
            idDataReturn := idDataReturn[got.value.id := got.value];
          }
          newReturn := true;
        }
      }
      if process {
        more := dataIncomingCall != [];
      }
    }

    /** Terminates as soon as some nonzero id has no stored response. */
    method NewCallId() returns (newId: u32)
      requires HasFree(idDataReturn.Keys)
      modifies this`incrementalId
      ensures newId == NewId(old(incrementalId), idDataReturn.Keys)
      ensures incrementalId == NewCounter(old(incrementalId), idDataReturn.Keys)
    {
      ghost var stored := idDataReturn.Keys;
      ghost var n := Skips(incrementalId, stored);
      ghost var c0 := incrementalId;
      ghost var turn := 0;
      ghost var before := incrementalId;
      newId := AllocateOnce();
      CandidateShift(before, 0);
      assert Candidate(c0, 0) == newId;
      while newId in idDataReturn
        invariant turn <= n && newId == Candidate(c0, turn)
        invariant incrementalId == (newId + 1) % U32_SIZE
        invariant idDataReturn.Keys == stored
        invariant n == Skips(c0, stored)
        decreases n - turn
      {
        before := incrementalId;
        NextCandidate(c0, turn);
        assert turn != n;
        newId := AllocateOnce();
        turn := turn + 1;
      }
    }

    /** One turn of the allocation loop. */
    method AllocateOnce() returns (newId: u32)
      modifies this`incrementalId
      ensures newId == Candidate0(old(incrementalId)) && incrementalId == Bump(old(incrementalId))
    {
      if incrementalId == INVALID_ID {
        incrementalId := incrementalId + 1;
      }
      newId := incrementalId;
      incrementalId := (incrementalId + 1) % U32_SIZE;
    }
  }

  // ----- Draining a finite transport from one thread ------------------------

  /** A packet after which `ProcessTransport` returns although more is unread:
      an undefined type, or a well-typed response nobody can wait for. */
  predicate Stops(p: Packet) {
    p.ptype == PT_UNDEFINED || (IsReturn(p) && p.id == INVALID_ID)
  }

  /** How many packets one call of `ProcessTransport` reads. */
  function ReadCount(unread: seq<Packet>): (n: nat)
    ensures n <= |unread|
    ensures forall i :: 0 <= i < n - 1 ==> !Stops(unread[i])
    ensures n < |unread| ==> n > 0 && Stops(unread[n - 1])
    ensures n == |unread| || (n > 0 && Stops(unread[n - 1]))
  {
    if unread == [] then 0
    else if Stops(unread[0]) then 1
    else 1 + ReadCount(unread[1..])
  }

  /** Packets handed to `ProcessBuffer` by a caller that waits for no response. */
  predicate Handled(p: Packet) {
    IsCall(p) || (IsResponse(p) && p.id == INVALID_ID)
  }

  function HandledOf(s: seq<Packet>): seq<Packet> {
    if s == [] then []
    else HandledOf(s[..|s| - 1]) + if Handled(s[|s| - 1]) then [s[|s| - 1]] else []
  }

  /** The response map after the packets `s` arrived. */
  function Stored(m: map<u32, Packet>, s: seq<Packet>): map<u32, Packet> {
    if s == [] then m
    else
      var m1 := Stored(m, s[..|s| - 1]);
      var p := s[|s| - 1];
      if IsResponse(p) && p.id != INVALID_ID then Insert(m1, p) else m1
  }

  class Drain {
    const pending: PendingResponses
    var unread: seq<Packet>     // what the transport has received and nobody has read
    var handled: seq<Packet>    // packets given to ProcessBuffer, in order

    constructor (pending: PendingResponses, unread: seq<Packet>)
      ensures this.pending == pending && this.unread == unread && handled == []
    {
      this.pending, this.unread, handled := pending, unread, [];
    }

    /** The transport read without waiting. */
    method Read() returns (got: Option<Packet>)
      modifies this`unread
      ensures old(unread) == [] ==> got == None && unread == []
      ensures old(unread) != [] ==> got == Some(old(unread)[0]) && unread == old(unread)[1..]
    {
      if unread == [] {
        return None;
      }
      got := Some(unread[0]);
      unread := unread[1..];
    }

    /** `ProcessTransport` on a transport that never fails, with no other thread
        and handlers that do not send: it terminates on every stream of packets. */
    method ProcessTransport(t: Thread)
      requires pending.lockedId == None && INVALID_ID !in pending.idDataReturn
      modifies this`unread, this`handled, pending
      ensures unread == old(unread)[ReadCount(old(unread))..]
      ensures handled == old(handled) + old(pending.dataIncomingCall)
                         + HandledOf(old(unread)[..ReadCount(old(unread))])
      ensures pending.idDataReturn == Stored(old(pending.idDataReturn), old(unread)[..ReadCount(old(unread))])
      ensures pending.dataIncomingCall == [] && pending.lockedId == None
      ensures pending.incrementalId == old(pending.incrementalId)
    {
      ghost var u0, s0, before := unread, pending.View(), handled + pending.dataIncomingCall;
      ghost var k: nat := 0;
      assert u0[..0] == [] && u0[0..] == u0;
      var done := false;
      while !done
        invariant k <= |u0| && unread == u0[k..]
        invariant Progress(s0, u0, before, k, pending.View(), handled, done)
        decreases !done, 2 * |unread| + |pending.dataIncomingCall| + |Zero(pending.idDataReturn)|
      {
        PassProgress(s0, u0, before, k, pending.View(), handled, t);
        var r := pending.ReadBufferPass(t, INVALID_ID, true, true);
        match r {
          case TakeCall(p) =>
            handled := handled + [p];
          case TakeResponse(p) =>
            handled := handled + [p];
            done := p.id == INVALID_ID && IsReturn(p);
          case BecomeReader =>
            var got := Read();
            ReadProgress(s0, u0, before, k, pending.View(), handled, got);
            k := if got.Some? then k + 1 else k;
            var more, newReturn := pending.StoreBuffer(got, true);
            done := !more && !newReturn;
        }
      }
      assert pending.idDataReturn == pending.idDataReturn - {INVALID_ID};
    }
  }

  /** The packet stored under the id that nobody waits for. */
  function Zero(m: map<u32, Packet>): seq<Packet> {
    if INVALID_ID in m then [m[INVALID_ID]] else []
  }

  /** After `k` packets of `u0`: what was handled and what still waits to be
      handled is what was there before and what arrived. */
  predicate HandledSoFar(before: seq<Packet>, u0: seq<Packet>, k: nat, s: State, handled: seq<Packet>)
    requires k <= |u0|
  {
    handled + s.queue + Zero(s.responses) == before + HandledOf(u0[..k])
  }

  predicate StoredSoFar(s0: State, u0: seq<Packet>, k: nat, s: State)
    requires k <= |u0|
  {
    && s.locked == None && s.counter == s0.counter
    && INVALID_ID !in Stored(s0.responses, u0[..k])
    && s.responses - {INVALID_ID} == Stored(s0.responses, u0[..k])
  }

  ghost predicate Position(u0: seq<Packet>, k: nat, s: State, done: bool)
    requires k <= |u0|
  {
    && (INVALID_ID in s.responses ==>
          s.queue == [] && !done && k > 0 && s.responses[INVALID_ID] == u0[k - 1]
          && IsResponse(u0[k - 1]) && u0[k - 1].id == INVALID_ID)
    && (!done ==> forall i :: 0 <= i < k - 1 ==> !Stops(u0[i]))
    && (!done && k > 0 && Stops(u0[k - 1]) ==> INVALID_ID in s.responses)
    && (done ==> s.queue == [] && k == ReadCount(u0))
  }

  ghost predicate Progress(s0: State, u0: seq<Packet>, before: seq<Packet>, k: nat,
                           s: State, handled: seq<Packet>, done: bool)
    requires k <= |u0|
  {
    HandledSoFar(before, u0, k, s, handled) && StoredSoFar(s0, u0, k, s) && Position(u0, k, s, done)
  }

  /** Draining after the first critical section and the handling of what it took. */
  lemma PassProgress(s0: State, u0: seq<Packet>, before: seq<Packet>, k: nat, s: State, handled: seq<Packet>, t: Thread)
    requires k <= |u0| && Progress(s0, u0, before, k, s, handled, false)
    ensures var (s1, r) := ReadPass(s, t, INVALID_ID, true, true);
            match r
            case TakeCall(p) => Progress(s0, u0, before, k, s1, handled + [p], false)
            case TakeResponse(p) => Progress(s0, u0, before, k, s1, handled + [p], p.id == INVALID_ID && IsReturn(p))
            case BecomeReader => s1 == s.(locked := Some(t)) && s.queue == [] && INVALID_ID !in s.responses
            case _ => false
  {
    if INVALID_ID in s.responses {
      assert Stops(u0[k - 1]) == IsReturn(u0[k - 1]);
      assert handled + s.queue + Zero(s.responses) == handled + [u0[k - 1]];
    } else if s.queue != [] {
      assert handled + s.queue + [] == (handled + [s.queue[0]]) + s.queue[1..] + [];
    }
  }

  /** Draining after the transport read and the second critical section. */
  lemma ReadProgress(s0: State, u0: seq<Packet>, before: seq<Packet>, k: nat, s: State, handled: seq<Packet>, got: Option<Packet>)
    requires k <= |u0| && s.locked.Some? && s.queue == [] && INVALID_ID !in s.responses
    requires Progress(s0, u0, before, k, s.(locked := None), handled, false)
    requires got == if k < |u0| then Some(u0[k]) else None
    ensures var s1 := StorePass(s, got);
            var k1 := if k < |u0| then k + 1 else k;
            Progress(s0, u0, before, k1, s1, handled, s1.queue == [] && !NewReturn(got))
  {
    if k < |u0| {
      assert u0[..k + 1] == u0[..k] + [u0[k]];
      ReadStored(s0, u0, k, s);
      ReadHandled(before, u0, k, s, handled);
    }
  }

  lemma ReadStored(s0: State, u0: seq<Packet>, k: nat, s: State)
    requires k < |u0| && INVALID_ID !in s.responses && u0[..k + 1] == u0[..k] + [u0[k]]
    requires StoredSoFar(s0, u0, k, s.(locked := None))
    ensures StoredSoFar(s0, u0, k + 1, StorePass(s, Some(u0[k])))
  {
    var s1 := StorePass(s, Some(u0[k]));
    HandledPush([], u0[..k], u0[k]);
    assert s.responses == s.responses - {INVALID_ID};
    if IsResponse(u0[k]) && u0[k].id == INVALID_ID {
      assert s1.responses - {INVALID_ID} == s.responses;
    } else {
      assert s1.responses - {INVALID_ID} == s1.responses;
    }
  }

  lemma ReadHandled(before: seq<Packet>, u0: seq<Packet>, k: nat, s: State, handled: seq<Packet>)
    requires k < |u0| && s.queue == [] && INVALID_ID !in s.responses && u0[..k + 1] == u0[..k] + [u0[k]]
    requires HandledSoFar(before, u0, k, s, handled)
    ensures HandledSoFar(before, u0, k + 1, StorePass(s, Some(u0[k])), handled)
  {
    var s1 := StorePass(s, Some(u0[k]));
    HandledPush(before, u0[..k], u0[k]);
    assert handled == handled + [] + [];
    if Handled(u0[k]) {
      assert handled + s1.queue + Zero(s1.responses) == handled + [u0[k]];
    } else {
      assert s1.queue == [] && Zero(s1.responses) == [];
    }
  }

  lemma HandledPush(before: seq<Packet>, s: seq<Packet>, p: Packet)
    ensures before + HandledOf(s + [p]) == (before + HandledOf(s)) + if Handled(p) then [p] else []
    ensures forall m :: Stored(m, s + [p]) == if IsResponse(p) && p.id != INVALID_ID then Insert(Stored(m, s), p) else Stored(m, s)
  {
    assert (s + [p])[..|s|] == s;
  }

  /** On a stream of packets with defined types and nonzero ids one call reads
      everything and dispatches exactly the calls: the subsequence of calls, in
      arrival order. */
  lemma {:induction false} HealthyStream(u: seq<Packet>)
    requires forall p :: p in u ==> p.ptype != PT_UNDEFINED && p.id != INVALID_ID
    ensures ReadCount(u) == |u|
    ensures forall p :: p in HandledOf(u) <==> p in u && IsCall(p)
    ensures forall p :: multiset(HandledOf(u))[p] == if IsCall(p) then multiset(u)[p] else 0
  {
    if u != [] {
      var v := u[..|u| - 1];
      assert u == v + [u[|u| - 1]];
      HealthyStream(v);
    }
  }

  /** A response is stored under exactly the ids that one arrived for. */
  lemma {:induction false} StoredIds(u: seq<Packet>, m: map<u32, Packet>, k: u32)
    requires k != INVALID_ID
    ensures k in Stored(m, u) <==> k in m || exists i :: 0 <= i < |u| && IsResponse(u[i]) && u[i].id == k
  {
    if k in m {
      StoredKeeps(m, u);
    } else if k in Stored(m, u) {
      StoredFrom(m, u, k);
    } else if i :| 0 <= i < |u| && IsResponse(u[i]) && u[i].id == k {
      StoredBy(m, u, i);
    }
  }

  lemma {:induction false} StoredBy(m: map<u32, Packet>, s: seq<Packet>, i: nat)
    requires i < |s| && IsResponse(s[i]) && s[i].id != INVALID_ID
    ensures s[i].id in Stored(m, s)
  {
    if i < |s| - 1 {
      StoredBy(m, s[..|s| - 1], i);
    }
  }

  /** The first response with an id wins; a later one with the same id changes nothing. */
  lemma {:induction false} FirstResponseWins(m: map<u32, Packet>, s: seq<Packet>, i: nat)
    requires i < |s| && IsResponse(s[i]) && s[i].id != INVALID_ID
    requires s[i].id !in m
    requires forall j :: 0 <= j < i && IsResponse(s[j]) ==> s[j].id != s[i].id
    ensures s[i].id in Stored(m, s) && Stored(m, s)[s[i].id] == s[i]
    ensures forall k :: k in m ==> k in Stored(m, s) && Stored(m, s)[k] == m[k]
  {
    var v := s[..|s| - 1];
    if i < |v| {
      FirstResponseWins(m, v, i);
    } else {
      StoredKeeps(m, v);
      if s[i].id in Stored(m, v) {
        StoredFrom(m, v, s[i].id);
        assert false;
      }
    }
  }

  lemma {:induction false} StoredKeeps(m: map<u32, Packet>, s: seq<Packet>)
    ensures forall k :: k in m ==> k in Stored(m, s) && Stored(m, s)[k] == m[k]
  {
    if s != [] {
      StoredKeeps(m, s[..|s| - 1]);
    }
  }

  lemma {:induction false} StoredFrom(m: map<u32, Packet>, s: seq<Packet>, k: u32)
    requires k in Stored(m, s) && k !in m
    ensures exists i :: 0 <= i < |s| && IsResponse(s[i]) && s[i].id == k
  {
    var v := s[..|s| - 1];
    if s != [] && k in Stored(m, v) {
      StoredFrom(m, v, k);
      var i :| 0 <= i < |v| && IsResponse(v[i]) && v[i].id == k;
      assert s[i] == v[i];
    } else if s != [] {
      assert IsResponse(s[|s| - 1]) && s[|s| - 1].id == k;
    }
  }
}
