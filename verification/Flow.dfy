/** Where packets with one id are inside an endpoint, and how each action moves
    them. The balances hold whatever the transport delivers. */
module Flow {
  import opened Prelude
  import opened Packets
  import opened CallIds
  import opened Pending
  import opened Endpoint

  function CallId(k: u32): Packet -> bool {
    (p: Packet) => IsCall(p) && p.id == k
  }

  function RespId(k: u32): Packet -> bool {
    (p: Packet) => IsResponse(p) && p.id == k
  }

  function AnswerId(k: u32): Answer -> bool {
    (a: Answer) => a.call.id == k
  }

  /** A request whose id is taken and which is not yet written. */
  function ActUnsent(k: u32): Activation -> bool {
    (f: Activation) => f.Sending? && f.out.id == k
  }

  /** The packet that an activation holds for handling, storing or returning. */
  function Held(f: Activation): Option<Packet> {
    match f
    case Loop(_, _, _, Received(_, got)) => got
    case Loop(_, _, _, Dispatching(p)) => Some(p)
    case Loop(_, _, _, Returned(result)) => result
    case Job(_, c) => Some(c)
    case _ => None
  }

  function ActCall(k: u32): Activation -> bool {
    (f: Activation) => Held(f).Some? && IsCall(Held(f).value) && Held(f).value.id == k
  }

  function ActResp(k: u32): Activation -> bool {
    (f: Activation) => Held(f).Some? && IsResponse(Held(f).value) && Held(f).value.id == k
  }

  function IssuedCount(e: Endpoint, k: u32): nat { Count(e.log.issued, CallId(k)) }
  function Unsent(e: Endpoint, k: u32): nat { Count(e.acts, ActUnsent(k)) }

  /** Calls of the peer that are queued, executing, or posted to another thread. */
  function CallsHeld(e: Endpoint, k: u32): nat {
    Count(e.acts, ActCall(k)) + Count(e.pend.queue, CallId(k)) + Count(e.jobs, CallId(k))
  }

  function Answered(e: Endpoint, k: u32): nat { Count(e.log.answers, AnswerId(k)) }
  function Silent(e: Endpoint, k: u32): nat { Count(e.log.silent, CallId(k)) }
  function ResultsPosted(e: Endpoint, k: u32): nat { Count(e.jobs, RespId(k)) }

  /** Responses that were received, are stored, or were given to a waiter. */
  function RespHeld(e: Endpoint, k: u32): nat {
    Count(e.acts, ActResp(k)) + if k in e.pend.responses then 1 else 0
  }

  function Lost(e: Endpoint, k: u32): nat {
    Count(e.log.dropped, RespId(k)) + Count(e.log.ignored, RespId(k))
  }

  // ----- How the activations change ------------------------------------------

  /** The activation that an action replaces, and what replaces it. A new
      activation replaces nothing. */
  ghost function OldAct(e: Endpoint, a: Action): Activation
    requires Enabled(e, a)
  {
    match a
    case Issue(_, _, _, _, _) => Gone(0)
    case Enter(_) => Gone(0)
    case StartJob(_, _) => Gone(0)
    case SendResult(_) => Gone(0)
    case _ => e.acts[a.i]
  }

  ghost function NewAct(e: Endpoint, a: Action): Activation
    requires Enabled(e, a)
  {
    match a
    case Issue(_, _, _, _, _) => Next(e, a).acts[|e.acts|]
    case Enter(_) => Next(e, a).acts[|e.acts|]
    case StartJob(_, _) => Next(e, a).acts[|e.acts|]
    case SendResult(_) => Gone(0)
    case _ => Next(e, a).acts[a.i]
  }

  lemma {:induction false} CountNotify(fs: seq<Activation>, p: Activation -> bool)
    requires forall f :: p(Wake(f)) == p(f)
    ensures Count(NotifyAll(fs), p) == Count(fs, p)
  {
    if fs != [] {
      CountNotify(fs[..|fs| - 1], p);
      CountPush(NotifyAll(fs[..|fs| - 1]), Wake(fs[|fs| - 1]), p);
    }
  }

  lemma CountActs(e: Endpoint, a: Action, p: Activation -> bool)
    requires Enabled(e, a)
    requires forall f :: p(Wake(f)) == p(f)
    requires forall t :: !p(Gone(t))
    ensures Count(Next(e, a).acts, p) + (if p(OldAct(e, a)) then 1 else 0)
            == Count(e.acts, p) + if p(NewAct(e, a)) then 1 else 0
  {
    hide Count;
    var e1 := Next(e, a);
    var f := NewAct(e, a);
    match a {
      case Issue(_, _, _, _, _) => CountPush(e.acts, f, p);
      case Enter(_) => CountPush(e.acts, f, p);
      case StartJob(_, _) => CountPush(e.acts, f, p);
      case SendResult(_) =>
      case Store(i) => StoreActs(e, i, p);
      case Pass(i) => PassActs(e, i); CountUpdate(e.acts, i, f, p);
      case _ => PutActs(e, a); CountUpdate(e.acts, a.i, f, p);
    }
  }

  lemma StoreActs(e: Endpoint, i: nat, p: Activation -> bool)
    requires Enabled(e, Store(i)) && forall f :: p(Wake(f)) == p(f)
    ensures Count(NextStore(e, i).acts, p) + (if p(e.acts[i]) then 1 else 0)
            == Count(e.acts, p) + if p(NextStore(e, i).acts[i]) then 1 else 0
  {
    CountNotify(e.acts, p);
    CountUpdate(NotifyAll(e.acts), i, NextStore(e, i).acts[i], p);
  }

  lemma PassActs(e: Endpoint, i: nat)
    requires Enabled(e, Pass(i))
    ensures NextPass(e, i).acts == e.acts[i := NextPass(e, i).acts[i]]
  {
  }

  lemma PutActs(e: Endpoint, a: Action)
    requires Enabled(e, a)
    requires a.Send? || a.WakeUp? || a.Receive? || a.Finish? || a.Post? || a.FinishJob?
    ensures Next(e, a).acts == e.acts[a.i := NewAct(e, a)]
  {
  }

  // ----- The balances -----------------------------------------------------------

  function One(b: bool): nat {
    if b then 1 else 0
  }

  /** The call that an action finishes handling. */
  function Handles(e: Endpoint, a: Action): Option<Packet> {
    if a.Finish? && a.i < |e.acts| && e.acts[a.i].Loop? && e.acts[a.i].pc.Dispatching? && IsCall(e.acts[a.i].pc.p) then
      Some(e.acts[a.i].pc.p)
    else if a.FinishJob? && a.i < |e.acts| && e.acts[a.i].Job? then Some(e.acts[a.i].call)
    else None
  }

  /** The response that an action produces, if it produces one. */
  function Replies(e: Endpoint, a: Action): Option<Packet> {
    if Handles(e, a).Some? && MustAnswer(Handles(e, a).value) then
      Some(a.reply)
    else None
  }

  predicate Posts(a: Action) {
    (a.Finish? && a.posted) || (a.FinishJob? && a.posted)
  }

  /** What an action writes is a request, a response just produced, or a posted one. */
  lemma OutputIs(e: Endpoint, a: Action)
    requires ContentInv(e) && Enabled(e, a)
    ensures Output(e, a) ==
              if a.Send? then [e.acts[a.i].out]
              else if a.SendResult? then [e.jobs[a.j]]
              else if Replies(e, a).Some? && !Posts(a) then [Replies(e, a).value]
              else []
    ensures Replies(e, a).Some? ==> Answers(Handles(e, a).value, Replies(e, a).value)
    ensures Handles(e, a).Some? ==> IsCall(Handles(e, a).value)
    ensures a.Send? ==> IsCall(e.acts[a.i].out)
  {
    if a.Send? || a.FinishJob? {
      assert HeldOk(e.acts[a.i]);
    }
  }

  lemma OutputCounts(e: Endpoint, a: Action, k: u32)
    requires ContentInv(e) && Enabled(e, a)
    ensures Count(Output(e, a), CallId(k)) == One(a.Send? && e.acts[a.i].out.id == k)
    ensures Count(Output(e, a), RespId(k)) == One(a.SendResult? && e.jobs[a.j].id == k)
                                              + One(Replies(e, a).Some? && !Posts(a) && Handles(e, a).value.id == k)
  {
    OutputIs(e, a);
    var o := Output(e, a);
    if o != [] {
      CountOne(o[0], CallId(k));
      CountOne(o[0], RespId(k));
    }
  }

  /** How an action changes the log, apart from arrivals. */
  lemma LogIs(e: Endpoint, a: Action)
    requires ContentInv(e) && Enabled(e, a)
    ensures var l, l1 := e.log, Next(e, a).log;
            && l1.issued == (if a.Issue? then l.issued + [NewAct(e, a).out] else l.issued)
            && l1.answers == (if Replies(e, a).Some? then l.answers + [Answer(Handles(e, a).value, Replies(e, a).value)] else l.answers)
            && l1.silent == (if Handles(e, a).Some? && Replies(e, a).None? then l.silent + [Handles(e, a).value] else l.silent)
  {
  }

  lemma LogCounts(e: Endpoint, a: Action, k: u32)
    requires ContentInv(e) && Enabled(e, a)
    ensures IssuedCount(Next(e, a), k) == IssuedCount(e, k) + One(a.Issue? && NewAct(e, a).out.id == k)
    ensures Answered(Next(e, a), k) == Answered(e, k) + One(Replies(e, a).Some? && Handles(e, a).value.id == k)
    ensures Silent(Next(e, a), k) == Silent(e, k) + One(Handles(e, a).Some? && Replies(e, a).None? && Handles(e, a).value.id == k)
  {
    LogIs(e, a);
    OutputIs(e, a);
    if a.Issue? {
      CountPush(e.log.issued, NewAct(e, a).out, CallId(k));
    }
    if Handles(e, a).Some? {
      var c := Handles(e, a).value;
      if Replies(e, a).Some? {
        CountPush(e.log.answers, Answer(c, Replies(e, a).value), AnswerId(k));
      } else {
        CountPush(e.log.silent, c, CallId(k));
      }
    }
  }

  /** A request leaves "issued, not sent" exactly when it is written. */
  lemma SendBalance(e: Endpoint, a: Action, k: u32)
    requires ContentInv(e) && Enabled(e, a)
    ensures IssuedCount(Next(e, a), k) + Unsent(e, k)
            == IssuedCount(e, k) + Unsent(Next(e, a), k) + Count(Output(e, a), CallId(k))
  {
    hide ContentInv, Count, HeldOk;
    CountActs(e, a, ActUnsent(k));
    OutputCounts(e, a, k);
    LogCounts(e, a, k);
  }

  /** How an action changes the posted jobs. */
  lemma JobsAre(e: Endpoint, a: Action)
    requires ContentInv(e) && Enabled(e, a)
    ensures Next(e, a).jobs ==
              if a.StartJob? || a.SendResult? then Without(e.jobs, a.j)
              else if a.Post? then e.jobs + [e.acts[a.i].pc.p]
              else if Replies(e, a).Some? && Posts(a) then e.jobs + [Replies(e, a).value]
              else e.jobs
  {
  }

  lemma JobCounts(e: Endpoint, a: Action, k: u32)
    requires ContentInv(e) && Enabled(e, a)
    ensures Count(Next(e, a).jobs, CallId(k)) + One(a.StartJob? && e.jobs[a.j].id == k)
            == Count(e.jobs, CallId(k)) + One(a.Post? && e.acts[a.i].pc.p.id == k)
    ensures ResultsPosted(Next(e, a), k) + One(a.SendResult? && e.jobs[a.j].id == k)
            == ResultsPosted(e, k) + One(Replies(e, a).Some? && Posts(a) && Handles(e, a).value.id == k)
  {
    JobsAre(e, a);
    OutputIs(e, a);
    if a.StartJob? || a.SendResult? {
      CountWithout(e.jobs, a.j, CallId(k));
      CountWithout(e.jobs, a.j, RespId(k));
    } else if a.Post? {
      CountPush(e.jobs, e.acts[a.i].pc.p, CallId(k));
      CountPush(e.jobs, e.acts[a.i].pc.p, RespId(k));
    } else if Replies(e, a).Some? && Posts(a) {
      CountPush(e.jobs, Replies(e, a).value, CallId(k));
      CountPush(e.jobs, Replies(e, a).value, RespId(k));
    }
  }

  /** A response that was produced is posted or written. */
  lemma ReplyBalance(e: Endpoint, a: Action, k: u32)
    requires ContentInv(e) && Enabled(e, a)
    ensures Answered(Next(e, a), k) + ResultsPosted(e, k)
            == Answered(e, k) + ResultsPosted(Next(e, a), k) + Count(Output(e, a), RespId(k))
  {
    OutputCounts(e, a, k);
    LogCounts(e, a, k);
    JobCounts(e, a, k);
  }

  function HoldsCall(f: Activation, k: u32): nat {
    One(ActCall(k)(f))
  }

  function HoldsResp(f: Activation, k: u32): nat {
    One(ActResp(k)(f))
  }

  lemma InputCounts(a: Action, k: u32)
    ensures Count(Input(a), CallId(k)) == One(a.Receive? && a.got.Some? && IsCall(a.got.value) && a.got.value.id == k)
    ensures Count(Input(a), RespId(k)) == One(a.Receive? && a.got.Some? && IsResponse(a.got.value) && a.got.value.id == k)
  {
    if a.Receive? && a.got.Some? {
      CountOne(a.got.value, CallId(k));
      CountOne(a.got.value, RespId(k));
    }
  }

  lemma PassTakes(e: Endpoint, i: nat)
    requires Enabled(e, Pass(i))
    ensures var f := e.acts[i];
            var (s, r) := ReadPass(e.pend, f.thread, f.wait, f.process, f.pc.Top?);
            && NextPass(e, i).pend == s
            && Held(NextPass(e, i).acts[i]) == (if r.TakeCall? || r.TakeResponse? then Some(r.p) else None)
            && Held(f) == None
            && NextPass(e, i).log.dropped == e.log.dropped && NextPass(e, i).log.ignored == e.log.ignored
  {
  }

  lemma ReadMovesCall(s: State, t: Thread, wait: u32, process: bool, entering: bool, k: u32)
    requires forall p :: p in s.queue ==> IsCall(p)
    requires forall j :: j in s.responses ==> IsResponse(s.responses[j])
    ensures var (s1, r) := ReadPass(s, t, wait, process, entering);
            Count(s1.queue, CallId(k)) + (if r.TakeCall? || r.TakeResponse? then One(CallId(k)(r.p)) else 0)
            == Count(s.queue, CallId(k))
  {
    var (s1, r) := ReadPass(s, t, wait, process, entering);
    if r.TakeCall? {
      CountTail(s.queue, CallId(k));
    }
  }

  lemma ReadMovesResp(s: State, t: Thread, wait: u32, process: bool, entering: bool, k: u32)
    requires forall p :: p in s.queue ==> IsCall(p)
    requires forall j :: j in s.responses ==> IsResponse(s.responses[j]) && s.responses[j].id == j
    ensures var (s1, r) := ReadPass(s, t, wait, process, entering);
            One(k in s1.responses) + (if r.TakeCall? || r.TakeResponse? then One(RespId(k)(r.p)) else 0)
            == One(k in s.responses)
  {
    if s.queue != [] {
      assert s.queue[0] in s.queue;
    }
  }

  /** What a first critical section takes, its activation holds. */
  lemma PassMoves(e: Endpoint, i: nat, k: u32)
    requires ContentInv(e) && Enabled(e, Pass(i))
    ensures Count(NextPass(e, i).pend.queue, CallId(k)) + HoldsCall(NextPass(e, i).acts[i], k) == Count(e.pend.queue, CallId(k))
    ensures One(k in NextPass(e, i).pend.responses) + HoldsResp(NextPass(e, i).acts[i], k) == One(k in e.pend.responses)
    ensures HoldsCall(e.acts[i], k) == 0 && HoldsResp(e.acts[i], k) == 0
    ensures NextPass(e, i).log.dropped == e.log.dropped && NextPass(e, i).log.ignored == e.log.ignored
  {
    var f := e.acts[i];
    PassTakes(e, i);
    ReadMovesCall(e.pend, f.thread, f.wait, f.process, f.pc.Top?, k);
    ReadMovesResp(e.pend, f.thread, f.wait, f.process, f.pc.Top?, k);
  }

  lemma StoreMovesCall(s: State, q: Packet, k: u32)
    ensures Count(StorePass(s, Some(q)).queue, CallId(k)) == Count(s.queue, CallId(k)) + One(CallId(k)(q))
  {
    CountPush(s.queue, q, CallId(k));
  }

  lemma StoreMovesResp(log: Log, s: State, q: Packet, k: u32)
    ensures One(k in StorePass(s, Some(q)).responses) + Count(LogArrival(log, s, Some(q)).dropped, RespId(k))
            == One(k in s.responses) + Count(log.dropped, RespId(k)) + One(RespId(k)(q))
  {
    if IsResponse(q) && q.id in s.responses {
      CountPush(log.dropped, q, RespId(k));
    }
  }

  /** What a second critical section got, it stores, unless the id is already stored. */
  lemma StoreMoves(e: Endpoint, i: nat, k: u32)
    requires ContentInv(e) && Enabled(e, Store(i))
    ensures Count(NextStore(e, i).pend.queue, CallId(k)) == Count(e.pend.queue, CallId(k)) + HoldsCall(e.acts[i], k)
    ensures One(k in NextStore(e, i).pend.responses) + Count(NextStore(e, i).log.dropped, RespId(k))
            == One(k in e.pend.responses) + Count(e.log.dropped, RespId(k)) + HoldsResp(e.acts[i], k)
    ensures HoldsCall(NextStore(e, i).acts[i], k) == 0 && HoldsResp(NextStore(e, i).acts[i], k) == 0
    ensures NextStore(e, i).log.ignored == e.log.ignored
  {
    var got := e.acts[i].pc.got;
    assert Held(e.acts[i]) == got && Held(NextStore(e, i).acts[i]) == None;
    if got.Some? {
      StoreMovesCall(e.pend, got.value, k);
      StoreMovesResp(e.log, e.pend, got.value, k);
    }
  }

  /** The two critical sections are the only actions that touch the shared queue and map. */
  lemma PendingKept(e: Endpoint, a: Action)
    requires Enabled(e, a) && !a.Pass? && !a.Store?
    ensures Next(e, a).pend.queue == e.pend.queue && Next(e, a).pend.responses == e.pend.responses
    ensures Next(e, a).log.dropped == e.log.dropped
  {
  }

  lemma HeldIs(e: Endpoint, a: Action)
    requires ContentInv(e) && Enabled(e, a) && !a.Pass? && !a.Store?
    ensures Held(OldAct(e, a)) == if a.Finish? || a.Post? then Some(e.acts[a.i].pc.p)
                                  else if a.FinishJob? then Some(e.acts[a.i].call)
                                  else None
    ensures Held(NewAct(e, a)) == if a.Receive? then a.got
                                  else if a.StartJob? then Some(e.jobs[a.j])
                                  else if a.Finish? && NewAct(e, a).pc.Returned? then Some(e.acts[a.i].pc.p)
                                  else None
    ensures a.Finish? ==> NewAct(e, a).Loop? && (NewAct(e, a).pc.Returned? ==> IsReturn(e.acts[a.i].pc.p))
    ensures a.Finish? ==> e.acts[a.i].pc.p.ptype != PT_UNDEFINED
    ensures a.FinishJob? ==> IsCall(e.acts[a.i].call)
    ensures Next(e, a).log.ignored == if a.Finish? && Handles(e, a).None? && !NewAct(e, a).pc.Returned?
                                      then e.log.ignored + [e.acts[a.i].pc.p] else e.log.ignored
  {
    if a.Finish? || a.FinishJob? {
      assert HeldOk(e.acts[a.i]);
    }
  }

  /** What the activation holds before and after any other action. */
  lemma HeldMoves(e: Endpoint, a: Action, k: u32)
    requires ContentInv(e) && Enabled(e, a) && !a.Pass? && !a.Store?
    ensures HoldsCall(NewAct(e, a), k) + One(a.Post? && e.acts[a.i].pc.p.id == k) + One(Handles(e, a).Some? && Handles(e, a).value.id == k)
            == HoldsCall(OldAct(e, a), k) + One(a.StartJob? && e.jobs[a.j].id == k) + Count(Input(a), CallId(k))
    ensures HoldsResp(NewAct(e, a), k) + Count(Next(e, a).log.ignored, RespId(k))
            == HoldsResp(OldAct(e, a), k) + Count(e.log.ignored, RespId(k)) + Count(Input(a), RespId(k))
  {
    InputCounts(a, k);
    HeldIs(e, a);
    if a.Finish? && Handles(e, a).None? && !NewAct(e, a).pc.Returned? {
      CountPush(e.log.ignored, e.acts[a.i].pc.p, RespId(k));
    }
  }

  lemma CallBalancePass(e: Endpoint, a: Action, k: u32)
    requires ContentInv(e) && Enabled(e, a) && a.Pass?
    ensures CallsHeld(Next(e, a), k) + Answered(Next(e, a), k) + Silent(Next(e, a), k)
            == CallsHeld(e, k) + Answered(e, k) + Silent(e, k) + Count(Input(a), CallId(k))
  {
    hide ContentInv, Count;
    CountActs(e, a, ActCall(k));
    LogCounts(e, a, k);
    JobCounts(e, a, k);
    InputCounts(a, k);
    PassMoves(e, a.i, k);
  }

  lemma CallBalanceStore(e: Endpoint, a: Action, k: u32)
    requires ContentInv(e) && Enabled(e, a) && a.Store?
    ensures CallsHeld(Next(e, a), k) + Answered(Next(e, a), k) + Silent(Next(e, a), k)
            == CallsHeld(e, k) + Answered(e, k) + Silent(e, k) + Count(Input(a), CallId(k))
  {
    hide ContentInv, Count;
    CountActs(e, a, ActCall(k));
    LogCounts(e, a, k);
    JobCounts(e, a, k);
    InputCounts(a, k);
    StoreMoves(e, a.i, k);
  }

  /** Every call that arrives is held until it has been handled. */
  lemma CallBalance(e: Endpoint, a: Action, k: u32)
    requires ContentInv(e) && Enabled(e, a)
    ensures CallsHeld(Next(e, a), k) + Answered(Next(e, a), k) + Silent(Next(e, a), k)
            == CallsHeld(e, k) + Answered(e, k) + Silent(e, k) + Count(Input(a), CallId(k))
  {
    hide ContentInv, Count;
    if a.Pass? {
      CallBalancePass(e, a, k);
    } else if a.Store? {
      CallBalanceStore(e, a, k);
    } else {
      CountActs(e, a, ActCall(k));
      LogCounts(e, a, k);
      JobCounts(e, a, k);
      InputCounts(a, k);
      HeldMoves(e, a, k);
      PendingKept(e, a);
    }
  }

  /** Every response that arrives is held, given to its waiter, or lost: dropped
      because the id was stored, or ignored because of its type. */
  lemma RespBalance(e: Endpoint, a: Action, k: u32)
    requires ContentInv(e) && Enabled(e, a)
    ensures RespHeld(Next(e, a), k) + Lost(Next(e, a), k)
            == RespHeld(e, k) + Lost(e, k) + Count(Input(a), RespId(k))
  {
    CountActs(e, a, ActResp(k));
    InputCounts(a, k);
    if a.Pass? {
      PassMoves(e, a.i, k);
    } else if a.Store? {
      StoreMoves(e, a.i, k);
    } else {
      HeldMoves(e, a, k);
      PendingKept(e, a);
    }
  }

  /** Over a whole run and for every id: each call that the transport delivered is held
      or was handled, and each response is held, was given to its waiter, or was lost. */
  lemma {:induction false} DeliveredBalance(es: seq<Endpoint>, run: seq<Action>, n: nat, k: u32)
    requires IsRun(es, run) && n < |es|
    ensures Count(Delivered(run[..n]), CallId(k)) == CallsHeld(es[n], k) + Answered(es[n], k) + Silent(es[n], k)
    ensures Count(Delivered(run[..n]), RespId(k)) == RespHeld(es[n], k) + Lost(es[n], k)
  {
    hide Next, Enabled, Inv, Input, Count, CallsHeld, Answered, Silent, RespHeld, Lost;
    if n == 0 {
      NothingYet(k);
    } else {
      var e, a := es[n - 1], run[n - 1];
      DeliveredBalance(es, run, n - 1, k);
      InvAlways(es, run, n - 1);
      InvHasContent(e);
      CallBalance(e, a, k);
      RespBalance(e, a, k);
      assert run[..n][..n - 1] == run[..n - 1];
      CountAppend(Delivered(run[..n - 1]), Input(a), CallId(k));
      CountAppend(Delivered(run[..n - 1]), Input(a), RespId(k));
    }
  }

  lemma NothingYet(k: u32)
    ensures Count([], CallId(k)) == CallsHeld(INITIAL, k) + Answered(INITIAL, k) + Silent(INITIAL, k)
    ensures Count([], RespId(k)) == RespHeld(INITIAL, k) + Lost(INITIAL, k)
  {
  }

  // ----- Who waits ------------------------------------------------------------

  function WantId(k: u32): Packet -> bool {
    (p: Packet) => p.wantsReturn && p.id == k
  }

  /** An activation that will wait, waits, or has waited for the response `k`. */
  function ActAsks(k: u32): Activation -> bool {
    (f: Activation) => (f.Sending? && f.out.wantsReturn && f.out.id == k) || (f.Loop? && f.wait == k)
  }

  /** Every request that wants a response has one activation for it, from the
      allocation of its id on. */
  lemma AskBalance(e: Endpoint, a: Action, k: u32)
    requires Enabled(e, a) && k != INVALID_ID
    ensures Count(Next(e, a).log.issued, WantId(k)) + Count(e.acts, ActAsks(k))
            == Count(e.log.issued, WantId(k)) + Count(Next(e, a).acts, ActAsks(k))
  {
    CountActs(e, a, ActAsks(k));
    if a.Issue? {
      CountPush(e.log.issued, NewAct(e, a).out, WantId(k));
    } else {
      IssuedKept(e, a);
      AsksKept(e, a, k);
    }
  }

  lemma IssuedKept(e: Endpoint, a: Action)
    requires Enabled(e, a) && !a.Issue?
    ensures Next(e, a).log.issued == e.log.issued
  {
  }

  lemma AsksKept(e: Endpoint, a: Action, k: u32)
    requires Enabled(e, a) && !a.Issue? && k != INVALID_ID
    ensures ActAsks(k)(NewAct(e, a)) == ActAsks(k)(OldAct(e, a))
  {
  }

  ghost predicate AskInv(e: Endpoint) {
    forall k: u32 :: k != INVALID_ID ==> Count(e.log.issued, WantId(k)) == Count(e.acts, ActAsks(k))
  }

  lemma AskStep(e: Endpoint, a: Action)
    requires AskInv(e) && Enabled(e, a)
    ensures AskInv(Next(e, a))
  {
    forall k: u32 | k != INVALID_ID
      ensures Count(Next(e, a).log.issued, WantId(k)) == Count(Next(e, a).acts, ActAsks(k))
    {
      AskBalance(e, a, k);
    }
  }

  // ----- Ids ---------------------------------------------------------------------

  /** While the counter has not gone round, the issued ids are distinct, and the
      counter says how far allocation has come. */
  ghost predicate IdInv(e: Endpoint) {
    e.log.advances <= ID_COUNT ==>
      && e.pend.counter == (if e.log.advances == 0 || e.log.advances == ID_COUNT then 0 else e.log.advances + 1)
      && (forall p :: p in e.log.issued ==> 1 <= p.id <= e.log.advances && IsCall(p))
      && (forall k: u32 :: IssuedCount(e, k) <= 1)
  }

  lemma FirstLap(n: nat, j: nat)
    requires n + j < ID_COUNT
    ensures Candidate(if n == 0 then 0 else n + 1, j) == n + j + 1
  {
  }

  lemma IssueIds(e: Endpoint, a: Action)
    requires IdInv(e) && Enabled(e, a) && a.Issue?
    ensures IdInv(Next(e, a))
  {
    var e1 := Next(e, a);
    var n, j := e.log.advances, Skips(e.pend.counter, e.pend.responses.Keys);
    var p := NewAct(e, a).out;
    assert e1.log.issued == e.log.issued + [p] && e1.log.advances == n + j + 1;
    if n + j + 1 <= ID_COUNT {
      FirstLap(n, j);
      assert p.id == n + j + 1;
      forall k: u32
        ensures IssuedCount(e1, k) <= 1
      {
        CountPush(e.log.issued, p, CallId(k));
        assert IssuedCount(e, k) <= 1;
        if k == p.id {
          CountNone(e.log.issued, CallId(k));
        }
      }
    }
  }

  lemma IdStep(e: Endpoint, a: Action)
    requires IdInv(e) && Enabled(e, a)
    ensures IdInv(Next(e, a))
  {
    if a.Issue? {
      IssueIds(e, a);
    } else {
      IssuedKept(e, a);
      CounterKept(e, a);
      forall k: u32
        ensures e.log.advances <= ID_COUNT ==> IssuedCount(Next(e, a), k) <= 1
      {
        assert IssuedCount(Next(e, a), k) == IssuedCount(e, k);
      }
    }
  }

  lemma CounterKept(e: Endpoint, a: Action)
    requires Enabled(e, a) && !a.Issue?
    ensures Next(e, a).pend.counter == e.pend.counter && Next(e, a).log.advances == e.log.advances
  {
  }
}
