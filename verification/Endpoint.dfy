/** One endpoint of the multiplexer as a transition system. Many threads share it.
    A thread owns a stack of activations, because a handler, a posted job or the
    transport itself may call back in. One action is one critical section, one
    transport read or write, or the run of one handler. */
module Endpoint {
  import opened Prelude
  import opened Packets
  import opened CallIds
  import opened Pending

  /** Where an activation of `ProcessTransportResponse` is. */
  datatype Pc =
    | Top                                          // before the first critical section
    | Asleep                                       // waits on the condition
    | Woken                                        // notified, competes for the lock
    | Reading                                      // inside the transport read
    | Received(ok: bool, got: Option<Packet>)      // the read returned, nothing stored yet
    | Dispatching(p: Packet)                       // inside ProcessBuffer
    | Returned(result: Option<Packet>)

  datatype Activation =
    | Sending(thread: Thread, out: Packet, process: bool)     // id taken, packet not yet written
    | Loop(thread: Thread, wait: u32, process: bool, pc: Pc)
    | Job(thread: Thread, call: Packet)                       // a posted call runs here
    | Gone(thread: Thread)

  /** A handled call and the response that was produced for it. */
  datatype Answer = Answer(call: Packet, reply: Packet)

  /** What happened so far; nothing in the endpoint reads it. */
  datatype Log = Log(
    issued: seq<Packet>,      // request packets, in the order their ids were taken
    advances: nat,            // ids issued plus ids skipped
    arrived: seq<Packet>,     // packets of defined type, in the order they were stored
    calls: seq<Packet>,       // calls taken from the queue
    taken: seq<Packet>,       // responses taken from the map
    dropped: seq<Packet>,     // responses whose id was already stored
    ignored: seq<Packet>,     // responses taken that no waiter accepts
    answers: seq<Answer>,     // calls handled with a response
    silent: seq<Packet>)      // calls handled without one

  /** `acts` holds every activation ever started, in order; `jobs` holds what was
      posted to other threads: calls to run and responses to send. */
  datatype Endpoint = Endpoint(pend: State, acts: seq<Activation>, jobs: seq<Packet>, log: Log)

  const INITIAL := Endpoint(State(None, 0, map[], []), [], [], Log([], 0, [], [], [], [], [], [], []))

  predicate Live(f: Activation) {
    !f.Gone? && !(f.Loop? && f.pc.Returned?)
  }

  /** The innermost live activation of its thread: the one that is executing. */
  predicate IsTop(fs: seq<Activation>, i: nat) {
    i < |fs| && Live(fs[i]) && forall j :: i < j < |fs| && fs[j].thread == fs[i].thread ==> !Live(fs[j])
  }

  /** Code outside this component may be running inside the activation. */
  predicate RunsUserCode(f: Activation) {
    f.Job? || (f.Loop? && (f.pc.Reading? || f.pc.Dispatching?))
  }

  /** Thread `t` may call into the endpoint. */
  predicate MayCall(fs: seq<Activation>, t: Thread) {
    forall i :: 0 <= i < |fs| && fs[i].thread == t && Live(fs[i]) && !RunsUserCode(fs[i]) ==> !IsTop(fs, i)
  }

  datatype Action =
    | Issue(thread: Thread, ptype: u32, wantsReturn: bool, body: seq<int>, process: bool)
    | Enter(thread: Thread)                              // ProcessTransport is called
    | Send(i: nat)                                       // transport write of a request
    | Pass(i: nat)                                       // first critical section, or its continuation
    | WakeUp(i: nat)                                     // spurious wakeup
    | Receive(i: nat, ok: bool, got: Option<Packet>)     // the transport read returns
    | Store(i: nat)                                      // second critical section
    | Finish(i: nat, reply: Packet, posted: bool)        // ProcessBuffer ends
    | Post(i: nat)                                       // the call goes to another thread
    | StartJob(thread: Thread, j: nat)
    | FinishJob(i: nat, reply: Packet, posted: bool)
    | SendResult(j: nat)                                 // a posted response is written

  predicate ReplyFits(c: Packet, reply: Packet) {
    IsCall(c) && MustAnswer(c) ==> Answers(c, reply)
  }

  ghost predicate Enabled(e: Endpoint, a: Action) {
    match a
    case Issue(t, ptype, wants, body, process) =>
      MayCall(e.acts, t) && HasFree(e.pend.responses.Keys)
      && (ptype == PT_CALL || (ptype == PT_ENUMERATE && wants && !process))
    case Enter(t) => MayCall(e.acts, t)
    case Send(i) => IsTop(e.acts, i) && e.acts[i].Sending?
    case Pass(i) => IsTop(e.acts, i) && e.acts[i].Loop? && (e.acts[i].pc.Top? || e.acts[i].pc.Woken?)
    case WakeUp(i) => IsTop(e.acts, i) && e.acts[i].Loop? && e.acts[i].pc.Asleep?
    case Receive(i, ok, got) => IsTop(e.acts, i) && e.acts[i].Loop? && e.acts[i].pc.Reading?
    case Store(i) => IsTop(e.acts, i) && e.acts[i].Loop? && e.acts[i].pc.Received?
    case Finish(i, reply, posted) =>
      IsTop(e.acts, i) && e.acts[i].Loop? && e.acts[i].pc.Dispatching? && ReplyFits(e.acts[i].pc.p, reply)
    case Post(i) =>
      IsTop(e.acts, i) && e.acts[i].Loop? && e.acts[i].pc.Dispatching? && e.acts[i].pc.p.ptype == PT_CALL
    case StartJob(t, j) => MayCall(e.acts, t) && j < |e.jobs| && IsCall(e.jobs[j])
    case FinishJob(i, reply, posted) => IsTop(e.acts, i) && e.acts[i].Job? && ReplyFits(e.acts[i].call, reply)
    case SendResult(j) => j < |e.jobs| && IsResponse(e.jobs[j])
  }

  /** `notify_all`: every sleeper competes for the lock again. */
  function Wake(f: Activation): Activation {
    if f.Loop? && f.pc.Asleep? then f.(pc := Woken) else f
  }

  function NotifyAll(fs: seq<Activation>): (r: seq<Activation>)
    ensures |r| == |fs| && forall i :: 0 <= i < |fs| ==> r[i] == Wake(fs[i])
  {
    if fs == [] then [] else NotifyAll(fs[..|fs| - 1]) + [Wake(fs[|fs| - 1])]
  }

  /** Record that the call `c` was handled; a posted response becomes a job. */
  function Handle(e: Endpoint, c: Packet, reply: Packet, posted: bool): Endpoint {
    if MustAnswer(c) then
      e.(jobs := if posted then e.jobs + [reply] else e.jobs,
         log := e.log.(answers := e.log.answers + [Answer(c, reply)]))
    else e.(log := e.log.(silent := e.log.silent + [c]))
  }

  function Put(e: Endpoint, i: nat, f: Activation): Endpoint
    requires i < |e.acts|
  {
    e.(acts := e.acts[i := f])
  }

  ghost function NextIssue(e: Endpoint, a: Action): Endpoint
    requires a.Issue? && Enabled(e, a)
  {
    var keys := e.pend.responses.Keys;
    var p := Packet(a.ptype, NewId(e.pend.counter, keys), a.wantsReturn, a.body);
    e.(pend := e.pend.(counter := NewCounter(e.pend.counter, keys)),
       acts := e.acts + [Sending(a.thread, p, a.process)],
       log := e.log.(issued := e.log.issued + [p], advances := e.log.advances + Skips(e.pend.counter, keys) + 1))
  }

  function NextPass(e: Endpoint, i: nat): Endpoint
    requires i < |e.acts| && e.acts[i].Loop?
  {
    var f := e.acts[i];
    var (s, r) := ReadPass(e.pend, f.thread, f.wait, f.process, f.pc.Top?);
    var e1 := e.(pend := s);
    match r
    case Reentrant => Put(e1, i, f.(pc := Returned(None)))
    case NotReader => Put(e1, i, f.(pc := Returned(None)))
    case Sleep => Put(e1, i, f.(pc := Asleep))
    case BecomeReader => Put(e1, i, f.(pc := Reading))
    case TakeCall(p) => Put(e1, i, f.(pc := Dispatching(p))).(log := e.log.(calls := e.log.calls + [p]))
    case TakeResponse(p) => Put(e1, i, f.(pc := Dispatching(p))).(log := e.log.(taken := e.log.taken + [p]))
  }

  function LogArrival(log: Log, s: State, got: Option<Packet>): Log {
    if got.None? || got.value.ptype == PT_UNDEFINED then log
    else
      var l := log.(arrived := log.arrived + [got.value]);
      if IsResponse(got.value) && got.value.id in s.responses then l.(dropped := l.dropped + [got.value]) else l
  }

  /** Whether the loop goes on after the second critical section. */
  predicate Continues(f: Activation, s: State)
    requires f.Loop? && f.pc.Received?
  {
    f.pc.ok && (f.wait != INVALID_ID || (f.process && s.queue != []) || NewReturn(f.pc.got))
  }

  function NextStore(e: Endpoint, i: nat): Endpoint
    requires i < |e.acts| && e.acts[i].Loop? && e.acts[i].pc.Received?
  {
    var f := e.acts[i];
    var s := StorePass(e.pend, f.pc.got);
    e.(pend := s, log := LogArrival(e.log, e.pend, f.pc.got),
       acts := NotifyAll(e.acts)[i := f.(pc := if Continues(f, s) then Top else Returned(None))])
  }

  function NextFinish(e: Endpoint, i: nat, reply: Packet, posted: bool): Endpoint
    requires i < |e.acts| && e.acts[i].Loop? && e.acts[i].pc.Dispatching?
  {
    var f := e.acts[i];
    var p := f.pc.p;
    if IsReturn(p) && p.id == f.wait then Put(e, i, f.(pc := Returned(Some(p))))
    else if IsCall(p) then Handle(Put(e, i, f.(pc := Top)), p, reply, posted)
    else Put(e, i, f.(pc := Top)).(log := e.log.(ignored := e.log.ignored + [p]))
  }

  ghost function Next(e: Endpoint, a: Action): Endpoint
    requires Enabled(e, a)
  {
    match a
    case Issue(t, ptype, wants, body, process) => NextIssue(e, a)
    case Enter(t) => e.(acts := e.acts + [Loop(t, INVALID_ID, true, Top)])
    case Send(i) =>
      var f := e.acts[i];
      Put(e, i, if f.out.wantsReturn then Loop(f.thread, f.out.id, f.process, Top) else Gone(f.thread))
    case Pass(i) => NextPass(e, i)
    case WakeUp(i) => Put(e, i, e.acts[i].(pc := Woken))
    case Receive(i, ok, got) => Put(e, i, e.acts[i].(pc := Received(ok, got)))
    case Store(i) => NextStore(e, i)
    case Finish(i, reply, posted) => NextFinish(e, i, reply, posted)
    case Post(i) =>
      Put(e, i, e.acts[i].(pc := Top)).(jobs := e.jobs + [e.acts[i].pc.p])
    case StartJob(t, j) => e.(acts := e.acts + [Job(t, e.jobs[j])], jobs := Without(e.jobs, j))
    case FinishJob(i, reply, posted) =>
      Handle(Put(e, i, Gone(e.acts[i].thread)), e.acts[i].call, reply, posted)
    case SendResult(j) => e.(jobs := Without(e.jobs, j))
  }

  /** What the action writes to the transport. */
  ghost function Output(e: Endpoint, a: Action): seq<Packet>
    requires Enabled(e, a)
  {
    match a
    case Send(i) => [e.acts[i].out]
    case Finish(i, reply, posted) =>
      if IsCall(e.acts[i].pc.p) && MustAnswer(e.acts[i].pc.p) && !posted then [reply] else []
    case FinishJob(i, reply, posted) => if MustAnswer(e.acts[i].call) && !posted then [reply] else []
    case SendResult(j) => [e.jobs[j]]
    case _ => []
  }

  /** What the action takes from the transport. */
  function Input(a: Action): seq<Packet> {
    if a.Receive? && a.got.Some? then [a.got.value] else []
  }

  // ----- The reader role -----------------------------------------------------

  predicate HasRole(f: Activation) {
    f.Loop? && (f.pc.Reading? || f.pc.Received?)
  }

  /** `locked` names the thread of the one activation that holds the reader role. */
  ghost predicate RoleInv(fs: seq<Activation>, locked: Option<Thread>) {
    && (forall i :: 0 <= i < |fs| && HasRole(fs[i]) ==> locked == Some(fs[i].thread))
    && (forall i, j :: 0 <= i < j < |fs| && HasRole(fs[i]) ==> !HasRole(fs[j]))
    && (locked.Some? ==> exists i :: 0 <= i < |fs| && HasRole(fs[i]))
  }

  /** Both activations are on the stack of one thread. */
  predicate Above(f: Activation, g: Activation) {
    f.thread == g.thread && Live(f) && Live(g)
  }

  /** Only user code has live activations above it, and above an activation
      that reads the transport nothing has got past its entry. */
  ghost predicate StackInv(fs: seq<Activation>) {
    && (forall i, j :: 0 <= i < j < |fs| && Above(fs[i], fs[j]) ==> RunsUserCode(fs[i]))
    && (forall i, j :: 0 <= i < j < |fs| && Above(fs[i], fs[j]) && HasRole(fs[i]) && fs[j].Loop? ==> fs[j].pc.Top?)
  }

  predicate Sleeps(f: Activation) {
    f.Loop? && f.pc.Asleep?
  }

  /** A sleeper has nothing to take, and another thread holds the reader role. */
  predicate SleepOk(f: Activation, s: State) {
    && (Sleeps(f) ==> f.wait !in s.responses && (f.process ==> s.queue == []) && s.locked.Some?)
    && (f.Loop? && (f.pc.Asleep? || f.pc.Woken?) ==> f.wait != INVALID_ID && s.locked != Some(f.thread))
  }

  ghost predicate SleepInv(e: Endpoint) {
    forall i :: 0 <= i < |e.acts| ==> SleepOk(e.acts[i], e.pend)
  }

  /** What is stored where, and what an activation holds. */
  ghost predicate ContentInv(e: Endpoint) {
    && (forall p :: p in e.pend.queue ==> IsCall(p))
    && (forall k :: k in e.pend.responses ==> IsResponse(e.pend.responses[k]) && e.pend.responses[k].id == k)
    && (forall i :: 0 <= i < |e.acts| ==> HeldOk(e.acts[i]))
    && (forall p :: p in e.jobs ==> IsCall(p) || IsReturn(p))
  }

  predicate HeldOk(f: Activation) {
    && (f.Sending? ==> IsCall(f.out) && f.out.id != INVALID_ID)
    && (f.Job? ==> IsCall(f.call))
    && (f.Loop? && f.pc.Dispatching? ==> f.pc.p.ptype != PT_UNDEFINED && (IsResponse(f.pc.p) ==> f.pc.p.id == f.wait))
    && (f.Loop? && f.pc.Returned? && f.pc.result.Some? ==> IsReturn(f.pc.result.value) && f.pc.result.value.id == f.wait)
  }

  ghost predicate Inv(e: Endpoint) {
    RoleInv(e.acts, e.pend.locked) && StackInv(e.acts) && SleepInv(e) && ContentInv(e)
  }

  lemma CallersRunUserCode(fs: seq<Activation>, t: Thread)
    requires StackInv(fs) && MayCall(fs, t)
    ensures forall i :: 0 <= i < |fs| && fs[i].thread == t && Live(fs[i]) ==> RunsUserCode(fs[i])
  {
  }

  // How the stack invariant survives the three ways the activations change.

  lemma StackPut(fs: seq<Activation>, i: nat, f: Activation)
    requires StackInv(fs) && IsTop(fs, i) && f.thread == fs[i].thread
    requires f.Loop? && Live(f) && !f.pc.Top? ==>
               forall k :: 0 <= k < i && fs[k].thread == f.thread ==> !HasRole(fs[k])
    ensures StackInv(fs[i := f])
  {
  }

  lemma StackPush(fs: seq<Activation>, f: Activation)
    requires StackInv(fs) && MayCall(fs, f.thread) && (f.Loop? ==> f.pc.Top?)
    ensures StackInv(fs + [f])
  {
    CallersRunUserCode(fs, f.thread);
  }

  lemma StackNotify(fs: seq<Activation>)
    requires StackInv(fs)
    ensures StackInv(NotifyAll(fs))
  {
  }

  lemma RolePut(fs: seq<Activation>, i: nat, f: Activation, locked: Option<Thread>)
    requires RoleInv(fs, locked) && i < |fs| && HasRole(fs[i]) == HasRole(f) && f.thread == fs[i].thread
    ensures RoleInv(fs[i := f], locked)
  {
    if k :| 0 <= k < |fs| && HasRole(fs[k]) {
      assert HasRole(fs[i := f][k]);
    }
  }

  lemma RolePush(fs: seq<Activation>, f: Activation, locked: Option<Thread>)
    requires RoleInv(fs, locked) && !HasRole(f)
    ensures RoleInv(fs + [f], locked)
  {
    if k :| 0 <= k < |fs| && HasRole(fs[k]) {
      assert HasRole((fs + [f])[k]);
    }
  }

  /** Taking the role when nobody has it, and giving it up. */
  lemma RoleMoves(fs: seq<Activation>, i: nat, f: Activation, locked: Option<Thread>)
    requires RoleInv(fs, locked) && i < |fs| && f.thread == fs[i].thread
    ensures locked == None && HasRole(f) ==> RoleInv(fs[i := f], Some(f.thread))
    ensures HasRole(fs[i]) && !HasRole(f) ==> RoleInv(fs[i := f], None)
  {
    assert fs[i := f][i] == f;
  }

  lemma RoleNotify(fs: seq<Activation>, locked: Option<Thread>)
    requires RoleInv(fs, locked)
    ensures RoleInv(NotifyAll(fs), locked)
  {
    if k :| 0 <= k < |fs| && HasRole(fs[k]) {
      assert HasRole(NotifyAll(fs)[k]);
    }
  }

  /** An activation past its entry has no reader below it on its own thread. */
  lemma NoReaderBelow(e: Endpoint, i: nat)
    requires RoleInv(e.acts, e.pend.locked) && StackInv(e.acts)
    requires i < |e.acts| && e.acts[i].Loop? && Live(e.acts[i])
    requires !e.acts[i].pc.Top? || e.pend.locked != Some(e.acts[i].thread)
    ensures forall k :: 0 <= k < i && e.acts[k].thread == e.acts[i].thread ==> !HasRole(e.acts[k])
  {
  }

  lemma PassStep(e: Endpoint, i: nat)
    requires Inv(e) && Enabled(e, Pass(i))
    ensures Inv(NextPass(e, i))
  {
    var f := e.acts[i];
    var e1 := NextPass(e, i);
    var g := e1.acts[i];
    assert e1.acts == e.acts[i := g] && g.thread == f.thread;
    if g.pc.Returned? {
      StackPut(e.acts, i, g);
    } else {
      NoReaderBelow(e, i);
      StackPut(e.acts, i, g);
    }
    if g.pc.Reading? {
      RoleMoves(e.acts, i, g, e.pend.locked);
    } else {
      RolePut(e.acts, i, g, e.pend.locked);
    }
    PassContent(e, i);
    PassSleep(e, i);
  }

  lemma PassContent(e: Endpoint, i: nat)
    requires ContentInv(e) && Enabled(e, Pass(i))
    ensures ContentInv(NextPass(e, i))
  {
    var f := e.acts[i];
    assert HeldOk(f);
    var (s, r) := ReadPass(e.pend, f.thread, f.wait, f.process, f.pc.Top?);
    if r.TakeCall? {
      assert r.p in e.pend.queue;
    }
    forall j | 0 <= j < |e.acts|
      ensures HeldOk(NextPass(e, i).acts[j])
    {
      assert HeldOk(e.acts[j]);
    }
  }

  lemma PassSleep(e: Endpoint, i: nat)
    requires Inv(e) && Enabled(e, Pass(i))
    ensures SleepInv(NextPass(e, i))
  {
    var e1 := NextPass(e, i);
    forall j | 0 <= j < |e1.acts|
      ensures SleepOk(e1.acts[j], e1.pend)
    {
      assert SleepOk(e.acts[j], e.pend) && SleepOk(e.acts[i], e.pend);
      if j != i && e.acts[j].Loop? && (e.acts[j].pc.Asleep? || e.acts[j].pc.Woken?) {
        SleeperIsAlone(e, i, j);
      }
    }
  }

  /** A sleeper is the innermost activation of its thread, so the thread does nothing else. */
  lemma SleeperIsAlone(e: Endpoint, i: nat, j: nat)
    requires StackInv(e.acts) && IsTop(e.acts, i) && j < |e.acts| && j != i
    requires e.acts[j].Loop? && (e.acts[j].pc.Asleep? || e.acts[j].pc.Woken?)
    ensures e.acts[j].thread != e.acts[i].thread
  {
  }

  lemma StoreStep(e: Endpoint, i: nat)
    requires Inv(e) && Enabled(e, Store(i))
    ensures Inv(NextStore(e, i))
  {
    var e1 := NextStore(e, i);
    var ns := NotifyAll(e.acts);
    StackNotify(e.acts);
    StackPut(ns, i, e1.acts[i]);
    RoleNotify(e.acts, e.pend.locked);
    RoleMoves(ns, i, e1.acts[i], e.pend.locked);
    StoreContent(e, i);
  }

  lemma StoreContent(e: Endpoint, i: nat)
    requires Inv(e) && Enabled(e, Store(i))
    ensures SleepInv(NextStore(e, i)) && ContentInv(NextStore(e, i))
  {
    var e1 := NextStore(e, i);
    forall j | 0 <= j < |e1.acts|
      ensures SleepOk(e1.acts[j], e1.pend) && HeldOk(e1.acts[j])
    {
      assert SleepOk(e.acts[j], e.pend) && HeldOk(e.acts[j]);
    }
  }

  lemma PutStep(e: Endpoint, i: nat, f: Activation, e1: Endpoint)
    requires Inv(e) && IsTop(e.acts, i)
    requires e1.acts == e.acts[i := f] && e1.pend == e.pend
    requires f.thread == e.acts[i].thread && HasRole(f) == HasRole(e.acts[i]) && !Sleeps(f) && HeldOk(f)
    requires f.Loop? && f.pc.Woken? ==> Sleeps(e.acts[i]) && f == e.acts[i].(pc := Woken)
    requires f.Loop? && Live(f) && !f.pc.Top? ==> e.acts[i].Loop? && !e.acts[i].pc.Top?
    requires forall p :: p in e1.jobs ==> IsCall(p) || IsReturn(p)
    ensures Inv(e1)
  {
    if f.Loop? && Live(f) && !f.pc.Top? {
      NoReaderBelow(e, i);
    }
    StackPut(e.acts, i, f);
    RolePut(e.acts, i, f, e.pend.locked);
    forall j | 0 <= j < |e1.acts|
      ensures SleepOk(e1.acts[j], e1.pend) && HeldOk(e1.acts[j])
    {
      assert SleepOk(e.acts[j], e.pend) && HeldOk(e.acts[j]);
    }
  }

  lemma PushStep(e: Endpoint, f: Activation, e1: Endpoint)
    requires Inv(e) && MayCall(e.acts, f.thread)
    requires e1.acts == e.acts + [f] && e1.pend.(counter := e.pend.counter) == e.pend
    requires (f.Loop? ==> f.pc.Top?) && HeldOk(f)
    requires forall p :: p in e1.jobs ==> IsCall(p) || IsReturn(p)
    ensures Inv(e1)
  {
    StackPush(e.acts, f);
    RolePush(e.acts, f, e.pend.locked);
    forall j | 0 <= j < |e1.acts|
      ensures SleepOk(e1.acts[j], e1.pend) && HeldOk(e1.acts[j])
    {
      if j < |e.acts| {
        assert SleepOk(e.acts[j], e.pend) && HeldOk(e.acts[j]);
      }
    }
  }

  lemma CallerStep(e: Endpoint, a: Action)
    requires Inv(e) && Enabled(e, a) && (a.Issue? || a.Enter? || a.StartJob?)
    ensures Inv(Next(e, a))
  {
    var e1 := Next(e, a);
    PushStep(e, e1.acts[|e.acts|], e1);
  }

  lemma MoveStep(e: Endpoint, a: Action)
    requires Inv(e) && Enabled(e, a) && (a.Send? || a.WakeUp? || a.Receive? || a.Post? || a.Finish? || a.FinishJob?)
    ensures Inv(Next(e, a))
  {
    var e1 := Next(e, a);
    assert HeldOk(e.acts[a.i]);
    PutStep(e, a.i, e1.acts[a.i], e1);
  }

  /** Every action keeps the invariant, whatever the transport delivers. */
  lemma InvStep(e: Endpoint, a: Action)
    requires Inv(e) && Enabled(e, a)
    ensures Inv(Next(e, a))
  {
    match a {
      case Issue(_, _, _, _, _) => CallerStep(e, a);
      case Enter(_) => CallerStep(e, a);
      case StartJob(_, _) => CallerStep(e, a);
      case Pass(i) => PassStep(e, i);
      case Store(i) => StoreStep(e, i);
      case SendResult(_) =>
      case _ => MoveStep(e, a);
    }
  }

  // ----- Runs ------------------------------------------------------------------

  /** `es` is the run that the actions `run` make from the initial state. */
  ghost predicate IsRun(es: seq<Endpoint>, run: seq<Action>) {
    && |es| == |run| + 1 && es[0] == INITIAL
    && forall i :: 0 <= i < |run| ==> Enabled(es[i], run[i]) && es[i + 1] == Next(es[i], run[i])
  }

  lemma {:induction false} InvAlways(es: seq<Endpoint>, run: seq<Action>, n: nat)
    requires IsRun(es, run) && n < |es|
    ensures Inv(es[n])
  {
    if n > 0 {
      InvAlways(es, run, n - 1);
      InvStep(es[n - 1], run[n - 1]);
    }
  }

  /** In every reachable state at most one activation, over all threads and all
      nesting, is between taking and giving up the reader role; `locked` names its
      thread exactly, and no activation of that thread sleeps. */
  lemma ReaderExclusion(es: seq<Endpoint>, run: seq<Action>, n: nat)
    requires IsRun(es, run) && n < |es|
    ensures forall i, j :: 0 <= i < |es[n].acts| && 0 <= j < |es[n].acts| && HasRole(es[n].acts[i]) && HasRole(es[n].acts[j]) ==> i == j
    ensures forall t :: es[n].pend.locked == Some(t) <==> exists i :: 0 <= i < |es[n].acts| && HasRole(es[n].acts[i]) && es[n].acts[i].thread == t
    ensures forall i, j :: 0 <= i < |es[n].acts| && 0 <= j < |es[n].acts| && HasRole(es[n].acts[i]) && Sleeps(es[n].acts[j]) ==> es[n].acts[i].thread != es[n].acts[j].thread
  {
    InvAlways(es, run, n);
    var e := es[n];
    forall i, j | 0 <= i < |e.acts| && 0 <= j < |e.acts| && HasRole(e.acts[i]) && Sleeps(e.acts[j])
      ensures e.acts[i].thread != e.acts[j].thread
    {
      assert SleepOk(e.acts[j], e.pend);
    }
  }

  /** An entry from the thread that is inside the transport read returns at once
      and changes nothing but its own activation. */
  lemma NestedEntryReturns(es: seq<Endpoint>, run: seq<Action>, n: nat, k: nat, i: nat)
    requires IsRun(es, run) && n < |es| && Enabled(es[n], Pass(i))
    requires k < |es[n].acts| && HasRole(es[n].acts[k]) && es[n].acts[k].thread == es[n].acts[i].thread
    ensures Next(es[n], Pass(i)) == Put(es[n], i, es[n].acts[i].(pc := Returned(None)))
  {
    InvAlways(es, run, n);
    var e := es[n];
    assert SleepOk(e.acts[i], e.pend);
  }

  /** The action is a move of activation `i`. */
  predicate MoveOf(a: Action, i: nat) {
    match a
    case Send(j) => i == j
    case Pass(j) => i == j
    case Receive(j, _, _) => i == j
    case Store(j) => i == j
    case Finish(j, _, _) => i == j
    case FinishJob(j, _, _) => i == j
    case _ => false
  }

  function FittingReply(c: Packet): (r: Packet)
    ensures IsCall(c) ==> Answers(c, r)
  {
    Packet(if c.ptype == PT_ENUMERATE then PT_RETURN_ENUMERATE else PT_RETURN, c.id, false, [])
  }

  /** Only a sleeper cannot move by itself. */
  lemma CanMove(e: Endpoint, i: nat) returns (a: Action)
    requires IsTop(e.acts, i) && !Sleeps(e.acts[i])
    ensures Enabled(e, a) && MoveOf(a, i)
  {
    match e.acts[i] {
      case Sending(_, _, _) => a := Send(i);
      case Job(_, c) => a := FinishJob(i, FittingReply(c), false);
      case Loop(_, _, _, pc) =>
        match pc {
          case Top => a := Pass(i);
          case Woken => a := Pass(i);
          case Reading => a := Receive(i, true, None);
          case Received(_, _) => a := Store(i);
          case Dispatching(p) => a := Finish(i, FittingReply(p), false);
        }
    }
  }

  lemma {:induction false} TopOf(fs: seq<Activation>, k: nat) returns (i: nat)
    requires k < |fs| && Live(fs[k])
    ensures IsTop(fs, i) && fs[i].thread == fs[k].thread && k <= i
    decreases |fs| - k
  {
    if j :| k < j < |fs| && fs[j].thread == fs[k].thread && Live(fs[j]) {
      i := TopOf(fs, j);
    } else {
      i := k;
    }
  }

  /** A stored response comes before everything else: whoever looks for it and did not come
      in from inside the transport read takes it, and leaves the queue alone. */
  lemma ResponseFirst(e: Endpoint, i: nat)
    requires Enabled(e, Pass(i)) && e.acts[i].wait in e.pend.responses
    requires e.acts[i].pc.Top? ==> e.pend.locked != Some(e.acts[i].thread)
    ensures var e1, f := Next(e, Pass(i)), e.acts[i];
            && e1.acts == e.acts[i := f.(pc := Dispatching(e.pend.responses[f.wait]))]
            && e1.pend == e.pend.(responses := e.pend.responses - {f.wait})
            && e1.log.taken == e.log.taken + [e.pend.responses[f.wait]]
  {
  }

  /** How a wait ends: with the response in hand, or without one by re-entrance or a read
      that failed. A call that waits for nothing also ends when another thread reads, and
      when there is nothing more to do. */
  lemma EndsExactly(e: Endpoint, a: Action, i: nat)
    requires Enabled(e, a) && i < |e.acts| && e.acts[i].Loop? && Live(e.acts[i])
    ensures i < |Next(e, a).acts| && Next(e, a).acts[i].Loop?
    ensures var f, g := e.acts[i], Next(e, a).acts[i];
            g.pc.Returned? && g.pc.result.None? <==>
            || (a == Pass(i) && f.pc.Top? && e.pend.locked == Some(f.thread))
            || (a == Pass(i) && f.wait == INVALID_ID && f.wait !in e.pend.responses && !(f.process && e.pend.queue != [])
                && e.pend.locked.Some?)
            || (a == Store(i) && !f.pc.ok)
            || (a == Store(i) && f.wait == INVALID_ID && !(f.pc.got.Some? && IsResponse(f.pc.got.value))
                && !(f.process && (e.pend.queue != [] || (f.pc.got.Some? && IsCall(f.pc.got.value)))))
    ensures var f, g := e.acts[i], Next(e, a).acts[i];
            g.pc.Returned? && g.pc.result.Some? <==> a.Finish? && a.i == i && IsReturn(f.pc.p) && f.pc.p.id == f.wait
    ensures var f, g := e.acts[i], Next(e, a).acts[i];
            g.pc.Returned? && g.pc.result.Some? ==> g.pc.result == Some(f.pc.p)
  {
  }

  /** No wakeup is lost and the threads are never all asleep: whoever sleeps has
      no stored response and no queued call that it may take, and another thread
      holds the reader role and can make a move. */
  lemma NoLostWakeup(es: seq<Endpoint>, run: seq<Action>, n: nat, j: nat) returns (r: nat, i: nat, a: Action)
    requires IsRun(es, run) && n < |es| && j < |es[n].acts| && Sleeps(es[n].acts[j])
    ensures es[n].acts[j].wait !in es[n].pend.responses
    ensures es[n].acts[j].process ==> es[n].pend.queue == []
    ensures r < |es[n].acts| && HasRole(es[n].acts[r]) && es[n].acts[r].thread != es[n].acts[j].thread
    ensures IsTop(es[n].acts, i) && es[n].acts[i].thread == es[n].acts[r].thread
    ensures Enabled(es[n], a) && MoveOf(a, i)
  {
    InvAlways(es, run, n);
    var e := es[n];
    assert SleepOk(e.acts[j], e.pend);
    r :| 0 <= r < |e.acts| && HasRole(e.acts[r]);
    i := TopOf(e.acts, r);
    assert SleepOk(e.acts[i], e.pend);
    a := CanMove(e, i);
  }

  // ----- Conservation and order of what arrives ------------------------------

  function CallsOf(s: seq<Packet>): seq<Packet> {
    if s == [] then []
    else CallsOf(s[..|s| - 1]) + if IsCall(s[|s| - 1]) then [s[|s| - 1]] else []
  }

  /** How often the packet is in the response map. */
  function InMap(m: map<u32, Packet>, p: Packet): nat {
    if p.id in m && m[p.id] == p then 1 else 0
  }

  function Is(p: Packet): Packet -> bool {
    (q: Packet) => q == p
  }

  /** How often a response arrived, and where it went. */
  ghost predicate Accounted(log: Log, m: map<u32, Packet>, p: Packet) {
    IsResponse(p) ==>
      Count(log.arrived, Is(p)) == Count(log.taken, Is(p)) + Count(log.dropped, Is(p)) + InMap(m, p)
  }

  /** Calls are taken in the order they arrived; each response that arrived was
      taken once, is stored, or was dropped. */
  ghost predicate ArrivalInv(e: Endpoint) {
    && CallsOf(e.log.arrived) == e.log.calls + e.pend.queue
    && forall p :: Accounted(e.log, e.pend.responses, p)
  }

  lemma TakeAccounted(log: Log, m: map<u32, Packet>, w: u32, p: Packet)
    requires Accounted(log, m, p) && w in m && m[w].id == w
    ensures Accounted(log.(taken := log.taken + [m[w]]), m - {w}, p)
  {
    CountPush(log.taken, m[w], Is(p));
    assert InMap(m - {w}, p) + (if p == m[w] then 1 else 0) == InMap(m, p);
  }

  lemma CallAccounted(log: Log, m: map<u32, Packet>, q: Packet, p: Packet)
    requires Accounted(log, m, p) && IsCall(q)
    ensures Accounted(log.(arrived := log.arrived + [q]), m, p)
  {
    CountPush(log.arrived, q, Is(p));
  }

  lemma DropAccounted(log: Log, m: map<u32, Packet>, q: Packet, p: Packet)
    requires Accounted(log, m, p)
    ensures Accounted(log.(arrived := log.arrived + [q], dropped := log.dropped + [q]), m, p)
  {
    CountPush(log.arrived, q, Is(p));
    CountPush(log.dropped, q, Is(p));
  }

  lemma InsertAccounted(log: Log, m: map<u32, Packet>, q: Packet, p: Packet)
    requires Accounted(log, m, p) && q.id !in m
    ensures Accounted(log.(arrived := log.arrived + [q]), m[q.id := q], p)
  {
    CountPush(log.arrived, q, Is(p));
    assert InMap(m[q.id := q], p) == InMap(m, p) + if p == q then 1 else 0;
  }

  lemma StoreAccounted(log: Log, s: State, q: Packet, p: Packet)
    requires Accounted(log, s.responses, p) && q.ptype != PT_UNDEFINED
    ensures Accounted(LogArrival(log, s, Some(q)), StorePass(s, Some(q)).responses, p)
  {
    if IsCall(q) {
      CallAccounted(log, s.responses, q, p);
    } else if q.id in s.responses {
      DropAccounted(log, s.responses, q, p);
    } else {
      InsertAccounted(log, s.responses, q, p);
    }
  }

  lemma ArrivalStep(e: Endpoint, a: Action)
    requires ContentInv(e) && ArrivalInv(e) && Enabled(e, a)
    ensures ArrivalInv(Next(e, a))
  {
    match a {
      case Pass(i) =>
        PassOrder(e, i);
        PassAccounted(e, i);
      case Store(i) =>
        StoreOrder(e, i);
        StoreAllAccounted(e, i);
      case _ =>
        OthersKeepArrivals(e, a);
    }
  }

  lemma OthersKeepArrivals(e: Endpoint, a: Action)
    requires ArrivalInv(e) && Enabled(e, a) && !a.Pass? && !a.Store?
    ensures ArrivalInv(Next(e, a))
  {
    var e1 := Next(e, a);
    assert e1.log.arrived == e.log.arrived && e1.log.taken == e.log.taken && e1.log.dropped == e.log.dropped;
    assert e1.pend.responses == e.pend.responses && e1.pend.queue == e.pend.queue && e1.log.calls == e.log.calls;
    forall p
      ensures Accounted(e1.log, e1.pend.responses, p)
    {
      assert Accounted(e.log, e.pend.responses, p);
    }
  }

  lemma PassEffect(e: Endpoint, i: nat)
    requires Enabled(e, Pass(i))
    ensures var e1, m, w := NextPass(e, i), e.pend.responses, e.acts[i].wait;
            && e1.log.arrived == e.log.arrived && e1.log.dropped == e.log.dropped
            && ((e1.log.taken == e.log.taken && e1.pend.responses == m)
                || (w in m && e1.log.taken == e.log.taken + [m[w]] && e1.pend.responses == m - {w}))
  {
  }

  lemma PassAccounted(e: Endpoint, i: nat)
    requires ContentInv(e) && ArrivalInv(e) && Enabled(e, Pass(i))
    ensures forall p :: Accounted(NextPass(e, i).log, NextPass(e, i).pend.responses, p)
  {
    hide NextPass, Count, InMap;
    var e1 := NextPass(e, i);
    var w := e.acts[i].wait;
    PassEffect(e, i);
    forall p
      ensures Accounted(e1.log, e1.pend.responses, p)
    {
      assert Accounted(e.log, e.pend.responses, p);
      if w in e.pend.responses {
        TakeAccounted(e.log, e.pend.responses, w, p);
      }
    }
  }

  lemma StoreAllAccounted(e: Endpoint, i: nat)
    requires ArrivalInv(e) && Enabled(e, Store(i))
    ensures forall p :: Accounted(NextStore(e, i).log, NextStore(e, i).pend.responses, p)
  {
    var e1 := NextStore(e, i);
    var got := e.acts[i].pc.got;
    forall p
      ensures Accounted(e1.log, e1.pend.responses, p)
    {
      assert Accounted(e.log, e.pend.responses, p);
      if got.Some? && got.value.ptype != PT_UNDEFINED {
        StoreAccounted(e.log, e.pend, got.value, p);
      }
    }
  }

  lemma PassOrder(e: Endpoint, i: nat)
    requires Enabled(e, Pass(i)) && CallsOf(e.log.arrived) == e.log.calls + e.pend.queue
    ensures var e1 := NextPass(e, i); CallsOf(e1.log.arrived) == e1.log.calls + e1.pend.queue
  {
    if e.pend.queue != [] {
      assert e.log.calls + e.pend.queue == (e.log.calls + [e.pend.queue[0]]) + e.pend.queue[1..];
    }
  }

  lemma StoreOrder(e: Endpoint, i: nat)
    requires Enabled(e, Store(i)) && CallsOf(e.log.arrived) == e.log.calls + e.pend.queue
    ensures var e1 := NextStore(e, i); CallsOf(e1.log.arrived) == e1.log.calls + e1.pend.queue
  {
    var got := e.acts[i].pc.got;
    if got.Some? {
      var p := got.value;
      assert (e.log.arrived + [p])[..|e.log.arrived|] == e.log.arrived;
      assert (e.log.calls + e.pend.queue) + [p] == e.log.calls + (e.pend.queue + [p]);
    }
  }

  lemma NothingArrived()
    ensures ArrivalInv(INITIAL)
  {
  }

  lemma InvHasContent(e: Endpoint)
    requires Inv(e)
    ensures ContentInv(e)
  {
  }

  lemma {:induction false} ArrivalAlways(es: seq<Endpoint>, run: seq<Action>, n: nat)
    requires IsRun(es, run) && n < |es|
    ensures ArrivalInv(es[n])
  {
    hide Inv, ArrivalInv, Enabled, Next;
    if n == 0 {
      NothingArrived();
    } else {
      ArrivalAlways(es, run, n - 1);
      InvAlways(es, run, n - 1);
      InvHasContent(es[n - 1]);
      ArrivalStep(es[n - 1], run[n - 1]);
    }
  }

  // ----- From the transport to the queue and the map ---------------------------------

  /** Everything the transport has delivered. */
  function Delivered(run: seq<Action>): seq<Packet> {
    if run == [] then [] else Delivered(run[..|run| - 1]) + Input(run[|run| - 1])
  }

  /** The packets of defined type. */
  function Defined(s: seq<Packet>): seq<Packet> {
    if s == [] then []
    else Defined(s[..|s| - 1]) + if s[|s| - 1].ptype != PT_UNDEFINED then [s[|s| - 1]] else []
  }

  /** What an activation has read and not yet sorted in. */
  function InHand(f: Activation): seq<Packet> {
    if f.Loop? && f.pc.Received? && f.pc.got.Some? && f.pc.got.value.ptype != PT_UNDEFINED then [f.pc.got.value] else []
  }

  function AllInHand(fs: seq<Activation>): seq<Packet> {
    if fs == [] then [] else AllInHand(fs[..|fs| - 1]) + InHand(fs[|fs| - 1])
  }

  lemma {:induction false} HandsEmpty(fs: seq<Activation>)
    requires forall i :: 0 <= i < |fs| ==> InHand(fs[i]) == []
    ensures AllInHand(fs) == []
  {
    if fs != [] {
      HandsEmpty(fs[..|fs| - 1]);
    }
  }

  /** Only the holder of the reader role has a packet in hand. */
  lemma {:induction false} OneHand(fs: seq<Activation>, i: nat)
    requires i < |fs| && forall j :: 0 <= j < |fs| && j != i ==> InHand(fs[j]) == []
    ensures AllInHand(fs) == InHand(fs[i])
  {
    hide InHand;
    var init := fs[..|fs| - 1];
    if i < |init| {
      OneHand(init, i);
    } else {
      HandsEmpty(init);
    }
  }

  lemma {:induction false} SameHands(fs: seq<Activation>, gs: seq<Activation>)
    requires |fs| == |gs| && forall i :: 0 <= i < |fs| ==> InHand(fs[i]) == InHand(gs[i])
    ensures AllInHand(fs) == AllInHand(gs)
  {
    if fs != [] {
      SameHands(fs[..|fs| - 1], gs[..|gs| - 1]);
    }
  }

  lemma DefinedPush(s: seq<Packet>, p: Packet)
    ensures Defined(s + [p]) == Defined(s) + if p.ptype != PT_UNDEFINED then [p] else []
  {
    assert (s + [p])[..|s|] == s;
  }

  /** The read puts the packet into the reader's hand. */
  lemma ReceiveHands(e: Endpoint, a: Action)
    requires RoleInv(e.acts, e.pend.locked) && Enabled(e, a) && a.Receive?
    ensures AllInHand(e.acts) == [] && AllInHand(Next(e, a).acts) == Defined(Input(a))
    ensures Next(e, a).log.arrived == e.log.arrived
  {
    OneHand(e.acts, a.i);
    OneHand(Next(e, a).acts, a.i);
    if a.got.Some? {
      DefinedPush([], a.got.value);
      assert [] + [a.got.value] == [a.got.value];
    }
  }

  lemma NoOtherHand(e: Endpoint, i: nat)
    requires RoleInv(e.acts, e.pend.locked) && i < |e.acts| && HasRole(e.acts[i])
    ensures forall j :: 0 <= j < |e.acts| && j != i ==> InHand(e.acts[j]) == []
  {
    forall j | 0 <= j < |e.acts| && j != i
      ensures InHand(e.acts[j]) == []
    {
      assert !HasRole(e.acts[j]);
    }
  }

  lemma StoreEffect(e: Endpoint, i: nat, j: nat)
    requires Enabled(e, Store(i)) && j < |e.acts|
    ensures var e1 := NextStore(e, i);
            && |e1.acts| == |e.acts| && (j == i ==> InHand(e1.acts[j]) == [])
            && (j != i ==> InHand(e1.acts[j]) == InHand(e.acts[j]))
            && e1.log.arrived == e.log.arrived + InHand(e.acts[i])
  {
  }

  /** The second critical section takes it out of the hand and sorts it in. */
  lemma StoreHands(e: Endpoint, i: nat)
    requires RoleInv(e.acts, e.pend.locked) && Enabled(e, Store(i))
    ensures AllInHand(NextStore(e, i).acts) == []
    ensures NextStore(e, i).log.arrived == e.log.arrived + AllInHand(e.acts)
  {
    StoreEffect(e, i, i);
    NoOtherHand(e, i);
    OneHand(e.acts, i);
    hide NextStore, InHand;
    forall j | 0 <= j < |e.acts|
      ensures InHand(NextStore(e, i).acts[j]) == []
    {
      StoreEffect(e, i, j);
    }
    HandsEmpty(NextStore(e, i).acts);
  }

  lemma OtherEffect(e: Endpoint, a: Action)
    requires Enabled(e, a) && !a.Receive? && !a.Store?
    ensures var fs, gs := e.acts, Next(e, a).acts;
            || (|gs| == |fs| + 1 && gs[..|fs|] == fs && InHand(gs[|fs|]) == [])
            || (|gs| == |fs| && exists i: nat, g :: i < |fs| && gs == fs[i := g] && InHand(g) == InHand(fs[i]) == [])
            || gs == fs
    ensures Next(e, a).log.arrived == e.log.arrived && Input(a) == []
  {
    var fs, gs := e.acts, Next(e, a).acts;
    if a.Issue? || a.Enter? || a.StartJob? {
      assert gs[..|fs|] == fs;
    } else if !a.SendResult? {
      assert a.i < |fs| && gs == fs[a.i := gs[a.i]];
      assert InHand(fs[a.i]) == [] && InHand(gs[a.i]) == [];
    }
  }

  lemma OtherHands(e: Endpoint, a: Action)
    requires Enabled(e, a) && !a.Receive? && !a.Store?
    ensures AllInHand(Next(e, a).acts) == AllInHand(e.acts)
    ensures Next(e, a).log.arrived == e.log.arrived && Input(a) == []
  {
    OtherEffect(e, a);
    hide Next, Enabled, InHand;
    var fs, gs := e.acts, Next(e, a).acts;
    if |gs| == |fs| {
      SameHands(fs, gs);
    }
  }

  lemma InvHasRole(e: Endpoint)
    requires Inv(e)
    ensures RoleInv(e.acts, e.pend.locked)
  {
  }

  lemma StoreIs(e: Endpoint, a: Action)
    requires Enabled(e, a) && a.Store?
    ensures Next(e, a) == NextStore(e, a.i)
  {
  }

  lemma DeliverStep(e: Endpoint, a: Action, before: seq<Packet>)
    requires RoleInv(e.acts, e.pend.locked) && Enabled(e, a)
    requires Defined(before) == e.log.arrived + AllInHand(e.acts)
    ensures Defined(before + Input(a)) == Next(e, a).log.arrived + AllInHand(Next(e, a).acts)
  {
    hide Next, Enabled, RoleInv, AllInHand;
    if a.Receive? {
      ReceiveHands(e, a);
      if a.got.Some? {
        DefinedPush(before, a.got.value);
        DefinedPush([], a.got.value);
        assert [] + [a.got.value] == [a.got.value];
      } else {
        assert before + [] == before;
      }
    } else {
      assert before + [] == before;
      if a.Store? {
        StoreIs(e, a);
        StoreHands(e, a.i);
      } else {
        OtherHands(e, a);
      }
    }
  }

  /** Every packet of defined type that the transport has delivered was sorted in, in the
      order of delivery, except for the one that the reader has in hand. */
  lemma {:induction false} DeliveredArrives(es: seq<Endpoint>, run: seq<Action>, n: nat)
    requires IsRun(es, run) && n < |es|
    ensures Defined(Delivered(run[..n])) == es[n].log.arrived + AllInHand(es[n].acts)
  {
    hide Next, Enabled, Inv, Defined, AllInHand;
    if n == 0 {
      NothingDelivered();
    } else {
      DeliveredArrives(es, run, n - 1);
      InvAlways(es, run, n - 1);
      InvHasRole(es[n - 1]);
      assert run[..n][..n - 1] == run[..n - 1];
      DeliverStep(es[n - 1], run[n - 1], Delivered(run[..n - 1]));
    }
  }

  lemma NothingDelivered()
    ensures Defined([]) == [] == INITIAL.log.arrived + AllInHand(INITIAL.acts)
  {
  }

  lemma AtMostOneHand(e: Endpoint)
    requires RoleInv(e.acts, e.pend.locked)
    ensures |AllInHand(e.acts)| <= 1
  {
    if i: nat :| i < |e.acts| && HasRole(e.acts[i]) {
      NoOtherHand(e, i);
      OneHand(e.acts, i);
    } else {
      HandsEmpty(e.acts);
    }
  }

  lemma {:induction false} CallsAppend(s: seq<Packet>, t: seq<Packet>)
    ensures CallsOf(s + t) == CallsOf(s) + CallsOf(t)
  {
    if t == [] {
      assert s + t == s;
    } else {
      CallsAppend(s, t[..|t| - 1]);
      assert (s + t)[..|s + t| - 1] == s + t[..|t| - 1];
    }
  }

  /** A packet of defined type counts the same with and without the undefined ones. */
  lemma {:induction false} CountDefined(s: seq<Packet>, p: Packet)
    requires p.ptype != PT_UNDEFINED
    ensures Count(Defined(s), Is(p)) == Count(s, Is(p))
  {
    if s != [] {
      var q := s[|s| - 1];
      CountDefined(s[..|s| - 1], p);
      if q.ptype != PT_UNDEFINED {
        CountPush(Defined(s[..|s| - 1]), q, Is(p));
      } else {
        assert Defined(s[..|s| - 1]) + [] == Defined(s[..|s| - 1]);
      }
    }
  }

  /** In every reachable state each packet of defined type that the transport delivered
      is in exactly one place: in the reader's hand, or sorted in and then taken once,
      queued or stored, or dropped as a duplicate. Calls leave the queue in the order
      of delivery, and the key of each stored response is the id in its header. */
  lemma Conservation(es: seq<Endpoint>, run: seq<Action>, n: nat)
    requires IsRun(es, run) && n < |es|
    ensures Defined(Delivered(run[..n])) == es[n].log.arrived + AllInHand(es[n].acts) && |AllInHand(es[n].acts)| <= 1
    ensures CallsOf(Defined(Delivered(run[..n]))) == es[n].log.calls + es[n].pend.queue + CallsOf(AllInHand(es[n].acts))
    ensures forall p :: IsResponse(p) ==>
              Count(Delivered(run[..n]), Is(p))
              == Count(es[n].log.taken, Is(p)) + Count(es[n].log.dropped, Is(p)) + InMap(es[n].pend.responses, p)
                 + Count(AllInHand(es[n].acts), Is(p))
    ensures forall k :: k in es[n].pend.responses ==> es[n].pend.responses[k].id == k
  {
    hide Next, Enabled, AllInHand, Defined, CallsOf, Delivered;
    InvAlways(es, run, n);
    ArrivalAlways(es, run, n);
    DeliveredArrives(es, run, n);
    InvHasRole(es[n]);
    AtMostOneHand(es[n]);
    var hand := AllInHand(es[n].acts);
    CallsAppend(es[n].log.arrived, hand);
    forall p | IsResponse(p)
      ensures Count(Delivered(run[..n]), Is(p))
              == Count(es[n].log.taken, Is(p)) + Count(es[n].log.dropped, Is(p)) + InMap(es[n].pend.responses, p)
                 + Count(hand, Is(p))
    {
      assert Accounted(es[n].log, es[n].pend.responses, p);
      CountDefined(Delivered(run[..n]), p);
      CountAppend(es[n].log.arrived, hand, Is(p));
    }
  }
}
