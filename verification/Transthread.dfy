/** Calls posted from thread to thread: the registry of the waiters, and how a cancel
    or the end of a thread settles them. */
module Transthread {
  import opened Prelude

  type ThreadId = nat

  datatype CallState = NoCall | InProgress | Canceled | Done | ReceiverFinished

  /** The waiter of one call: the records of the thread that sent it, whose condition it
      uses, and of the thread that is to run it. `registered` tells whether the sender
      still had its set of calls when the waiter was made. */
  datatype CallWaiter = CallWaiter(state: CallState, sender: nat, receiver: nat, registered: bool)

  /** A record, made for its owner; `None` is a set of calls that was given up. */
  datatype Record = Record(owner: ThreadId, senderCalls: Option<set<nat>>, receiverCalls: set<nat>, processIncoming: bool)

  /** All records and waiters ever made, the records that threads have now, the waiters
      that still exist, the threads that sleep, each on a waiter, and the threads that
      somebody found without a record and is going to add. */
  datatype State = State(records: seq<Record>, threads: map<ThreadId, nat>,
                         waiters: seq<CallWaiter>, alive: set<nat>, asleep: map<ThreadId, nat>,
                         adding: multiset<ThreadId>)

  const START := State([], map[], [], {}, map[], multiset{})

  predicate WellFormed(s: State) {
    && (forall t :: t in s.threads ==> s.threads[t] < |s.records|)
    && (forall w :: 0 <= w < |s.waiters| ==> s.waiters[w].sender < |s.records| && s.waiters[w].receiver < |s.records|)
    && (forall w :: w in s.alive ==> w < |s.waiters|)
    && (forall t :: t in s.asleep ==> s.asleep[t] < |s.waiters|)
  }

  // ----- The operations, as functions on values -------------------------------------------

  /** A notification on the conditions of the records. */
  function Wake(s: State, syncs: set<nat>): map<ThreadId, nat>
    requires WellFormed(s)
  {
    map t | t in s.asleep && s.waiters[s.asleep[t]].sender !in syncs :: s.asleep[t]
  }

  function Syncs(s: State, ws: set<nat>): set<nat>
    requires forall w :: w in ws ==> w < |s.waiters|
  {
    set w | w in ws :: s.waiters[w].sender
  }

  /** Every waiter of the set gets the state, and its sleepers are notified. */
  function Settle(s: State, ws: set<nat>, cs: CallState): (t: State)
    requires WellFormed(s) && forall w :: w in ws ==> w < |s.waiters|
    ensures t == s.(waiters := t.waiters, asleep := t.asleep) && |t.waiters| == |s.waiters|
    ensures forall w :: 0 <= w < |s.waiters| ==>
              t.waiters[w] == if w in ws then s.waiters[w].(state := cs) else s.waiters[w]
  {
    s.(waiters := seq(|s.waiters|, w requires 0 <= w < |s.waiters| =>
      if w in ws then s.waiters[w].(state := cs) else s.waiters[w]),
    asleep := Wake(s, Syncs(s, ws)))
  }

  /** The thread gets a new record; one that it has is overwritten. */
  function AddRecord(s: State, t: ThreadId): State {
    s.(records := s.records + [Record(t, Some({}), {}, false)], threads := s.threads[t := |s.records|])
  }

  /** AddTargetThreadId looks for the record in one critical section. */
  function CheckFn(s: State, t: ThreadId): State {
    if t in s.threads then s else s.(adding := s.adding + multiset{t})
  }

  /** When there was none, it inserts one in another. */
  function InsertFn(s: State, t: ThreadId): State {
    AddRecord(s, t).(adding := s.adding - multiset{t})
  }

  /** The record of a thread, made on first use; both critical sections as one, because the
      caller holds the lock. */
  function WithThread(s: State, t: ThreadId): State {
    if t in s.threads then s else AddRecord(s, t)
  }

  function AddReceiver(r: Record, w: nat): Record {
    r.(receiverCalls := r.receiverCalls + {w})
  }

  function AddSender(r: Record, w: nat): Record {
    r.(senderCalls := if r.senderCalls.Some? then Some(r.senderCalls.value + {w}) else None)
  }

  /** The new waiter in the sets of both records. */
  function Entered(s: State, q: nat, r: nat): (records: seq<Record>)
    requires q < |s.records| && r < |s.records|
    ensures |records| == |s.records|
    ensures forall x :: 0 <= x < |s.records| ==>
              && records[x].owner == s.records[x].owner
              && (records[x].senderCalls.Some? <==> s.records[x].senderCalls.Some?)
              && Calls(records[x]) == Calls(s.records[x]) + (if x == q && s.records[q].senderCalls.Some? then {|s.waiters|} else {})
              && records[x].receiverCalls == s.records[x].receiverCalls + (if x == r then {|s.waiters|} else {})
  {
    var records := s.records[r := AddReceiver(s.records[r], |s.waiters|)];
    records[q := AddSender(records[q], |s.waiters|)]
  }

  /** A new waiter, entered into both sets; canceled at once when the sender has given up
      its set. */
  function CallFn(s0: State, from: ThreadId, to: ThreadId): State
    requires WellFormed(s0)
  {
    var s := WithThread(WithThread(s0, to), from);
    var r, q, w := s.threads[to], s.threads[from], |s.waiters|;
    var open := s.records[q].senderCalls.Some?;
    State(Entered(s, q, r), s.threads,
          s.waiters + [CallWaiter(if open then InProgress else Canceled, q, r, open)],
          s.alive + {w}, if open then s.asleep else Wake(s, {q}), s.adding)
  }

  /** The calls that a record knows as sender. */
  function Calls(r: Record): set<nat> {
    if r.senderCalls.Some? then r.senderCalls.value else {}
  }

  ghost predicate Known(s: State) {
    && WellFormed(s)
    && (forall r :: 0 <= r < |s.records| ==> Calls(s.records[r]) <= s.alive && s.records[r].receiverCalls <= s.alive)
  }

  /** CancelDisableWaitingCall. */
  function CancelFn(s: State, t: ThreadId): State
    requires Known(s)
  {
    if t !in s.threads || s.records[s.threads[t]].senderCalls.None? then s
    else
      var q := s.threads[t];
      Settle(s, Calls(s.records[q]), Canceled).(records := s.records[q := s.records[q].(senderCalls := None)])
  }

  /** OnFinished_ReceiverThread. */
  function FinishFn(s: State, t: ThreadId): State
    requires Known(s)
  {
    if t !in s.threads then s
    else Settle(s.(threads := s.threads - {t}), s.records[s.threads[t]].receiverCalls, ReceiverFinished)
  }

  function DoneFn(s: State, w: nat): State
    requires WellFormed(s) && w < |s.waiters|
  {
    Settle(s, {w}, Done)
  }

  /** The destructor of the waiter. */
  function DestroyFn(s: State, w: nat): State
    requires WellFormed(s) && w < |s.waiters|
  {
    var q, r := s.waiters[w].sender, s.waiters[w].receiver;
    var sender := s.records[q].(senderCalls := if s.records[q].senderCalls.Some?
    then Some(s.records[q].senderCalls.value - {w}) else None);
    var records := s.records[q := sender];
    s.(records := records[r := records[r].(receiverCalls := records[r].receiverCalls - {w})], alive := s.alive - {w})
  }

  function IncomingFn(s: State, r: nat): State
    requires WellFormed(s) && r < |s.records|
  {
    s.(records := s.records[r := s.records[r].(processIncoming := true)], asleep := Wake(s, {r}))
  }

  /** One look of WaitProcessing: leave, go on to process calls, or sleep. */
  function LookFn(s: State, t: ThreadId, w: nat): State
    requires WellFormed(s) && w < |s.waiters|
  {
    var q := s.waiters[w].sender;
    if s.waiters[w].state != InProgress then s
    else if s.records[q].processIncoming then s.(records := s.records[q := s.records[q].(processIncoming := false)])
    else s.(asleep := s.asleep[t := w])
  }

  // ----- The invariant ----------------------------------------------------------------------

  /** The sets of a record hold exactly the waiters that belong there. */
  ghost predicate Registry(s: State) {
    && Known(s)
    && (forall t :: t in s.threads ==> s.records[s.threads[t]].owner == t)
    && (forall r, w :: 0 <= r < |s.records| && w in Calls(s.records[r]) ==> s.waiters[w].sender == r)
    && (forall r, w :: 0 <= r < |s.records| && w in s.records[r].receiverCalls ==> s.waiters[w].receiver == r)
    && (forall w :: w in s.alive ==>
          var sender := s.records[s.waiters[w].sender];
          && (sender.senderCalls.Some? ==> w in sender.senderCalls.value)
          && w in s.records[s.waiters[w].receiver].receiverCalls)
  }

  /** A call in progress. */
  predicate Open(s: State, w: int) {
    w in s.alive && 0 <= w < |s.waiters| && s.waiters[w].state == InProgress
  }

  /** Whoever gave up its set of calls leaves no call in progress. */
  ghost predicate Settled(s: State)
    requires WellFormed(s)
  {
    forall w :: Open(s, w) ==> s.records[s.waiters[w].sender].senderCalls.Some?
  }

  /** No thread sleeps on a call that is settled, nor on one that does not exist. */
  ghost predicate SleepersWait(s: State)
    requires WellFormed(s)
  {
    forall t :: t in s.asleep ==> Open(s, s.asleep[t])
  }

  ghost predicate Inv(s: State) {
    Known(s) && Registry(s) && Settled(s) && SleepersWait(s)
  }

  // ----- Steps --------------------------------------------------------------------------

  datatype Action =
    | Check(t: ThreadId)                     // AddTargetThreadId looks for a record
    | Insert(t: ThreadId)                    // and, when there was none, inserts one
    | CallFrom(from: ThreadId, to: ThreadId)
    | Incoming(r: nat)                       // the receiver is told of the posted call
    | Cancel(t: ThreadId)
    | Finish(t: ThreadId)
    | CallDone(w: nat)
    | Destroy(w: nat)
    | Look(t: ThreadId, w: nat)
    | Spurious(t: ThreadId)

  ghost predicate Enabled(s: State, a: Action) {
    Known(s) &&
    match a
    case Check(_) => true
    case Insert(t) => t in s.adding
    case CallFrom(_, _) => true
    case Incoming(r) => r < |s.records|
    case Cancel(_) => true
    case Finish(_) => true
    case CallDone(w) => w in s.alive
    case Destroy(w) => w in s.alive && forall t :: t in s.asleep ==> s.asleep[t] != w
    case Look(t, w) => w in s.alive && t !in s.asleep
    case Spurious(t) => t in s.asleep
  }

  ghost function Next(s: State, a: Action): State
    requires Enabled(s, a)
  {
    match a
    case Check(t) => CheckFn(s, t)
    case Insert(t) => InsertFn(s, t)
    case CallFrom(from, to) => CallFn(s, from, to)
    case Incoming(r) => IncomingFn(s, r)
    case Cancel(t) => CancelFn(s, t)
    case Finish(t) => FinishFn(s, t)
    case CallDone(w) => DoneFn(s, w)
    case Destroy(w) => DestroyFn(s, w)
    case Look(t, w) => LookFn(s, t, w)
    case Spurious(t) => s.(asleep := s.asleep - {t})
  }

  /** The registry does not depend on the states of the calls, and threads may go. */
  lemma SameRegistry(s: State, v: State)
    requires Registry(s) && WellFormed(v)
    requires v.records == s.records && v.alive == s.alive && |v.waiters| == |s.waiters|
    requires forall w :: 0 <= w < |s.waiters| ==>
               v.waiters[w].sender == s.waiters[w].sender && v.waiters[w].receiver == s.waiters[w].receiver
    requires forall t :: t in v.threads ==> t in s.threads && v.threads[t] == s.threads[t]
    ensures Registry(v)
  {
    assert forall r :: 0 <= r < |s.records| ==> Calls(v.records[r]) == Calls(s.records[r]);
  }

  lemma SettleSleepers(s: State, ws: set<nat>, cs: CallState)
    requires WellFormed(s) && SleepersWait(s) && ws <= s.alive
    ensures WellFormed(Settle(s, ws, cs)) && SleepersWait(Settle(s, ws, cs))
  {
    var t := Settle(s, ws, cs);
    assert forall w :: w in ws ==> s.waiters[w].sender in Syncs(s, ws);
    forall x | x in t.asleep
      ensures Open(t, t.asleep[x])
    {
      assert Open(s, s.asleep[x]) && s.waiters[s.asleep[x]].sender !in Syncs(s, ws);
    }
  }

  lemma SettleInv(s: State, ws: set<nat>, cs: CallState)
    requires Inv(s) && cs != InProgress && ws <= s.alive
    ensures Inv(Settle(s, ws, cs))
  {
    hide SleepersWait, Wake, Syncs;
    var t := Settle(s, ws, cs);
    SettleSleepers(s, ws, cs);
    SameRegistry(s, t);
    assert forall w :: Open(t, w) ==> Open(s, w);
  }

  /** A new record for a thread. */
  lemma AddRegistry(s: State, t: ThreadId)
    requires Registry(s)
    ensures Registry(AddRecord(s, t))
  {
    var v := AddRecord(s, t);
    assert forall r :: 0 <= r < |s.records| ==> Calls(v.records[r]) == Calls(s.records[r]) && v.records[r] == s.records[r];
    assert Calls(v.records[|s.records|]) == {};
  }

  lemma AddInv(s: State, t: ThreadId)
    requires Inv(s)
    ensures Inv(AddRecord(s, t))
  {
    AddRegistry(s, t);
    hide Registry;
    assert forall w :: Open(AddRecord(s, t), w) <==> Open(s, w);
  }

  lemma WithThreadInv(s: State, t: ThreadId)
    requires Inv(s)
    ensures Inv(WithThread(s, t))
  {
    hide Inv;
    if t !in s.threads {
      AddInv(s, t);
    }
  }

  /** Giving up the sender's set keeps the registry. */
  lemma GiveUpRegistry(s: State, q: nat)
    requires Registry(s) && q < |s.records|
    ensures Registry(s.(records := s.records[q := s.records[q].(senderCalls := None)]))
  {
    var v := s.(records := s.records[q := s.records[q].(senderCalls := None)]);
    assert forall r :: 0 <= r < |s.records| ==> Calls(v.records[r]) == if r == q then {} else Calls(s.records[r]);
  }

  lemma SenderCallIn(s: State, w: nat)
    requires Registry(s) && w in s.alive && s.records[s.waiters[w].sender].senderCalls.Some?
    ensures w in Calls(s.records[s.waiters[w].sender])
  {
  }

  lemma CancelInv(s: State, t: ThreadId)
    requires Inv(s)
    ensures Inv(CancelFn(s, t))
  {
    if t in s.threads && s.records[s.threads[t]].senderCalls.Some? {
      var q := s.threads[t];
      var ws := Calls(s.records[q]);
      var u, v := Settle(s, ws, Canceled), CancelFn(s, t);
      SettleInv(s, ws, Canceled);
      GiveUpRegistry(u, q);
      forall w | Open(v, w)
        ensures v.records[v.waiters[w].sender].senderCalls.Some?
      {
        assert Open(s, w);
        SenderCallIn(s, w);
      }
      assert forall x :: x in u.asleep ==> Open(u, u.asleep[x]) && Open(v, u.asleep[x]);
    }
  }

  lemma FinishInv(s: State, t: ThreadId)
    requires Inv(s)
    ensures Inv(FinishFn(s, t))
  {
    if t in s.threads {
      var ws := s.records[s.threads[t]].receiverCalls;
      var u, v := Settle(s, ws, ReceiverFinished), FinishFn(s, t);
      SettleInv(s, ws, ReceiverFinished);
      SameRegistry(u, v);
      hide Registry;
      assert forall w :: Open(v, w) <==> Open(u, w);
    }
  }

  // ----- A new call ---------------------------------------------------------------------

  lemma EnterRegistry(s: State, v: State, q: nat, r: nat, c: CallWaiter)
    requires Registry(s) && q < |s.records| && r < |s.records|
    requires c.sender == q && c.receiver == r
    requires v.records == Entered(s, q, r) && v.threads == s.threads
    requires v.waiters == s.waiters + [c] && v.alive == s.alive + {|s.waiters|}
    requires forall t :: t in v.asleep ==> v.asleep[t] < |v.waiters|
    ensures Registry(v)
  {
    hide Entered;
  }

  lemma BothRecords(s0: State, from: ThreadId, to: ThreadId)
    requires Inv(s0)
    ensures var s := WithThread(WithThread(s0, to), from);
            && Inv(s) && s.waiters == s0.waiters && s.alive == s0.alive
            && from in s.threads && to in s.threads && s.threads[from] < |s.records| && s.threads[to] < |s.records|
  {
    WithThreadInv(s0, to);
    WithThreadInv(WithThread(s0, to), from);
    hide Registry, Settled, SleepersWait;
  }

  /** A new waiter in progress has the set of its sender. */
  lemma EnterInv(s: State, v: State, q: nat, r: nat)
    requires Inv(s) && q < |s.records| && r < |s.records|
    requires v.records == Entered(s, q, r) && v.threads == s.threads && v.alive == s.alive + {|s.waiters|}
    requires |v.waiters| == |s.waiters| + 1 && v.waiters == s.waiters + [v.waiters[|s.waiters|]]
    requires v.waiters[|s.waiters|].sender == q && v.waiters[|s.waiters|].receiver == r
    requires v.waiters[|s.waiters|].state == InProgress ==> s.records[q].senderCalls.Some?
    requires v.asleep == s.asleep || v.asleep == Wake(s, {q})
    ensures Inv(v)
  {
    EnterRegistry(s, v, q, r, v.waiters[|s.waiters|]);
    EnterOpen(s, v, q);
    hide Registry, Settled, SleepersWait;
  }

  lemma CallInv(s0: State, from: ThreadId, to: ThreadId)
    requires Inv(s0)
    ensures Inv(CallFn(s0, from, to))
  {
    BothRecords(s0, from, to);
    hide Inv, Wake, Entered, WithThread, Known;
    var s := WithThread(WithThread(s0, to), from);
    EnterInv(s, CallFn(s0, from, to), s.threads[from], s.threads[to]);
  }

  lemma EnterOpen(s: State, v: State, q: nat)
    requires WellFormed(s) && WellFormed(v) && Settled(s) && SleepersWait(s) && q < |s.records|
    requires |v.waiters| == |s.waiters| + 1 && v.waiters == s.waiters + [v.waiters[|s.waiters|]]
    requires v.alive == s.alive + {|s.waiters|} && v.waiters[|s.waiters|].sender == q
    requires v.waiters[|s.waiters|].state == InProgress ==> s.records[q].senderCalls.Some?
    requires |v.records| == |s.records|
    requires forall x :: 0 <= x < |s.records| ==> (v.records[x].senderCalls.Some? <==> s.records[x].senderCalls.Some?)
    requires v.asleep == s.asleep || v.asleep == Wake(s, {q})
    ensures Settled(v) && SleepersWait(v)
  {
    assert forall w :: 0 <= w < |s.waiters| ==> (Open(v, w) <==> Open(s, w));
    forall t | t in v.asleep
      ensures Open(v, v.asleep[t])
    {
      assert Open(s, s.asleep[t]);
    }
  }

  lemma DestroyRecords(s: State, w: nat)
    requires WellFormed(s) && w < |s.waiters|
    ensures var v := DestroyFn(s, w);
            forall x :: 0 <= x < |s.records| ==>
              && v.records[x].owner == s.records[x].owner
              && Calls(v.records[x]) == (if x == s.waiters[w].sender then Calls(s.records[x]) - {w} else Calls(s.records[x]))
              && v.records[x].receiverCalls
                 == (if x == s.waiters[w].receiver then s.records[x].receiverCalls - {w} else s.records[x].receiverCalls)
              && (v.records[x].senderCalls.Some? <==> s.records[x].senderCalls.Some?)
  {
  }

  lemma DestroyInv(s: State, w: nat)
    requires Inv(s) && Enabled(s, Destroy(w))
    ensures Inv(DestroyFn(s, w))
  {
    var v := DestroyFn(s, w);
    DestroyRecords(s, w);
    DestroyRegistry(s, v, w);
    hide Registry, Known, Calls;
    assert forall x :: Open(v, x) <==> Open(s, x) && x != w;
  }

  lemma DestroyRegistry(s: State, v: State, w: nat)
    requires Registry(s) && w in s.alive && v.waiters == s.waiters && v.threads == s.threads && v.asleep == s.asleep
    requires v.alive == s.alive - {w} && |v.records| == |s.records|
    requires forall x :: 0 <= x < |s.records| ==>
               && v.records[x].owner == s.records[x].owner
               && Calls(v.records[x]) == (if x == s.waiters[w].sender then Calls(s.records[x]) - {w} else Calls(s.records[x]))
               && v.records[x].receiverCalls
                  == (if x == s.waiters[w].receiver then s.records[x].receiverCalls - {w} else s.records[x].receiverCalls)
               && (v.records[x].senderCalls.Some? <==> s.records[x].senderCalls.Some?)
    ensures Registry(v)
  {
  }

  /** Only the flags, the sleepers and who is going to add threads differ. */
  lemma FlagInv(s: State, v: State)
    requires Inv(s) && WellFormed(v) && SleepersWait(v)
    requires v.waiters == s.waiters && v.threads == s.threads && v.alive == s.alive && |v.records| == |s.records|
    requires forall x :: 0 <= x < |s.records| ==>
               && v.records[x].owner == s.records[x].owner
               && v.records[x].senderCalls == s.records[x].senderCalls && v.records[x].receiverCalls == s.records[x].receiverCalls
    ensures Inv(v)
  {
    assert forall x :: 0 <= x < |s.records| ==> Calls(v.records[x]) == Calls(s.records[x]);
    hide Calls;
    assert forall w :: Open(v, w) <==> Open(s, w);
  }

  lemma IncomingInv(s: State, r: nat)
    requires Inv(s) && r < |s.records|
    ensures Inv(IncomingFn(s, r))
  {
    hide Registry, Settled;
    var v := IncomingFn(s, r);
    assert forall w :: Open(v, w) <==> Open(s, w);
    FlagInv(s, v);
  }

  lemma LookInv(s: State, t: ThreadId, w: nat)
    requires Inv(s) && w in s.alive
    ensures Inv(LookFn(s, t, w))
  {
    hide Registry, Settled;
    var v := LookFn(s, t, w);
    assert forall x :: Open(v, x) <==> Open(s, x);
    FlagInv(s, v);
  }

  lemma FewerSleepers(s: State, v: State)
    requires Inv(s) && v == s.(asleep := v.asleep, adding := v.adding)
    requires forall t :: t in v.asleep ==> t in s.asleep && v.asleep[t] == s.asleep[t]
    ensures Inv(v)
  {
    hide Registry, Settled;
    assert forall x :: Open(v, x) <==> Open(s, x);
    FlagInv(s, v);
  }

  /** Every step keeps the registry exact, leaves no call of a sender that gave up its set in
      progress, and no sleeper on a settled call. */
  lemma InvStep(s: State, a: Action)
    requires Inv(s) && Enabled(s, a)
    ensures Inv(Next(s, a))
  {
    hide Registry, Settled, SleepersWait;
    match a {
      case Check(t) => FewerSleepers(s, Next(s, a));
      case Insert(t) =>
        AddInv(s, t);
        FewerSleepers(AddRecord(s, t), Next(s, a));
      case CallFrom(from, to) => CallInv(s, from, to);
      case Incoming(r) => IncomingInv(s, r);
      case Cancel(t) => CancelInv(s, t);
      case Finish(t) => FinishInv(s, t);
      case CallDone(w) => SettleInv(s, {w}, Done);
      case Destroy(w) => DestroyInv(s, w);
      case Look(t, w) => LookInv(s, t, w);
      case Spurious(t) => FewerSleepers(s, Next(s, a));
    }
  }

  // ----- What a step does to records and calls -----------------------------------------

  /** The record that its owner has now. */
  predicate HasThread(s: State, r: nat) {
    r < |s.records| && s.records[r].owner in s.threads && s.threads[s.records[r].owner] == r
  }

  predicate IsRecord(s: State, t: ThreadId, r: nat) {
    t in s.threads && s.threads[t] == r
  }

  /** The action takes the record of the thread away. */
  predicate Loses(a: Action, t: ThreadId) {
    (a.Insert? || a.Finish?) && a.t == t
  }

  lemma RecordKept(s: State, a: Action, r: nat)
    requires Enabled(s, a) && r < |s.records| && !a.CallFrom?
    ensures r < |Next(s, a).records| && Next(s, a).records[r].owner == s.records[r].owner
    ensures Next(s, a).records[r].senderCalls.None? <==> s.records[r].senderCalls.None? || (a.Cancel? && IsRecord(s, a.t, r))
  {
    hide Settle, Wake, Syncs;
    if a.Destroy? {
      hide DestroyFn;
      DestroyRecords(s, a.w);
    }
  }

  lemma ThreadsKept(s: State, a: Action)
    requires Enabled(s, a) && !a.CallFrom?
    ensures Next(s, a).threads
            == if a.Insert? then s.threads[a.t := |s.records|] else if a.Finish? then s.threads - {a.t} else s.threads
  {
    hide Settle, Wake, Syncs;
  }

  /** Records stay, with their owners, and a record that its owner does not have is never
      given to it again. */
  lemma RecordStep(s: State, a: Action, r: nat)
    requires Inv(s) && Enabled(s, a) && r < |s.records|
    ensures r < |Next(s, a).records| && Next(s, a).records[r].owner == s.records[r].owner
    ensures s.records[r].senderCalls.None? ==> Next(s, a).records[r].senderCalls.None?
    ensures HasThread(Next(s, a), r) <==> HasThread(s, r) && !Loses(a, s.records[r].owner)
  {
    hide Settled, SleepersWait;
    if a.CallFrom? {
      hide Registry;
      CallRecord(s, a.from, a.to, r);
      hide CallFn;
    } else {
      RecordKept(s, a, r);
      ThreadsKept(s, a);
      hide Next, Enabled;
    }
  }

  lemma CallRecord(s: State, from: ThreadId, to: ThreadId, r: nat)
    requires WellFormed(s) && r < |s.records|
    ensures var v := CallFn(s, from, to);
            && r < |v.records| && v.records[r].owner == s.records[r].owner
            && (v.records[r].senderCalls.Some? <==> s.records[r].senderCalls.Some?)
            && (HasThread(v, r) <==> HasThread(s, r))
  {
    hide Wake, Entered;
    var u := WithThread(WithThread(s, to), from);
    assert u.records[r] == s.records[r];
  }

  /** The open calls that the action does not settle or destroy. */
  ghost predicate StaysOpen(s: State, a: Action, w: int) {
    && Open(s, w)
    && (a.Cancel? ==> !IsRecord(s, a.t, s.waiters[w].sender))
    && (a.Finish? ==> !IsRecord(s, a.t, s.waiters[w].receiver))
    && (a.CallDone? || a.Destroy? ==> a.w != w)
  }

  lemma OpenAfterCall(s: State, from: ThreadId, to: ThreadId, w: nat)
    requires WellFormed(s) && w < |s.waiters|
    ensures w < |CallFn(s, from, to).waiters| && CallFn(s, from, to).waiters[w] == s.waiters[w]
    ensures Open(CallFn(s, from, to), w) <==> Open(s, w)
  {
    hide Wake, Entered;
  }

  lemma OpenAfterOther(s: State, a: Action, w: nat)
    requires Enabled(s, a) && w < |s.waiters| && !a.CallFrom? && !a.Cancel? && !a.Finish?
    ensures w < |Next(s, a).waiters| && Next(s, a).waiters[w] == s.waiters[w].(state := Next(s, a).waiters[w].state)
    ensures Next(s, a).waiters[w].state == InProgress ==> s.waiters[w].state == InProgress
    ensures Open(Next(s, a), w) <==> Open(s, w) && (a.CallDone? || a.Destroy? ==> a.w != w)
  {
    hide Wake, Syncs;
  }

  lemma OpenAfterCancel(s: State, t: ThreadId, w: nat)
    requires Inv(s) && w < |s.waiters|
    ensures var v := CancelFn(s, t);
            && w < |v.waiters| && v.waiters[w] == s.waiters[w].(state := v.waiters[w].state)
            && (v.waiters[w].state == InProgress ==> s.waiters[w].state == InProgress)
            && (Open(v, w) <==> Open(s, w) && !IsRecord(s, t, s.waiters[w].sender))
  {
    hide SleepersWait, Wake, Syncs;
  }

  lemma OpenAfterFinish(s: State, t: ThreadId, w: nat)
    requires Inv(s) && w < |s.waiters|
    ensures var v := FinishFn(s, t);
            && w < |v.waiters| && v.waiters[w] == s.waiters[w].(state := v.waiters[w].state)
            && (v.waiters[w].state == InProgress ==> s.waiters[w].state == InProgress)
            && (Open(v, w) <==> Open(s, w) && !IsRecord(s, t, s.waiters[w].receiver))
  {
    hide SleepersWait, Settled, Wake, Syncs;
  }

  /** A call is settled by its end, by a cancel of the thread that has the sender's record and
      by the end of the thread that has the receiver's, and by nothing else. */
  lemma OpenStep(s: State, a: Action, w: nat)
    requires Inv(s) && Enabled(s, a) && w < |s.waiters|
    ensures w < |Next(s, a).waiters| && Next(s, a).waiters[w] == s.waiters[w].(state := Next(s, a).waiters[w].state)
    ensures Open(Next(s, a), w) <==> StaysOpen(s, a, w)
    ensures Next(s, a).waiters[w].state == InProgress ==> s.waiters[w].state == InProgress
  {
    match a {
      case Cancel(t) =>
        OpenAfterCancel(s, t, w);
        hide Inv, CancelFn;
      case Finish(t) =>
        OpenAfterFinish(s, t, w);
        hide Inv, FinishFn;
      case CallFrom(from, to) =>
        OpenAfterCall(s, from, to, w);
        hide Inv, CallFn;
      case _ =>
        OpenAfterOther(s, a, w);
        hide Inv, Next, Enabled;
    }
  }

  /** The sender has given up its set of calls. */
  predicate Refuses(s: State, t: ThreadId)
    requires WellFormed(s)
  {
    t in s.threads && s.records[s.threads[t]].senderCalls.None?
  }

  /** What state a call has after a step: its own end makes it done, a cancel of the thread
      that has its sender's record makes it canceled if the record has not given up its set,
      the end of the thread that has its receiver's record makes it finished with the
      receiver, and nothing else changes it. */
  lemma StateStep(s: State, a: Action, w: nat)
    requires Inv(s) && Enabled(s, a) && w < |s.waiters|
    ensures w < |Next(s, a).waiters|
    ensures Next(s, a).waiters[w].state ==
              if a == CallDone(w) then Done
              else if a.Cancel? && w in s.alive && IsRecord(s, a.t, s.waiters[w].sender) && !Refuses(s, a.t) then Canceled
              else if a.Finish? && w in s.alive && IsRecord(s, a.t, s.waiters[w].receiver) then ReceiverFinished
              else s.waiters[w].state
  {
    match a {
      case Cancel(t) => CancelState(s, t, w);
      case Finish(t) => FinishState(s, t, w);
      case CallFrom(from, to) => OpenAfterCall(s, from, to, w);
      case _ => hide Inv, Wake, Syncs;
    }
  }

  /** The condition of the record is notified. */
  ghost predicate Notified(s: State, a: Action, q: nat)
    requires WellFormed(s)
  {
    match a
    case Incoming(r) => q == r
    case CallDone(w) => w < |s.waiters| && s.waiters[w].sender == q
    case Cancel(t) => IsRecord(s, t, q) && exists w :: w in s.alive && s.waiters[w].sender == q && !Refuses(s, t)
    case Finish(t) => exists w :: w in s.alive && s.waiters[w].sender == q && IsRecord(s, t, s.waiters[w].receiver)
    case CallFrom(from, _) => IsRecord(s, from, q) && Refuses(s, from)
    case _ => false
  }

  /** A thread that looks at its call sleeps exactly when the call is in progress and nothing
      has come in; it takes the word of what came in exactly when it goes on waiting. A
      sleeper sleeps until its condition is notified. */
  lemma SleepStep(s: State, a: Action, x: ThreadId)
    requires Inv(s) && Enabled(s, a)
    ensures x in Next(s, a).asleep <==>
            if a.Look? && a.t == x
            then s.waiters[a.w].state == InProgress && !s.records[s.waiters[a.w].sender].processIncoming
            else x in s.asleep && a != Spurious(x) && !Notified(s, a, s.waiters[s.asleep[x]].sender)
    ensures x in Next(s, a).asleep ==> Next(s, a).asleep[x] == if a.Look? && a.t == x then a.w else s.asleep[x]
    ensures a.Look? ==>
              Next(s, a).records[s.waiters[a.w].sender].processIncoming
              == (s.records[s.waiters[a.w].sender].processIncoming && s.waiters[a.w].state != InProgress)
    ensures a.Incoming? ==> Next(s, a).records[a.r].processIncoming
  {
    match a {
      case CallFrom(from, to) =>
        SleepCall(s, from, to, x);
        hide CallFn, Inv, Notified;
      case Cancel(t) =>
        CancelNotifies(s, t);
        hide CancelFn, Inv, Notified;
      case Finish(t) =>
        FinishNotifies(s, t);
        hide FinishFn, Inv, Notified;
      case CallDone(w) =>
        DoneNotifies(s, w, x);
        hide DoneFn, Inv, Notified;
      case _ => hide Inv, Settle, Syncs;
    }
  }

  lemma SleepCall(s: State, from: ThreadId, to: ThreadId, x: ThreadId)
    requires Inv(s)
    ensures var v := CallFn(s, from, to);
            && (x in v.asleep <==> x in s.asleep && !Notified(s, CallFrom(from, to), s.waiters[s.asleep[x]].sender))
            && (x in v.asleep ==> v.asleep[x] == s.asleep[x])
  {
    hide Settled, SleepersWait, Entered, Registry;
  }

  lemma DoneNotifies(s: State, w: nat, x: ThreadId)
    requires Inv(s) && w < |s.waiters|
    ensures var v := DoneFn(s, w);
            && (x in v.asleep <==> x in s.asleep && !Notified(s, CallDone(w), s.waiters[s.asleep[x]].sender))
            && (x in v.asleep ==> v.asleep[x] == s.asleep[x])
  {
    hide Settled, SleepersWait, Registry;
  }

  lemma CancelNotifies(s: State, t: ThreadId)
    requires Inv(s)
    ensures forall x :: x in CancelFn(s, t).asleep <==> x in s.asleep && !Notified(s, Cancel(t), s.waiters[s.asleep[x]].sender)
    ensures forall x :: x in CancelFn(s, t).asleep ==> CancelFn(s, t).asleep[x] == s.asleep[x]
  {
    hide Settled, SleepersWait;
  }

  lemma FinishNotifies(s: State, t: ThreadId)
    requires Inv(s)
    ensures forall x :: x in FinishFn(s, t).asleep <==> x in s.asleep && !Notified(s, Finish(t), s.waiters[s.asleep[x]].sender)
    ensures forall x :: x in FinishFn(s, t).asleep ==> FinishFn(s, t).asleep[x] == s.asleep[x]
  {
    hide Settled, SleepersWait;
  }

  lemma CancelState(s: State, t: ThreadId, w: nat)
    requires Inv(s) && w < |s.waiters|
    ensures CancelFn(s, t).waiters[w].state ==
              if w in s.alive && IsRecord(s, t, s.waiters[w].sender) && !Refuses(s, t) then Canceled else s.waiters[w].state
  {
    hide SleepersWait, Settled, Wake, Syncs;
  }

  lemma FinishState(s: State, t: ThreadId, w: nat)
    requires Inv(s) && w < |s.waiters|
    ensures FinishFn(s, t).waiters[w].state ==
              if w in s.alive && IsRecord(s, t, s.waiters[w].receiver) then ReceiverFinished else s.waiters[w].state
  {
    hide SleepersWait, Settled, Wake, Syncs;
  }

  /** A new call is in progress exactly when its sender does not refuse, and both its threads
      have its records. */
  lemma CallStep(s: State, from: ThreadId, to: ThreadId)
    requires Inv(s)
    ensures var v, w := CallFn(s, from, to), |s.waiters|;
            && |v.waiters| == w + 1 && WellFormed(v)
            && v.waiters[w].state == (if Refuses(s, from) then Canceled else InProgress) && w in v.alive
            && HasThread(v, v.waiters[w].sender) && v.records[v.waiters[w].sender].owner == from
            && HasThread(v, v.waiters[w].receiver) && v.records[v.waiters[w].receiver].owner == to
  {
    CallInv(s, from, to);
    BothRecords(s, from, to);
    var u := WithThread(WithThread(s, to), from);
    assert Refuses(u, from) <==> Refuses(s, from);
    assert u.records[u.threads[from]].owner == from && u.records[u.threads[to]].owner == to;
    hide Inv, WithThread, Entered, Wake;
  }

  lemma OtherSteps(s: State, a: Action)
    requires Enabled(s, a) && !a.CallFrom?
    ensures |Next(s, a).waiters| == |s.waiters| && Next(s, a).alive <= s.alive
  {
    hide Wake, Syncs;
  }

  lemma CallsKept(s: State, a: Action)
    requires Inv(s) && Enabled(s, a)
    ensures |s.waiters| <= |Next(s, a).waiters|
    ensures forall w :: 0 <= w < |s.waiters| ==>
              && Next(s, a).waiters[w].sender == s.waiters[w].sender && Next(s, a).waiters[w].receiver == s.waiters[w].receiver
              && (Open(Next(s, a), w) <==> StaysOpen(s, a, w))
  {
    if |s.waiters| > 0 {
      OpenStep(s, a, |s.waiters| - 1);
    }
    forall w | 0 <= w < |s.waiters|
      ensures Next(s, a).waiters[w].sender == s.waiters[w].sender && Next(s, a).waiters[w].receiver == s.waiters[w].receiver
      ensures Open(Next(s, a), w) <==> StaysOpen(s, a, w)
    {
      OpenStep(s, a, w);
    }
  }

  lemma RecordsKept(s: State, a: Action)
    requires Inv(s) && Enabled(s, a)
    ensures |s.records| <= |Next(s, a).records|
    ensures forall r :: 0 <= r < |s.records| ==> (HasThread(Next(s, a), r) <==> HasThread(s, r) && !Loses(a, s.records[r].owner))
  {
    if |s.records| > 0 {
      RecordStep(s, a, |s.records| - 1);
    }
    forall r | 0 <= r < |s.records|
      ensures HasThread(Next(s, a), r) <==> HasThread(s, r) && !Loses(a, s.records[r].owner)
    {
      RecordStep(s, a, r);
    }
  }

  lemma NewCalls(s: State, a: Action)
    requires Inv(s) && Enabled(s, a)
    ensures forall w :: |s.waiters| <= w && Open(Next(s, a), w) ==>
              HasThread(Next(s, a), Next(s, a).waiters[w].sender) && HasThread(Next(s, a), Next(s, a).waiters[w].receiver)
  {
    if a.CallFrom? {
      CallStep(s, a.from, a.to);
      hide CallFn;
    } else {
      OtherSteps(s, a);
      hide Next;
    }
    hide Enabled, Inv;
  }

  // ----- The end of a thread ------------------------------------------------------------

  /** Every call in progress is known to the record that its receiver has. */
  ghost predicate Received(s: State) {
    WellFormed(s) && forall w :: Open(s, w) ==> HasThread(s, s.waiters[w].receiver)
  }

  /** An insertion finds no record, or one to which no call is in progress. */
  ghost predicate ReceiverFree(s: State, a: Action) {
    a.Insert? ==> forall w :: Open(s, w) ==> !IsRecord(s, a.t, s.waiters[w].receiver)
  }

  /** Only the insertion of a thread can break it, and does exactly when it overwrites the
      record of a receiver. */
  lemma ReceivedStep(s: State, a: Action)
    requires Inv(s) && Enabled(s, a) && Received(s)
    ensures Received(Next(s, a)) <==> ReceiverFree(s, a)
  {
    InvStep(s, a);
    CallsKept(s, a);
    RecordsKept(s, a);
    NewCalls(s, a);
    hide Next, Enabled, Registry, Known, Settled, SleepersWait;
    if !ReceiverFree(s, a) {
      var w :| Open(s, w) && IsRecord(s, a.t, s.waiters[w].receiver);
      assert Open(Next(s, a), w);
    }
  }

  /** No call to the thread is in progress. */
  ghost predicate NoneTo(s: State, t: ThreadId) {
    WellFormed(s) && forall w :: Open(s, w) ==> s.records[s.waiters[w].receiver].owner != t
  }

  /** Whichever thread ends now, no call to it stays in progress. */
  ghost predicate EndSettles(s: State) {
    Known(s) && forall t :: NoneTo(FinishFn(s, t), t)
  }

  lemma FinishMeans(s: State)
    requires Inv(s)
    ensures EndSettles(s) <==> Received(s)
  {
    forall t
      ensures NoneTo(FinishFn(s, t), t)
              <==> forall w :: Open(s, w) && s.records[s.waiters[w].receiver].owner == t ==> HasThread(s, s.waiters[w].receiver)
    {
      FinishInv(s, t);
      FinishOpen(s, t);
      hide FinishFn, Inv;
    }
    if !Received(s) {
      var w :| Open(s, w) && !HasThread(s, s.waiters[w].receiver);
      var t := s.records[s.waiters[w].receiver].owner;
      assert !NoneTo(FinishFn(s, t), t);
    }
  }

  lemma FinishOpen(s: State, t: ThreadId)
    requires Inv(s)
    ensures var v := FinishFn(s, t);
            && v.records == s.records && |v.waiters| == |s.waiters|
            && forall w :: 0 <= w < |s.waiters| ==>
                 && v.waiters[w].receiver == s.waiters[w].receiver
                 && (Open(v, w) <==> Open(s, w) && !IsRecord(s, t, s.waiters[w].receiver))
  {
    forall w | 0 <= w < |s.waiters|
      ensures Open(FinishFn(s, t), w) <==> Open(s, w) && !IsRecord(s, t, s.waiters[w].receiver)
    {
      assert Enabled(s, Finish(t)) && Next(s, Finish(t)) == FinishFn(s, t);
      OpenStep(s, Finish(t), w);
    }
  }

  // ----- Cancellation -------------------------------------------------------------------

  /** Every call in progress is known to the record that its sender has. */
  ghost predicate Sent(s: State) {
    WellFormed(s) && forall w :: Open(s, w) ==> HasThread(s, s.waiters[w].sender)
  }

  /** An insertion finds no record, or one of which no call is in progress; a thread ends
      without calls in progress to others. */
  ghost predicate SenderFree(s: State, a: Action) {
    a.Insert? || a.Finish? ==>
      forall w :: Open(s, w) && IsRecord(s, a.t, s.waiters[w].sender) ==> a.Finish? && IsRecord(s, a.t, s.waiters[w].receiver)
  }

  lemma SentStep(s: State, a: Action)
    requires Inv(s) && Enabled(s, a) && Sent(s)
    ensures Sent(Next(s, a)) <==> SenderFree(s, a)
  {
    InvStep(s, a);
    CallsKept(s, a);
    RecordsKept(s, a);
    NewCalls(s, a);
    hide Next, Enabled, Known, Settled, SleepersWait;
    if !SenderFree(s, a) {
      var w :| Open(s, w) && IsRecord(s, a.t, s.waiters[w].sender) && (a.Finish? ==> !IsRecord(s, a.t, s.waiters[w].receiver));
      assert Open(Next(s, a), w);
    }
  }

  /** No call from the thread is in progress. */
  ghost predicate NoneFrom(s: State, t: ThreadId) {
    WellFormed(s) && forall w :: Open(s, w) ==> s.records[s.waiters[w].sender].owner != t
  }

  /** Whichever thread is canceled now, no call from it stays in progress. */
  ghost predicate CancelSettlesAll(s: State) {
    Known(s) && forall t :: NoneFrom(CancelFn(s, t), t)
  }

  lemma CancelMeans(s: State)
    requires Inv(s)
    ensures CancelSettlesAll(s) <==> Sent(s)
  {
    forall t
      ensures NoneFrom(CancelFn(s, t), t)
              <==> forall w :: Open(s, w) && s.records[s.waiters[w].sender].owner == t ==> HasThread(s, s.waiters[w].sender)
    {
      CancelInv(s, t);
      CancelOpen(s, t);
      hide CancelFn, Inv;
    }
    if !Sent(s) {
      var w :| Open(s, w) && !HasThread(s, s.waiters[w].sender);
      var t := s.records[s.waiters[w].sender].owner;
      assert !NoneFrom(CancelFn(s, t), t);
    }
  }

  lemma CancelOpen(s: State, t: ThreadId)
    requires Inv(s)
    ensures var v := CancelFn(s, t);
            && |v.records| == |s.records| && |v.waiters| == |s.waiters|
            && (forall r :: 0 <= r < |s.records| ==> v.records[r].owner == s.records[r].owner)
            && forall w :: 0 <= w < |s.waiters| ==>
                 && v.waiters[w].sender == s.waiters[w].sender
                 && (Open(v, w) <==> Open(s, w) && !IsRecord(s, t, s.waiters[w].sender))
  {
    forall w | 0 <= w < |s.waiters|
      ensures Open(CancelFn(s, t), w) <==> Open(s, w) && !IsRecord(s, t, s.waiters[w].sender)
    {
      assert Enabled(s, Cancel(t)) && Next(s, Cancel(t)) == CancelFn(s, t);
      OpenStep(s, Cancel(t), w);
    }
  }

  lemma RefusesCall(s: State, from: ThreadId, to: ThreadId, t: ThreadId)
    requires WellFormed(s) && WellFormed(CallFn(s, from, to))
    ensures Refuses(CallFn(s, from, to), t) <==> Refuses(s, t)
  {
    var u := WithThread(WithThread(s, to), from);
    assert WellFormed(u);
    assert Refuses(u, t) <==> Refuses(s, t);
    hide Entered, Wake, WithThread;
  }

  lemma RefusesOther(s: State, a: Action, t: ThreadId)
    requires Inv(s) && Enabled(s, a) && !a.CallFrom? && t in s.threads
    ensures WellFormed(Next(s, a))
    ensures Refuses(Next(s, a), t) <==> (Refuses(s, t) && !Loses(a, t)) || (a == Cancel(t) && t in s.threads)
  {
    InvStep(s, a);
    RecordKept(s, a, s.threads[t]);
    ThreadsKept(s, a);
    if a.Insert? {
      assert Next(s, a).records[|s.records|].senderCalls.Some?;
    }
    hide Next, Enabled, Settled, SleepersWait;
  }

  /** A thread refuses from a cancel that finds its record until the record goes. */
  lemma RefusesStep(s: State, a: Action, t: ThreadId)
    requires Inv(s) && Enabled(s, a)
    ensures WellFormed(Next(s, a))
    ensures Refuses(Next(s, a), t) <==> (Refuses(s, t) && !Loses(a, t)) || (a == Cancel(t) && t in s.threads)
  {
    InvStep(s, a);
    hide Inv, Wake, Syncs, Settle;
    if a.CallFrom? {
      RefusesCall(s, a.from, a.to, t);
    } else if t in s.threads {
      RefusesOther(s, a, t);
    }
  }

  // ----- Runs -----------------------------------------------------------------------------

  ghost predicate IsRun(ss: seq<State>, acts: seq<Action>) {
    && |ss| == |acts| + 1 && ss[0] == START
    && forall i :: 0 <= i < |acts| ==> Enabled(ss[i], acts[i]) && ss[i + 1] == Next(ss[i], acts[i])
  }

  lemma {:induction false} InvAlways(ss: seq<State>, acts: seq<Action>, i: nat)
    requires IsRun(ss, acts) && i <= |acts|
    ensures |ss| == |acts| + 1 && Inv(ss[i])
  {
    if i > 0 {
      hide Inv, Enabled, Next;
      InvAlways(ss, acts, i - 1);
      InvStep(ss[i - 1], acts[i - 1]);
    }
  }

  lemma StepOf(ss: seq<State>, acts: seq<Action>, i: nat)
    requires IsRun(ss, acts) && i < |acts|
    ensures |ss| == |acts| + 1 && Inv(ss[i]) && Enabled(ss[i], acts[i]) && ss[i + 1] == Next(ss[i], acts[i])
  {
    hide Inv, Enabled, Next;
    InvAlways(ss, acts, i);
  }

  lemma {:induction false} RecordLater(ss: seq<State>, acts: seq<Action>, i: nat, j: nat, r: nat)
    requires IsRun(ss, acts) && i <= j <= |acts| && r < |ss[i].records|
    ensures r < |ss[j].records| && ss[j].records[r].owner == ss[i].records[r].owner
    ensures ss[i].records[r].senderCalls.None? ==> ss[j].records[r].senderCalls.None?
    ensures HasThread(ss[j], r) ==> HasThread(ss[i], r)
  {
    hide IsRun, Inv, Enabled, Next, HasThread;
    if i < j {
      StepOf(ss, acts, j - 1);
      RecordLater(ss, acts, i, j - 1, r);
      RecordStep(ss[j - 1], acts[j - 1], r);
    }
  }

  /** Cancellation settles every call of a record: once its set of sent calls is given up, no
      call from it is in progress, ever again, whenever it was made. */
  lemma CancelSettles(ss: seq<State>, acts: seq<Action>, i: nat, j: nat, r: nat, w: nat)
    requires IsRun(ss, acts) && i <= j <= |acts| && r < |ss[i].records| && ss[i].records[r].senderCalls.None?
    requires w < |ss[j].waiters| && ss[j].waiters[w].sender == r
    ensures !Open(ss[j], w)
  {
    hide IsRun, Enabled, Next;
    RecordLater(ss, acts, i, j, r);
    InvAlways(ss, acts, j);
  }

  /** Whenever a thread is canceled, every call it has made so far is settled: if and only if
      no insertion overwrites the record of a sender and no thread ends with calls to others
      in progress. */
  lemma CancelReaches(ss: seq<State>, acts: seq<Action>)
    requires IsRun(ss, acts)
    ensures (forall i :: 0 <= i <= |acts| ==> CancelSettlesAll(ss[i])) <==> (forall i :: 0 <= i < |acts| ==> SenderFree(ss[i], acts[i]))
  {
    hide IsRun, Inv, Enabled, Next, CancelSettlesAll, Sent, SenderFree;
    InvAlways(ss, acts, 0);
    forall i | 0 <= i <= |acts|
      ensures CancelSettlesAll(ss[i]) <==> Sent(ss[i])
    {
      InvAlways(ss, acts, i);
      CancelMeans(ss[i]);
    }
    SentAlways(ss, acts);
  }

  lemma SentAlways(ss: seq<State>, acts: seq<Action>)
    requires IsRun(ss, acts)
    ensures (forall i :: 0 <= i <= |acts| ==> Sent(ss[i])) <==> (forall i :: 0 <= i < |acts| ==> SenderFree(ss[i], acts[i]))
  {
    hide IsRun, Inv, Enabled, Next, SenderFree, Sent;
    InvAlways(ss, acts, 0);
    if forall i :: 0 <= i <= |acts| ==> Sent(ss[i]) {
      forall i | 0 <= i < |acts|
        ensures SenderFree(ss[i], acts[i])
      {
        StepOf(ss, acts, i);
        SentStep(ss[i], acts[i]);
      }
    }
    if forall i :: 0 <= i < |acts| ==> SenderFree(ss[i], acts[i]) {
      forall i | 0 <= i <= |acts|
        ensures Sent(ss[i])
      {
        SentUntil(ss, acts, i);
      }
    }
  }

  lemma {:induction false} SentUntil(ss: seq<State>, acts: seq<Action>, n: nat)
    requires IsRun(ss, acts) && n <= |acts|
    requires forall i :: 0 <= i < n ==> SenderFree(ss[i], acts[i])
    ensures Sent(ss[n])
  {
    if n == 0 {
      InvAlways(ss, acts, 0);
      assert ss[0] == START;
    } else {
      hide IsRun, Inv, Enabled, Next, SenderFree, Sent;
      StepOf(ss, acts, n - 1);
      SentUntil(ss, acts, n - 1);
      SentStep(ss[n - 1], acts[n - 1]);
    }
  }

  /** After a cancel all new calls of the thread are canceled at once: as long as, and only if,
      the cancel found a record and the record was not taken away. */
  lemma {:induction false} CancelDisables(ss: seq<State>, acts: seq<Action>, i: nat, j: nat, t: ThreadId)
    requires IsRun(ss, acts) && i < j <= |acts| && acts[i] == Cancel(t)
    ensures forall k :: i < k <= j ==> WellFormed(ss[k])
    ensures (forall k :: i < k <= j ==> Refuses(ss[k], t))
            <==> t in ss[i].threads && forall k :: i < k < j ==> !Loses(acts[k], t)
  {
    hide IsRun, Inv, Enabled, Next, Refuses, WellFormed;
    StepOf(ss, acts, i);
    StepOf(ss, acts, j - 1);
    RefusesStep(ss[j - 1], acts[j - 1], t);
    if i + 1 < j {
      CancelDisables(ss, acts, i, j - 1, t);
      assert Refuses(ss[j], t) ==> !Loses(acts[j - 1], t);
    } else {
      RefusesFinds(ss[i], t);
    }
  }

  lemma RefusesFinds(s: State, t: ThreadId)
    requires Inv(s)
    ensures Refuses(s, t) ==> t in s.threads
  {
  }

  /** Whenever a thread ends, every call to it that was made so far is settled: if and only if
      no insertion overwrites the record of a receiver. */
  lemma FinishSettles(ss: seq<State>, acts: seq<Action>)
    requires IsRun(ss, acts)
    ensures (forall i :: 0 <= i <= |acts| ==> EndSettles(ss[i])) <==> (forall i :: 0 <= i < |acts| ==> ReceiverFree(ss[i], acts[i]))
  {
    hide IsRun, Inv, Enabled, Next, EndSettles, Received, ReceiverFree;
    InvAlways(ss, acts, 0);
    forall i | 0 <= i <= |acts|
      ensures EndSettles(ss[i]) <==> Received(ss[i])
    {
      InvAlways(ss, acts, i);
      FinishMeans(ss[i]);
    }
    ReceivedAlways(ss, acts);
  }

  lemma ReceivedAlways(ss: seq<State>, acts: seq<Action>)
    requires IsRun(ss, acts)
    ensures (forall i :: 0 <= i <= |acts| ==> Received(ss[i])) <==> (forall i :: 0 <= i < |acts| ==> ReceiverFree(ss[i], acts[i]))
  {
    hide IsRun, Inv, Enabled, Next, ReceiverFree, Received;
    InvAlways(ss, acts, 0);
    if forall i :: 0 <= i <= |acts| ==> Received(ss[i]) {
      forall i | 0 <= i < |acts|
        ensures ReceiverFree(ss[i], acts[i])
      {
        StepOf(ss, acts, i);
        ReceivedStep(ss[i], acts[i]);
      }
    }
    if forall i :: 0 <= i < |acts| ==> ReceiverFree(ss[i], acts[i]) {
      forall i | 0 <= i <= |acts|
        ensures Received(ss[i])
      {
        ReceivedUntil(ss, acts, i);
      }
    }
  }

  lemma {:induction false} ReceivedUntil(ss: seq<State>, acts: seq<Action>, n: nat)
    requires IsRun(ss, acts) && n <= |acts|
    requires forall i :: 0 <= i < n ==> ReceiverFree(ss[i], acts[i])
    ensures Received(ss[n])
  {
    if n == 0 {
      InvAlways(ss, acts, 0);
      assert ss[0] == START;
    } else {
      hide IsRun, Inv, Enabled, Next, ReceiverFree, Received;
      StepOf(ss, acts, n - 1);
      ReceivedUntil(ss, acts, n - 1);
      ReceivedStep(ss[n - 1], acts[n - 1]);
    }
  }

  /** The action makes a record for the thread, unless it has one. */
  predicate Makes(a: Action, t: ThreadId) {
    (a.Insert? && a.t == t) || (a.CallFrom? && (a.from == t || a.to == t))
  }

  /** Nobody makes a record for the thread between a moment when it has none and the
      insertion. */
  ghost predicate AddsAlone(ss: seq<State>, acts: seq<Action>, j: nat)
    requires |acts| < |ss| && j < |acts|
  {
    acts[j].Insert? ==>
      exists i :: 0 <= i <= j && acts[j].t !in ss[i].threads && forall k :: i <= k < j ==> !Makes(acts[k], acts[j].t)
  }

  lemma {:induction false} AbsentStays(ss: seq<State>, acts: seq<Action>, i: nat, j: nat, t: ThreadId)
    requires IsRun(ss, acts) && i <= j <= |acts| && t !in ss[i].threads
    requires forall k :: i <= k < j ==> !Makes(acts[k], t)
    ensures t !in ss[j].threads
  {
    hide IsRun, Inv, Enabled, Next, Makes;
    if i < j {
      StepOf(ss, acts, j - 1);
      AbsentStays(ss, acts, i, j - 1, t);
      AbsentStep(ss[j - 1], acts[j - 1], t);
    }
  }

  lemma AbsentStep(s: State, a: Action, t: ThreadId)
    requires Enabled(s, a) && t !in s.threads && !Makes(a, t)
    ensures t !in Next(s, a).threads
  {
    hide Wake, Syncs, Entered;
  }

  /** What callers can do: add each thread from one place, before anybody calls it or calls
      from it. Then no record is ever overwritten, and the end of a thread settles every call
      to it. */
  lemma AddedAlone(ss: seq<State>, acts: seq<Action>)
    requires IsRun(ss, acts) && forall j :: 0 <= j < |acts| ==> AddsAlone(ss, acts, j)
    ensures forall j :: 0 <= j < |acts| && acts[j].Insert? ==> acts[j].t !in ss[j].threads
    ensures forall i :: 0 <= i <= |acts| ==> EndSettles(ss[i])
  {
    hide IsRun, Inv, Enabled, Next, Makes, EndSettles;
    InvAlways(ss, acts, 0);
    forall j | 0 <= j < |acts| && acts[j].Insert?
      ensures acts[j].t !in ss[j].threads
    {
      assert AddsAlone(ss, acts, j);
      var i :| 0 <= i <= j && acts[j].t !in ss[i].threads && forall k :: i <= k < j ==> !Makes(acts[k], acts[j].t);
      AbsentStays(ss, acts, i, j, acts[j].t);
    }
    FinishSettles(ss, acts);
  }

  /** No call to the record is in progress. */
  ghost predicate NoneOn(s: State, r: nat) {
    forall w :: Open(s, w) ==> s.waiters[w].receiver != r
  }

  /** Where a record goes by the end of its thread no call to it is in progress, ever again;
      where it is overwritten that is so exactly when there was none. */
  lemma {:induction false} RecordGone(ss: seq<State>, acts: seq<Action>, i: nat, j: nat, r: nat)
    requires IsRun(ss, acts) && i < j <= |acts| && HasThread(ss[i], r) && !HasThread(ss[i + 1], r)
    ensures acts[i].Finish? || acts[i].Insert?
    ensures (forall k :: i < k <= j ==> NoneOn(ss[k], r)) <==> (acts[i].Insert? ==> NoneOn(ss[i], r))
  {
    hide IsRun, Inv, Enabled, Next, HasThread, NoneOn;
    StepOf(ss, acts, i);
    RecordGoes(ss[i], acts[i], r);
    if i + 1 < j {
      RecordGone(ss, acts, i, j - 1, r);
      StepOf(ss, acts, j - 1);
      RecordLater(ss, acts, i + 1, j, r);
      if NoneOn(ss[j - 1], r) {
        NoneLater(ss[j - 1], acts[j - 1], r);
      }
    }
  }

  lemma RecordGoes(s: State, a: Action, r: nat)
    requires Inv(s) && Enabled(s, a) && HasThread(s, r) && !HasThread(Next(s, a), r)
    ensures a.Finish? || a.Insert?
    ensures r < |Next(s, a).records|
    ensures NoneOn(Next(s, a), r) <==> (a.Insert? ==> NoneOn(s, r))
  {
    InvStep(s, a);
    CallsKept(s, a);
    RecordStep(s, a, r);
    OtherSteps(s, a);
    assert forall x :: IsRecord(s, a.t, x) <==> x == r;
    hide Next, Enabled, Inv;
  }

  /** A record without a thread gets no calls. */
  lemma NoneLater(s: State, a: Action, r: nat)
    requires Inv(s) && Enabled(s, a) && !HasThread(Next(s, a), r) && NoneOn(s, r)
    ensures NoneOn(Next(s, a), r)
  {
    CallsKept(s, a);
    NewCalls(s, a);
    hide Next, Enabled, Inv;
  }

  /** A call to an overwritten record is settled by its own end or by a cancel of its sender
      and by nothing else, whichever threads end. */
  lemma {:induction false} LostForGood(ss: seq<State>, acts: seq<Action>, i: nat, j: nat, w: nat)
    requires IsRun(ss, acts) && i <= j <= |acts| && Open(ss[i], w) && WellFormed(ss[i])
    requires !HasThread(ss[i], ss[i].waiters[w].receiver)
    requires forall k :: i <= k < j ==>
               acts[k] !in {CallDone(w), Destroy(w), Cancel(ss[i].records[ss[i].waiters[w].sender].owner)}
    ensures Open(ss[j], w) && ss[j].waiters[w] == ss[i].waiters[w]
  {
    hide IsRun, Inv, Enabled, Next, HasThread;
    if i < j {
      StepOf(ss, acts, j - 1);
      LostForGood(ss, acts, i, j - 1, w);
      RecordLater(ss, acts, i, j - 1, ss[i].waiters[w].receiver);
      RecordLater(ss, acts, i, j - 1, ss[i].waiters[w].sender);
      LostStep(ss[j - 1], acts[j - 1], w);
    }
  }

  lemma LostStep(s: State, a: Action, w: nat)
    requires Inv(s) && Enabled(s, a) && Open(s, w) && s.waiters[w].sender < |s.records| && !HasThread(s, s.waiters[w].receiver)
    requires a !in {CallDone(w), Destroy(w), Cancel(s.records[s.waiters[w].sender].owner)}
    ensures Open(Next(s, a), w) && Next(s, a).waiters[w] == s.waiters[w]
  {
    OpenStep(s, a, w);
    hide Settled, SleepersWait, Next, Enabled;
  }

  /** The first call, while somebody is adding a thread; its sender waits. */
  ghost function Waiting(from: ThreadId, to: ThreadId, adding: ThreadId): State {
    State([Record(to, Some({}), {0}, false), Record(from, Some({0}), {}, false)], map[to := 0, from := 1],
          [CallWaiter(InProgress, 1, 0, true)], {0}, map[from := 0], multiset{adding})
  }

  lemma FirstCall(from: ThreadId, to: ThreadId, adding: ThreadId)
    requires from != to
    ensures CallFn(START.(adding := multiset{adding}), from, to) == Waiting(from, to, adding).(asleep := map[])
  {
    var s := WithThread(WithThread(START.(adding := multiset{adding}), to), from);
    var r, q := Record(to, Some({}), {}, false), Record(from, Some({}), {}, false);
    assert s.records == [r, q] && s.threads == map[to := 0, from := 1];
    assert AddReceiver(r, 0) == Record(to, Some({}), {0}, false) && AddSender(q, 0) == Record(from, Some({0}), {}, false);
    assert Entered(s, 1, 0) == [AddReceiver(r, 0), AddSender(q, 0)];
    assert s.waiters == [] && {} + {0} == {0};
  }

  lemma FirstWait(from: ThreadId, to: ThreadId, adding: ThreadId) returns (ss: seq<State>)
    requires from != to && (adding == from || adding == to)
    ensures IsRun(ss, [Check(adding), CallFrom(from, to), Look(from, 0)])
    ensures |ss| == 4 && ss[3] == Waiting(from, to, adding)
  {
    var s1 := CheckFn(START, adding);
    var s3 := Waiting(from, to, adding);
    var s2 := s3.(asleep := map[]);
    assert s1 == START.(adding := multiset{adding}) && LookFn(s2, from, 0) == s3;
    FirstCall(from, to, adding);
    ss := [START, s1, s2, s3];
    assert Known(s1) && Known(s2);
    hide CallFn, LookFn, CheckFn, Known;
  }

  lemma OneMore(ss: seq<State>, acts: seq<Action>, a: Action)
    requires IsRun(ss, acts) && Enabled(ss[|acts|], a)
    ensures IsRun(ss + [Next(ss[|acts|], a)], acts + [a])
  {
    hide Enabled, Next;
  }

  lemma FinishEmpty(s: State, t: ThreadId)
    requires Known(s) && t in s.threads && s.records[s.threads[t]].receiverCalls == {}
    ensures FinishFn(s, t) == s.(threads := s.threads - {t})
  {
    SettleNone(s.(threads := s.threads - {t}), ReceiverFinished);
  }

  lemma CancelEmpty(s: State, t: ThreadId)
    requires Known(s) && t in s.threads && s.records[s.threads[t]].senderCalls == Some({})
    ensures CancelFn(s, t) == s.(records := s.records[s.threads[t] := s.records[s.threads[t]].(senderCalls := None)])
  {
    SettleNone(s, Canceled);
  }

  lemma LostEnd(from: ThreadId, to: ThreadId)
    requires from != to
    ensures var s3 := Waiting(from, to, to);
            var s4 := InsertFn(s3, to);
            && Known(s3) && Known(s4) && !ReceiverFree(s3, Insert(to))
            && FinishFn(s4, to) == s4.(threads := s4.threads - {to}) && !NoneTo(FinishFn(s4, to), to)
  {
    var s3 := Waiting(from, to, to);
    var s4 := InsertFn(s3, to);
    assert IsRecord(s3, to, 0) && Open(s3, 0) && Open(s4, 0);
    assert s4.threads[to] == 2;
    FinishEmpty(s4, to);
    hide FinishFn;
    assert Open(FinishFn(s4, to), 0);
  }

  lemma MissedEnd(from: ThreadId, to: ThreadId)
    requires from != to
    ensures var s3 := Waiting(from, to, from);
            var s4 := InsertFn(s3, from);
            && Known(s3) && Known(s4) && !SenderFree(s3, Insert(from))
            && CancelFn(s4, from) == s4.(records := s4.records[2 := s4.records[2].(senderCalls := None)])
            && !NoneFrom(CancelFn(s4, from), from)
  {
    var s3 := Waiting(from, to, from);
    var s4 := InsertFn(s3, from);
    assert IsRecord(s3, from, 1) && Open(s3, 0) && Open(s4, 0);
    assert s4.threads[from] == 2;
    CancelEmpty(s4, from);
    hide CancelFn;
    assert Open(CancelFn(s4, from), 0);
  }

  /** The input: while one caller is adding `to`, another calls it and sleeps; the insertion
      overwrites the record, and the end of `to` leaves the call in progress and its sender
      asleep. */
  lemma LostCall(from: ThreadId, to: ThreadId) returns (ss: seq<State>, acts: seq<Action>)
    requires from != to
    ensures acts == [Check(to), CallFrom(from, to), Look(from, 0), Insert(to), Finish(to)] && IsRun(ss, acts)
    ensures !ReceiverFree(ss[3], acts[3])
    ensures Open(ss[5], 0) && from in ss[5].asleep && ss[5].asleep[from] == 0
    ensures to !in ss[5].threads && !NoneTo(ss[5], to)
  {
    hide IsRun, Known, ReceiverFree, NoneTo, FinishFn, CallFn, Settle;
    LostEnd(from, to);
    ss := FirstWait(from, to, to);
    acts := [Check(to), CallFrom(from, to), Look(from, 0)];
    var s4 := InsertFn(Waiting(from, to, to), to);
    OneMore(ss, acts, Insert(to));
    OneMore(ss + [s4], acts + [Insert(to)], Finish(to));
    ss, acts := ss + [s4] + [FinishFn(s4, to)], acts + [Insert(to)] + [Finish(to)];
  }

  /** The same for the sender: the insertion overwrites its record, and a cancel misses the
      call. */
  lemma MissedCancel(from: ThreadId, to: ThreadId) returns (ss: seq<State>, acts: seq<Action>)
    requires from != to
    ensures acts == [Check(from), CallFrom(from, to), Look(from, 0), Insert(from), Cancel(from)] && IsRun(ss, acts)
    ensures !SenderFree(ss[3], acts[3])
    ensures Open(ss[5], 0) && from in ss[5].asleep && ss[5].asleep[from] == 0 && !NoneFrom(ss[5], from)
  {
    hide IsRun, Known, SenderFree, NoneFrom, CancelFn, CallFn, Settle;
    MissedEnd(from, to);
    ss := FirstWait(from, to, from);
    acts := [Check(from), CallFrom(from, to), Look(from, 0)];
    var s4 := InsertFn(Waiting(from, to, from), from);
    OneMore(ss, acts, Insert(from));
    OneMore(ss + [s4], acts + [Insert(from)], Cancel(from));
    ss, acts := ss + [s4] + [CancelFn(s4, from)], acts + [Insert(from)] + [Cancel(from)];
  }

  /** Settled is for good, and names the same call. */
  lemma {:induction false} SettledForGood(ss: seq<State>, acts: seq<Action>, i: nat, j: nat, w: nat)
    requires IsRun(ss, acts) && i <= j <= |acts| && w < |ss[i].waiters|
    ensures w < |ss[j].waiters|
    ensures ss[j].waiters[w].state == InProgress ==> ss[i].waiters[w].state == InProgress
    ensures ss[j].waiters[w].sender == ss[i].waiters[w].sender && ss[j].waiters[w].receiver == ss[i].waiters[w].receiver
  {
    hide IsRun, Inv, Enabled, Next, StaysOpen;
    if i < j {
      StepOf(ss, acts, j - 1);
      SettledForGood(ss, acts, i, j - 1, w);
      OpenStep(ss[j - 1], acts[j - 1], w);
    }
  }

  /** No thread sleeps on a settled call. */
  lemma NoSleepOnSettled(ss: seq<State>, acts: seq<Action>, i: nat, t: ThreadId)
    requires IsRun(ss, acts) && i <= |acts| && t in ss[i].asleep
    ensures Open(ss[i], ss[i].asleep[t])
  {
    hide IsRun, Enabled, Next;
    InvAlways(ss, acts, i);
  }

  // ----- The operations, in place -------------------------------------------------------

  lemma WakeBoth(s: State, u: State, a: set<nat>, b: set<nat>)
    requires WellFormed(s) && WellFormed(u) && u.asleep == Wake(s, a) && |u.waiters| == |s.waiters|
    requires forall w :: 0 <= w < |s.waiters| ==> u.waiters[w].sender == s.waiters[w].sender
    ensures Wake(u, b) == Wake(s, a + b)
  {
  }

  lemma SyncsMore(s: State, u: State, ws: set<nat>, w: nat)
    requires w < |s.waiters| == |u.waiters| && u.waiters[w].sender == s.waiters[w].sender
    requires forall x :: x in ws ==> x < |s.waiters|
    ensures Syncs(s, ws + {w}) == Syncs(s, ws) + Syncs(u, {w})
  {
  }

  /** Settling one more waiter after a set of them. */
  lemma SettleMore(s: State, ws: set<nat>, w: nat, cs: CallState)
    requires WellFormed(s) && w < |s.waiters| && forall x :: x in ws ==> x < |s.waiters|
    ensures WellFormed(Settle(s, ws, cs))
    ensures Settle(Settle(s, ws, cs), {w}, cs) == Settle(s, ws + {w}, cs)
  {
    var u := Settle(s, ws, cs);
    var a, b := Settle(u, {w}, cs), Settle(s, ws + {w}, cs);
    SyncsMore(s, u, ws, w);
    WakeBoth(s, u, Syncs(s, ws), Syncs(u, {w}));
    hide Wake, Syncs;
    assert a.waiters == b.waiters;
  }

  lemma SettleNone(s: State, cs: CallState)
    requires WellFormed(s)
    ensures Settle(s, {}, cs) == s
  {
    var t := Settle(s, {}, cs);
    assert t.waiters == s.waiters && Syncs(s, {}) == {} && t.asleep == s.asleep;
  }

  lemma CallKeepsThread(s: State, from: ThreadId, to: ThreadId)
    requires Inv(s)
    ensures WellFormed(CallFn(s, from, to)) && to in CallFn(s, from, to).threads
    ensures CallFn(s, from, to).threads[to] < |CallFn(s, from, to).records|
  {
    CallInv(s, from, to);
  }

  /** A call to another thread: the new waiter, then the word to the receiver. */
  ghost function Called(s: State, from: ThreadId, to: ThreadId): State
    requires Inv(s)
  {
    CallKeepsThread(s, from, to);
    IncomingFn(CallFn(s, from, to), CallFn(s, from, to).threads[to])
  }

  /** The shared internals; each method runs under the lock of the threads. */
  class Internals {
    var records: seq<Record>
    var threads: map<ThreadId, nat>
    var waiters: seq<CallWaiter>
    var alive: set<nat>
    ghost var asleep: map<ThreadId, nat>
    ghost var adding: multiset<ThreadId>

    constructor ()
      ensures View() == START
    {
      records, threads, waiters, alive, asleep, adding := [], map[], [], {}, map[], multiset{};
    }

    ghost function View(): State
      reads this
    {
      State(records, threads, waiters, alive, asleep, adding)
    }

    /** The first critical section of AddTargetThreadId. */
    method IsAbsent(t: ThreadId) returns (absent: bool)
      modifies this`adding
      ensures View() == CheckFn(old(View()), t) && absent == (t !in threads)
    {
      absent := t !in threads;
      if absent {
        adding := adding + multiset{t};
      }
    }

    /** The second one. */
    method InsertThread(t: ThreadId)
      requires t in adding
      modifies this`records, this`threads, this`adding
      ensures View() == InsertFn(old(View()), t)
    {
      threads := threads[t := |records|];
      records := records + [Record(t, Some({}), {}, false)];
      adding := adding - multiset{t};
    }

    /** Both, with nobody between them. */
    method AddTargetThreadId(t: ThreadId)
      modifies this`records, this`threads, this`adding
      ensures View() == WithThread(old(View()), t)
    {
      var absent := IsAbsent(t);
      if absent {
        InsertThread(t);
        assert adding == old(adding);
      }
    }

    method MakeFindThread(t: ThreadId) returns (r: nat)
      modifies this`records, this`threads, this`adding
      ensures View() == WithThread(old(View()), t) && t in threads && r == threads[t]
    {
      if t !in threads {
        AddTargetThreadId(t);
      }
      r := threads[t];
    }

    /** CallDone, CallCancel and SetReceiverThreadFinished: set the state and notify. */
    method SetState(w: nat, cs: CallState)
      requires WellFormed(View()) && w < |waiters|
      modifies this`waiters, this`asleep
      ensures View() == Settle(old(View()), {w}, cs)
    {
      ghost var goal := Settle(View(), {w}, cs);
      asleep := goal.asleep;
      waiters := waiters[w := waiters[w].(state := cs)];
      assert waiters == goal.waiters;
    }

    /** The loop over a set of waiters. */
    method SetStates(ws: set<nat>, cs: CallState)
      requires WellFormed(View()) && forall w :: w in ws ==> w < |waiters|
      modifies this`waiters, this`asleep
      ensures View() == Settle(old(View()), ws, cs)
    {
      hide Settle, WellFormed;
      ghost var before := View();
      SettleNone(before, cs);
      assert ws - ws == {};
      var todo := ws;
      while todo != {}
        invariant todo <= ws && WellFormed(View()) && |waiters| == |before.waiters|
        invariant View() == Settle(before, ws - todo, cs)
        decreases |todo|
      {
        var w :| w in todo;
        SettleMore(before, ws - todo, w, cs);
        SetState(w, cs);
        SettleMore(before, ws - todo + {w}, w, cs);
        assert ws - (todo - {w}) == ws - todo + {w};
        todo := todo - {w};
      }
      assert ws - {} == ws;
    }

    /** The calls that the thread's record knows as sender. */
    ghost function SentCalls(t: ThreadId): set<nat>
      reads this
      requires WellFormed(View())
    {
      if t in threads then Calls(records[threads[t]]) else {}
    }

    method CancelDisableWaitingCall(t: ThreadId)
      requires Inv(View())
      modifies this`records, this`waiters, this`asleep
      ensures View() == CancelFn(old(View()), t) && Inv(View())
      ensures forall w :: 0 <= w < |waiters| ==> waiters[w].state == if w in old(SentCalls(t)) then Canceled else old(waiters)[w].state
      ensures t in threads ==> records[threads[t]].senderCalls.None?
    {
      hide Registry, Settled, SleepersWait;
      CancelInv(View(), t);
      ghost var goal := CancelFn(View(), t);
      if t in threads && records[threads[t]].senderCalls.Some? {
        var q := threads[t];
        SetStates(records[q].senderCalls.value, Canceled);
        records := records[q := records[q].(senderCalls := None)];
      }
      assert View() == goal;
    }

    method OnFinished(t: ThreadId)
      requires Inv(View())
      modifies this`threads, this`waiters, this`asleep
      ensures View() == FinishFn(old(View()), t) && Inv(View())
      ensures forall w :: 0 <= w < |waiters| ==>
                waiters[w].state == if t in old(threads) && w in old(records[threads[t]].receiverCalls) then ReceiverFinished
                                    else old(waiters)[w].state
      ensures threads == old(threads) - {t}
    {
      hide Registry, Settled, SleepersWait;
      FinishInv(View(), t);
      ghost var goal := FinishFn(View(), t);
      if t in threads {
        var r := threads[t];
        threads := threads - {t};
        SetStates(records[r].receiverCalls, ReceiverFinished);
      }
      assert View() == goal;
    }

    /** Enters the new waiter in the sets of both records. */
    method Register(w: nat, q: nat, r: nat)
      requires q < |records| && r < |records| && w == |waiters|
      modifies this`records
      ensures records == old(Entered(View(), q, r))
    {
      ghost var goal := Entered(View(), q, r);
      if records[q].senderCalls.Some? {
        records := records[q := records[q].(senderCalls := Some(records[q].senderCalls.value + {w}))];
      }
      records := records[r := records[r].(receiverCalls := records[r].receiverCalls + {w})];
      assert records == goal;
    }

    /** The critical section of a call to another thread. */
    method RegisterCall(from: ThreadId, to: ThreadId) returns (w: nat, r: nat)
      requires Inv(View())
      modifies this
      ensures View() == CallFn(old(View()), from, to) && Inv(View())
      ensures to in threads && r == threads[to]
      ensures w == old(|waiters|) && w in alive && waiters[w].state == if waiters[w].registered then InProgress else Canceled
    {
      hide Registry, Settled, SleepersWait, Entered, Wake;
      CallInv(View(), from, to);
      ghost var goal := CallFn(View(), from, to);
      w := |waiters|;
      r := MakeFindThread(to);
      var q := MakeFindThread(from);
      ghost var woken := Wake(View(), {q});
      var open := records[q].senderCalls.Some?;
      Register(w, q, r);
      waiters := waiters + [CallWaiter(InProgress, q, r, open)];
      alive := alive + {w};
      if !open {
        waiters := waiters[w := waiters[w].(state := Canceled)];
        asleep := woken;
      }
      assert waiters == goal.waiters;
      assert View() == goal;
    }

    /** The receiver's flag is set and whoever waits on its condition is notified. */
    method ProcessIncomingCall(r: nat)
      requires WellFormed(View()) && r < |records|
      modifies this`records, this`asleep
      ensures View() == IncomingFn(old(View()), r)
    {
      asleep := Wake(View(), {r});
      records := records[r := records[r].(processIncoming := true)];
    }

    /** A call to a thread that is not the direct pseudo thread: the waiter is made and
        registered in one critical section, then the receiver is told. */
    method CallFromThread(from: ThreadId, to: ThreadId) returns (w: nat)
      requires Inv(View())
      modifies this
      ensures View() == Called(old(View()), from, to) && Inv(View())
      ensures w == old(|waiters|) && w in alive
      ensures waiters[w].state == if waiters[w].registered then InProgress else Canceled
    {
      hide Registry, Settled, SleepersWait, CallFn;
      CallKeepsThread(View(), from, to);
      var r;
      w, r := RegisterCall(from, to);
      IncomingInv(View(), r);
      ProcessIncomingCall(r);
    }
  }
}
