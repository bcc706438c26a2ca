/** Threads that wait on events: every step of signalling, binding, resetting and
    waiting, and what no run can reach. */
module WaitProtocol {
  import opened Prelude
  import opened Packets
  import opened Waiter

  /** A thread inside a wait on an event: asleep on the condition, or woken and about to
      look again. */
  datatype Waiting = Asleep(e: nat) | Woken(e: nat)

  /** `pending` are the handlers whose counter was incremented, outside the lock, while
      the notification for it is still to come; `results` are what the last waits of the
      threads returned. */
  datatype World = World(s: State, threads: map<nat, Waiting>, pending: multiset<nat>, results: map<nat, WaitResult>)

  const START := World(State(map[], [], [], [], multiset{}, false), map[], multiset{}, map[])

  datatype Action =
    | Increment(info: nat)             // a call is counted
    | Notify(info: nat)                // ... and announced
    | SignalLocked(src: Source)        // connection and counter signals do both under the lock
    | NewEvent
    | Bind(e: nat, c: Check, start: u32)
    | BindEvent(e: nat, other: nat)
    | Destroy(e: nat)
    | ResetTriggered(e: nat, mode: ResetType)
    | CancelAll
    | StartWait(t: nat, e: nat)        // look, and go to sleep if there is nothing
    | Recheck(t: nat)                  // a woken thread looks again
    | Spurious(t: nat)
    | Timeout(t: nat)

  predicate Enabled(w: World, a: Action) {
    match a
    case Increment(_) => true
    case Notify(info) => info in w.pending
    case SignalLocked(src) => !src.CallInfo?
    case NewEvent => true
    case Bind(e, _, _) => Alive(w.s, e)
    case BindEvent(e, other) => Alive(w.s, e) && Alive(w.s, other) && Listed(w.s, w.s.events[other].value)
    case Destroy(e) =>
      Alive(w.s, e) && Listed(w.s, w.s.events[e].value) && forall t :: t in w.threads ==> w.threads[t].e != e
    case ResetTriggered(e, _) => |w.s.checks| == |w.s.starts| && Alive(w.s, e) && Listed(w.s, w.s.events[e].value)
    case CancelAll => true
    case StartWait(t, e) => t !in w.threads && MayLook(w.s, e)
    case Recheck(t) => t in w.threads && w.threads[t].Woken? && MayLook(w.s, w.threads[t].e)
    case Spurious(t) => t in w.threads && w.threads[t].Asleep?
    case Timeout(t) => t in w.threads && MayLook(w.s, w.threads[t].e)
  }

  predicate MayLook(s: State, e: nat) {
    |s.checks| == |s.starts| && Alive(s, e) && Listed(s, s.events[e].value)
  }

  /** The predicate of the wait. */
  predicate Ready(s: State, e: nat)
    requires MayLook(s, e)
  {
    s.cancelAll || Probe(s, s.events[e].value).Some?
  }

  function WakeAll(threads: map<nat, Waiting>): map<nat, Waiting> {
    map t | t in threads :: Woken(threads[t].e)
  }

  /** The wait of the thread on the event ends. */
  function Leave(w: World, t: nat, e: nat): World
    requires MayLook(w.s, e)
  {
    w.(threads := w.threads - {t}, results := w.results[t := Outcome(w.s, w.s.events[e].value)])
  }

  function Next(w: World, a: Action): World
    requires Enabled(w, a)
  {
    match a
    case Increment(info) => w.(s := SignalFn(w.s, CallInfo(info)), pending := w.pending + multiset{info})
    case Notify(info) =>
      w.(pending := w.pending - multiset{info},
      threads := if InfoId(info) in w.s.filter then WakeAll(w.threads) else w.threads)
    case SignalLocked(src) => w.(s := SignalFn(w.s, src), threads := WakeAll(w.threads))
    case NewEvent => w.(s := NewEventFn(w.s))
    case Bind(e, c, start) => w.(s := BindFn(w.s, e, c, start), threads := WakeAll(w.threads))
    case BindEvent(e, other) =>
      w.(s := BindEventFn(w.s, e, other), threads := if e == other then w.threads else WakeAll(w.threads))
    case Destroy(e) =>
      w.(s := DestroyFn(w.s, e), threads := if w.s.events[e].value == [] then w.threads else WakeAll(w.threads))
    case ResetTriggered(e, mode) => w.(s := ResetFn(w.s, w.s.events[e].value, mode))
    case CancelAll => w.(s := w.s.(cancelAll := true), threads := WakeAll(w.threads))
    case StartWait(t, e) => if Ready(w.s, e) then Leave(w, t, e) else w.(threads := w.threads[t := Asleep(e)])
    case Recheck(t) =>
      var e := w.threads[t].e;
      if Ready(w.s, e) then Leave(w, t, e) else w.(threads := w.threads[t := Asleep(e)])
    case Spurious(t) => w.(threads := w.threads[t := Woken(w.threads[t].e)])
    case Timeout(t) => Leave(w, t, w.threads[t].e)
  }

  // ----- The invariant --------------------------------------------------------------------

  /** The signal that triggers the check is still on its way to the sleepers. */
  ghost predicate OnItsWay(w: World, i: nat)
    requires i < |w.s.checks|
  {
    w.s.checks[i].src.CallInfo? && w.s.checks[i].src.info in w.pending
  }

  /** A thread sleeps although a check of its event is triggered only while that check's
      signal is between its increment and its notification. */
  ghost predicate MaySleep(w: World, e: nat)
    requires MayLook(w.s, e)
  {
    && !w.s.cancelAll
    && forall k :: 0 <= k < |w.s.events[e].value| && Triggered(w.s, w.s.events[e].value[k]) ==> OnItsWay(w, w.s.events[e].value[k])
  }

  ghost predicate Inv(w: World) {
    && Valid(w.s)
    && (forall t :: t in w.threads ==> Alive(w.s, w.threads[t].e))
    && (forall t :: t in w.threads && w.threads[t].Asleep? ==> MaySleep(w, w.threads[t].e))
  }

  lemma IncrementStep(w: World, info: nat)
    requires Inv(w)
    ensures Inv(Next(w, Increment(info)))
  {
    hide Bound, Outstanding;
    var v := Next(w, Increment(info));
    forall t | t in v.threads && v.threads[t].Asleep?
      ensures MaySleep(v, v.threads[t].e)
    {
      var list := w.s.events[w.threads[t].e].value;
      assert MaySleep(w, w.threads[t].e);
      forall k | 0 <= k < |list| && Triggered(v.s, list[k])
        ensures OnItsWay(v, list[k])
      {
        SignalCounts(w.s, CallInfo(info), list[k]);
      }
    }
  }

  lemma NotifyStep(w: World, info: nat)
    requires Inv(w) && Enabled(w, Notify(info))
    ensures Inv(Next(w, Notify(info)))
  {
    hide Bound, Outstanding;
    var v := Next(w, Notify(info));
    if InfoId(info) !in w.s.filter {
      forall t | t in v.threads && v.threads[t].Asleep?
        ensures MaySleep(v, v.threads[t].e)
      {
        var e := w.threads[t].e;
        var list := w.s.events[e].value;
        assert MaySleep(w, e);
        forall k | 0 <= k < |list| && Triggered(v.s, list[k])
          ensures OnItsWay(v, list[k])
        {
          BoundIsFiltered(w.s, e, k);
        }
      }
    }
  }

  lemma ResetStep(w: World, e: nat, mode: ResetType)
    requires Inv(w) && Enabled(w, ResetTriggered(e, mode))
    ensures Inv(Next(w, ResetTriggered(e, mode)))
  {
    hide Outstanding, Bound;
    var v := Next(w, ResetTriggered(e, mode));
    forall t | t in v.threads && v.threads[t].Asleep?
      ensures MaySleep(v, v.threads[t].e)
    {
      var list := w.s.events[w.threads[t].e].value;
      assert MaySleep(w, w.threads[t].e);
      forall k | 0 <= k < |list| && Triggered(v.s, list[k])
        ensures OnItsWay(v, list[k])
      {
        ResetNeverTriggers(w.s, w.s.events[e].value, mode, list[k]);
      }
    }
  }

  lemma LookStep(w: World, a: Action)
    requires Inv(w) && Enabled(w, a) && (a.StartWait? || a.Recheck?)
    ensures Inv(Next(w, a))
  {
    hide Bound, Outstanding;
    var e := if a.StartWait? then a.e else w.threads[a.t].e;
    var v := Next(w, a);
    ProbeExactly(w.s, w.s.events[e].value);
    if !Ready(w.s, e) {
      assert MaySleep(v, e);
    }
    forall t | t in v.threads && v.threads[t].Asleep? && t != a.t
      ensures MaySleep(v, v.threads[t].e)
    {
      assert MaySleep(w, w.threads[t].e);
    }
  }

  /** Sleepers keep their right to sleep when neither checks nor counters nor their own
      event change. */
  lemma StillAsleep(w: World, v: World)
    requires Inv(w) && Valid(v.s) && v.threads == w.threads && v.pending == w.pending
    requires v.s.checks == w.s.checks && v.s.starts == w.s.starts && v.s.counts == w.s.counts && v.s.cancelAll == w.s.cancelAll
    requires forall t :: t in w.threads ==> Alive(v.s, w.threads[t].e) && v.s.events[w.threads[t].e] == w.s.events[w.threads[t].e]
    ensures Inv(v)
  {
    hide Bound, Diff;
    forall t | t in v.threads && v.threads[t].Asleep?
      ensures MaySleep(v, v.threads[t].e)
    {
      assert MaySleep(w, w.threads[t].e);
    }
  }

  /** The steps that create and destroy events, and bind checks to them. */
  lemma EventStep(w: World, a: Action)
    requires Inv(w) && Enabled(w, a) && (a.NewEvent? || a.Destroy? || a.Bind? || a.BindEvent?)
    ensures Inv(Next(w, a))
  {
    hide Bound, Outstanding, Probe;
    var v := Next(w, a);
    match a {
      case NewEvent =>
        NewEventValid(w.s);
        StillAsleep(w, v);
      case Destroy(e) =>
        DestroyValid(w.s, e);
        if v.threads == w.threads {
          StillAsleep(w, v);
        }
      case Bind(e, c, start) => BindValid(w.s, e, c, start);
      case BindEvent(e, other) => BindEventValid(w.s, e, other);
    }
  }

  lemma InvStep(w: World, a: Action)
    requires Inv(w) && Enabled(w, a)
    ensures Inv(Next(w, a))
  {
    match a {
      case Increment(info) => IncrementStep(w, info);
      case Notify(info) => NotifyStep(w, info);
      case ResetTriggered(e, mode) => ResetStep(w, e, mode);
      case StartWait(_, _) => LookStep(w, a);
      case Recheck(_) => LookStep(w, a);
      case NewEvent => EventStep(w, a);
      case Destroy(_) => EventStep(w, a);
      case Bind(_, _, _) => EventStep(w, a);
      case BindEvent(_, _) => EventStep(w, a);
      case _ => SimpleStep(w, a);
    }
  }

  /** The steps that wake everybody, or that only take a thread out of its sleep. */
  lemma SimpleStep(w: World, a: Action)
    requires Inv(w) && Enabled(w, a) && (a.SignalLocked? || a.CancelAll? || a.Spurious? || a.Timeout?)
    ensures Inv(Next(w, a))
  {
    hide Bound, Outstanding;
    var v := Next(w, a);
    forall t | t in v.threads && v.threads[t].Asleep?
      ensures MaySleep(v, v.threads[t].e)
    {
      assert MaySleep(w, w.threads[t].e);
    }
  }

  // ----- Runs -----------------------------------------------------------------------------

  ghost predicate IsRun(ws: seq<World>, acts: seq<Action>) {
    && |ws| == |acts| + 1
    && ws[0] == START
    && forall i :: 0 <= i < |acts| ==> Enabled(ws[i], acts[i]) && ws[i + 1] == Next(ws[i], acts[i])
  }

  lemma {:induction false} InvAlways(ws: seq<World>, acts: seq<Action>, i: nat)
    requires IsRun(ws, acts) && i <= |acts|
    ensures Inv(ws[i])
  {
    hide Inv, Enabled, Next;
    if i == 0 {
      InvStart();
    } else {
      InvAlways(ws, acts, i - 1);
      InvStep(ws[i - 1], acts[i - 1]);
    }
  }

  lemma InvStart()
    ensures Inv(START)
  {
  }

  /** The filter of every reachable state counts the bindings of the live events. */
  lemma FilterIsBindings(ws: seq<World>, acts: seq<Action>, i: nat, f: Filter)
    requires IsRun(ws, acts) && i <= |acts|
    ensures ws[i].s.filter[f] == Bound(ws[i].s.checks, ws[i].s.events, f)
  {
    hide IsRun;
    InvAlways(ws, acts, i);
  }

  /** No sleeper is missed: a thread sleeps on an event only while nothing is canceled
      and the signal behind each triggered check of the event is on its way; so when no
      notification is on its way, no thread sleeps on a wait that could end. */
  lemma NoSleeperMissed(ws: seq<World>, acts: seq<Action>, i: nat, t: nat)
    requires IsRun(ws, acts) && i <= |acts|
    requires t in ws[i].threads && ws[i].threads[t].Asleep?
    ensures MayLook(ws[i].s, ws[i].threads[t].e) && !ws[i].s.cancelAll
    ensures var w, list := ws[i], ws[i].s.events[ws[i].threads[t].e].value;
            forall k :: 0 <= k < |list| && Triggered(w.s, list[k]) ==> OnItsWay(w, list[k])
    ensures ws[i].pending == multiset{} ==> !Ready(ws[i].s, ws[i].threads[t].e)
  {
    hide Outstanding, Bound;
    InvAlways(ws, acts, i);
    var w := ws[i];
    assert MaySleep(w, w.threads[t].e);
    ProbeExactly(w.s, w.s.events[w.threads[t].e].value);
  }

  /** The wait on the event may end: everything is canceled, or some check is triggered. */
  ghost predicate MayEnd(s: State, e: nat)
    requires MayLook(s, e)
  {
    s.cancelAll || exists k :: 0 <= k < |s.events[e].value| && Triggered(s, s.events[e].value[k])
  }

  /** The thread's wait ends in this step. */
  ghost predicate Ends(w: World, a: Action, t: nat)
    requires Enabled(w, a)
  {
    match a
    case StartWait(u, e) => u == t && MayEnd(w.s, e)
    case Recheck(u) => u == t && MayEnd(w.s, w.threads[t].e)
    case Timeout(u) => u == t
    case _ => false
  }

  lemma ReadyExactly(s: State, e: nat)
    requires MayLook(s, e)
    ensures Ready(s, e) <==> MayEnd(s, e)
    ensures Outcome(s, s.events[e].value).Canceled? <==>
            s.cancelAll || exists k: nat :: FirstAt(s, s.events[e].value, k) && s.checks[s.events[e].value[k]].cancel
    ensures Outcome(s, s.events[e].value).TimedOut? <==> !MayEnd(s, e)
  {
    ProbeExactly(s, s.events[e].value);
    hide Triggered;
  }

  /** A wait ends by its timeout, or when the thread looks and the wait may end, and in no
      other way; a thread that looks and finds nothing goes to sleep, and keeps its event. */
  lemma WaitEnds(ws: seq<World>, acts: seq<Action>, i: nat, t: nat)
    requires IsRun(ws, acts) && i < |acts|
    ensures Enabled(ws[i], acts[i])
    ensures var w, v, a := ws[i], ws[i + 1], acts[i];
            && (t in w.threads ==> (t !in v.threads <==> Ends(w, a, t)))
            && (t !in w.threads ==> (t in v.threads <==> a.StartWait? && a.t == t && !MayEnd(w.s, a.e)))
            && (t !in w.threads && t in v.threads ==> v.threads[t] == Asleep(a.e))
            && (t in w.threads && t in v.threads ==> v.threads[t].e == w.threads[t].e)
            && (t in w.threads && w.threads[t].Woken? && t in v.threads ==> (v.threads[t].Asleep? <==> a == Recheck(t)))
  {
    var w, a := ws[i], acts[i];
    hide IsRun, Ready, Outcome, MayEnd, SignalFn, ResetFn, BindFn, BindEventFn, DestroyFn;
    if a.StartWait? || a.Recheck? {
      ReadyExactly(w.s, if a.StartWait? then a.e else w.threads[a.t].e);
    }
  }

  /** What a wait returns: canceled when everything is, or when the first triggered check
      means cancellation; timed out only when nothing is triggered; and only the end of a
      wait changes what it returned. */
  lemma ResultExactly(ws: seq<World>, acts: seq<Action>, i: nat, t: nat)
    requires IsRun(ws, acts) && i < |acts|
    ensures Enabled(ws[i], acts[i])
    ensures var w, v, a := ws[i], ws[i + 1], acts[i];
            if Ends(w, a, t) then
              var e := if a.StartWait? then a.e else w.threads[t].e;
              && t in v.results
              && (v.results[t].Canceled? <==>
                  w.s.cancelAll || exists k: nat :: FirstAt(w.s, w.s.events[e].value, k) && w.s.checks[w.s.events[e].value[k]].cancel)
              && (v.results[t].TimedOut? <==> !MayEnd(w.s, e))
            else (t in v.results <==> t in w.results) && (t in w.results ==> v.results[t] == w.results[t])
  {
    var w, a := ws[i], acts[i];
    hide IsRun, Ready, Outcome, MayEnd, FirstAt, SignalFn, ResetFn, BindFn, BindEventFn, DestroyFn;
    if a.StartWait? || a.Recheck? || a.Timeout? {
      ReadyExactly(w.s, if a.StartWait? then a.e else w.threads[a.t].e);
    }
  }

  /** Canceling all waits is for good: from then on nobody sleeps, and every wait that ends
      returns that it was canceled. */
  lemma {:induction false} CanceledForGood(ws: seq<World>, acts: seq<Action>, i: nat, j: nat)
    requires IsRun(ws, acts) && i < j <= |acts| && acts[i] == CancelAll
    ensures ws[j].s.cancelAll && forall t :: t in ws[j].threads ==> ws[j].threads[t].Woken?
    ensures j < |acts| ==> Enabled(ws[j], acts[j])
    ensures j < |acts| ==> forall t :: Ends(ws[j], acts[j], t) ==> t in ws[j + 1].results && ws[j + 1].results[t] == Canceled
  {
    hide Bound, SignalFn, ResetFn, BindFn, BindEventFn, DestroyFn, MayEnd, Triggered;
    InvAlways(ws, acts, j);
    if i + 1 < j {
      CanceledForGood(ws, acts, i, j - 1);
      CancelKept(ws[j - 1], acts[j - 1]);
    }
    hide IsRun, Next, Enabled;
    assert ws[j].s.cancelAll;
    if j < |acts| {
      forall t | Ends(ws[j], acts[j], t)
        ensures t in ws[j + 1].results && ws[j + 1].results[t] == Canceled
      {
        ResultExactly(ws, acts, j, t);
      }
    }
  }

  lemma CancelKept(w: World, a: Action)
    requires Enabled(w, a) && w.s.cancelAll
    ensures Next(w, a).s.cancelAll
  {
  }

  /** The action counts a signal of the source. */
  predicate Signals(a: Action, src: Source) {
    (a.Increment? && src == CallInfo(a.info)) || (a.SignalLocked? && src == a.src)
  }

  /** What a step does to the checks: a signal counts on every check of its source, a reset
      only changes checks that its event lists, and nothing else changes what is outstanding;
      a new check starts at the count it is given and is listed last. */
  lemma OutstandingStep(w: World, a: Action, k: nat)
    requires Enabled(w, a) && Inv(w) && k < |w.s.checks|
    ensures |w.s.checks| <= |Next(w, a).s.checks| == |Next(w, a).s.starts| && Next(w, a).s.checks[k] == w.s.checks[k]
    ensures var n := Outstanding(Next(w, a).s, k);
            && (Signals(a, w.s.checks[k].src) ==> n == (Outstanding(w.s, k) + 1) % U32_SIZE)
            && (!Signals(a, w.s.checks[k].src) && !(a.ResetTriggered? && k in w.s.events[a.e].value) ==> n == Outstanding(w.s, k))
    ensures a.Increment? ==> Next(w, a).pending == w.pending + multiset{a.info}
    ensures a.Notify? ==> Next(w, a).pending == w.pending - multiset{a.info}
  {
    hide Bound;
    match a {
      case Increment(info) => SignalCounts(w.s, CallInfo(info), k);
      case SignalLocked(src) => SignalCounts(w.s, src, k);
      case ResetTriggered(e, mode) =>
        if k !in w.s.events[e].value {
          NotListedKept(w.s, w.s.events[e].value, mode, k);
        }
      case _ =>
    }
  }

  lemma {:induction false} NotListedKept(s: State, list: seq<nat>, mode: ResetType, k: nat)
    requires |s.checks| == |s.starts| && Listed(s, list) && k < |s.checks| && k !in list
    ensures Outstanding(ResetFn(s, list, mode), k) == Outstanding(s, k)
  {
    hide Outstanding;
    if list != [] {
      NotListedKept(s, list[..|list| - 1], mode, k);
      ResetOneCounts(ResetFn(s, list[..|list| - 1], mode), list[|list| - 1], mode, k);
    }
  }

  lemma BindStep(w: World, a: Action)
    requires Enabled(w, a) && a.Bind? && Inv(w)
    ensures var s, t := w.s, Next(w, a).s;
            && t.checks == s.checks + [a.c] && t.starts == s.starts + [a.start]
            && t.events == s.events[a.e := Some(s.events[a.e].value + [|s.checks|])]
            && Outstanding(t, |s.checks|) == (Current(s.counts, a.c.src) - a.start) % U32_SIZE
  {
    hide Bound;
  }
}
