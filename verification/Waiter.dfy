/** Waiting for signals: events made of shared checks on wrapping counters, and a
    filter that tells whether a notification is worth sending. */
module Waiter {
  import opened Prelude
  import opened Packets

  /** What a check watches: the call counter of a handler, a counter of a connection's
      signaling object, or its own counter. */
  datatype Source = CallInfo(info: nat) | Connection(signaling: nat, kind: nat) | Counter(own: nat)

  /** The address that stands for the source in the filter. */
  datatype Filter = InfoId(info: nat) | SignalingId(signaling: nat) | CheckId(own: nat)

  function FilterId(src: Source): Filter {
    match src
    case CallInfo(info) => InfoId(info)
    case Connection(signaling, _) => SignalingId(signaling)
    case Counter(own) => CheckId(own)
  }

  datatype Check = Check(src: Source, cancel: bool)

  datatype ResetType = AfterTrigger | AfterReset | AfterZero

  /** What the lock protects. Checks are shared between events, which list them by
      number; `None` is an event that was destroyed. The counters of handlers are
      also incremented without the lock. */
  datatype State = State(counts: map<Source, u32>, checks: seq<Check>, starts: seq<u32>,
                         events: seq<Option<seq<nat>>>, filter: multiset<Filter>, cancelAll: bool)

  function Current(counts: map<Source, u32>, src: Source): u32 {
    if src in counts then counts[src] else 0
  }

  /** Increment and difference of unsigned 32-bit numbers. */
  function Inc(x: u32): u32 {
    if x + 1 == U32_SIZE then 0 else x + 1
  }

  function Diff(count: u32, start: u32): u32 {
    if count >= start then count - start else count + U32_SIZE - start
  }

  lemma DiffShift(count: u32, start: u32)
    ensures Diff(count, start) > 0 ==> Diff(count, Inc(start)) == Diff(count, start) - 1
    ensures Diff(Inc(count), start) == Inc(Diff(count, start))
    ensures Diff(count, count) == 0 && Diff(count, 0) == count
  {
  }

  function Outstanding(s: State, i: nat): u32
    requires i < |s.checks| == |s.starts|
  {
    Diff(Current(s.counts, s.checks[i].src), s.starts[i])
  }

  predicate Triggered(s: State, i: nat)
    requires i < |s.checks| == |s.starts|
  {
    Outstanding(s, i) > 0
  }

  predicate Listed(s: State, list: seq<nat>) {
    forall k :: 0 <= k < |list| ==> list[k] < |s.checks|
  }

  ghost predicate Valid(s: State) {
    && |s.checks| == |s.starts|
    && (forall e :: 0 <= e < |s.events| && s.events[e].Some? ==> Listed(s, s.events[e].value))
    && forall f :: s.filter[f] == Bound(s.checks, s.events, f)
  }

  predicate Alive(s: State, e: nat) {
    e < |s.events| && s.events[e].Some?
  }

  /** Whether the wait on the event may end: `Some(c)` when some check is triggered, and
      `c` tells whether the first of them means cancellation. */
  function Probe(s: State, list: seq<nat>): Option<bool>
    requires |s.checks| == |s.starts| && Listed(s, list)
  {
    if list == [] then None
    else if Triggered(s, list[0]) then Some(s.checks[list[0]].cancel)
    else Probe(s, list[1..])
  }

  /** The first triggered check of the list stands at `k`. */
  ghost predicate FirstAt(s: State, list: seq<nat>, k: nat)
    requires |s.checks| == |s.starts| && Listed(s, list)
  {
    k < |list| && Triggered(s, list[k]) && forall j :: 0 <= j < k ==> !Triggered(s, list[j])
  }

  /** The first triggered check decides, and it says whether the wait is canceled. */
  lemma {:induction false} ProbeExactly(s: State, list: seq<nat>)
    requires |s.checks| == |s.starts| && Listed(s, list)
    ensures Probe(s, list).Some? <==> exists k: nat :: FirstAt(s, list, k)
    ensures Probe(s, list).Some? <==> exists k :: 0 <= k < |list| && Triggered(s, list[k])
    ensures forall k: nat :: FirstAt(s, list, k) ==> Probe(s, list) == Some(s.checks[list[k]].cancel)
  {
    hide Triggered;
    if list != [] {
      var rest := list[1..];
      ProbeExactly(s, rest);
      if Triggered(s, list[0]) {
        assert FirstAt(s, list, 0);
      }
      forall k: nat | k < |rest|
        ensures Triggered(s, rest[k]) <==> Triggered(s, list[k + 1])
      {
      }
      forall k: nat | FirstAt(s, list, k) && k > 0
        ensures FirstAt(s, rest, k - 1)
      {
        assert !Triggered(s, list[0]) && forall j :: 0 <= j < k - 1 ==> rest[j] == list[j + 1];
      }
      if k: nat :| FirstAt(s, rest, k) && !Triggered(s, list[0]) {
        assert forall j :: 0 < j < k + 1 ==> list[j] == rest[j - 1];
        assert FirstAt(s, list, k + 1);
      }
    }
  }

  /** How a wait ends. */
  datatype WaitResult = Signaled | Canceled | TimedOut

  function Outcome(s: State, list: seq<nat>): WaitResult
    requires |s.checks| == |s.starts| && Listed(s, list)
  {
    var first := Probe(s, list);
    if s.cancelAll || first == Some(true) then Canceled else if first.Some? then Signaled else TimedOut
  }

  /** The check is announced under the filter id. */
  function Announces(checks: seq<Check>, f: Filter): nat -> bool {
    (i: nat) => i < |checks| && FilterId(checks[i].src) == f
  }

  /** How often a live event binds the filter id. */
  function BoundBy(checks: seq<Check>, event: Option<seq<nat>>, f: Filter): nat {
    if event.Some? then Count(event.value, Announces(checks, f)) else 0
  }

  /** The bindings of all live events. */
  function Bound(checks: seq<Check>, events: seq<Option<seq<nat>>>, f: Filter): nat {
    if events == [] then 0
    else Bound(checks, events[..|events| - 1], f) + BoundBy(checks, events[|events| - 1], f)
  }

  /** The filter with one more, or one fewer, entry for each check of the list. */
  function Announce(filter: multiset<Filter>, checks: seq<Check>, list: seq<nat>): multiset<Filter>
    requires forall k :: 0 <= k < |list| ==> list[k] < |checks|
  {
    if list == [] then filter
    else Announce(filter, checks, list[..|list| - 1]) + multiset{FilterId(checks[list[|list| - 1]].src)}
  }

  function Withdraw(filter: multiset<Filter>, checks: seq<Check>, list: seq<nat>): multiset<Filter>
    requires forall k :: 0 <= k < |list| ==> list[k] < |checks|
  {
    if list == [] then filter
    else Withdraw(filter, checks, list[..|list| - 1]) - multiset{FilterId(checks[list[|list| - 1]].src)}
  }

  // ----- The operations, as functions on values ---------------------------------------

  function SignalFn(s: State, src: Source): State {
    s.(counts := s.counts[src := Inc(Current(s.counts, src))])
  }

  function NewEventFn(s: State): State {
    s.(events := s.events + [Some([])])
  }

  /** A new check, added to the event. */
  function BindFn(s: State, e: nat, c: Check, start: u32): State
    requires Alive(s, e)
  {
    s.(checks := s.checks + [c], starts := s.starts + [start],
    events := s.events[e := Some(s.events[e].value + [|s.checks|])],
    filter := s.filter + multiset{FilterId(c.src)})
  }

  /** The checks of the other event, added to this one and shared from then on. */
  function BindEventFn(s: State, e: nat, other: nat): State
    requires Alive(s, e) && Alive(s, other) && Listed(s, s.events[other].value)
  {
    if e == other then s
    else s.(events := s.events[e := Some(s.events[e].value + s.events[other].value)],
         filter := Announce(s.filter, s.checks, s.events[other].value))
  }

  function DestroyFn(s: State, e: nat): State
    requires Alive(s, e) && Listed(s, s.events[e].value)
  {
    s.(events := s.events[e := None], filter := Withdraw(s.filter, s.checks, s.events[e].value))
  }

  /** The new start of a check that is reset. */
  function ResetStart(s: State, i: nat, mode: ResetType): u32
    requires i < |s.checks| == |s.starts|
  {
    match mode
    case AfterReset => Current(s.counts, s.checks[i].src)
    case AfterTrigger => Inc(s.starts[i])
    case AfterZero => 0
  }

  function ResetOne(s: State, i: nat, mode: ResetType): (t: State)
    requires i < |s.checks| == |s.starts|
  {
    if Triggered(s, i) && !s.checks[i].cancel then s.(starts := s.starts[i := ResetStart(s, i, mode)]) else s
  }

  function ResetFn(s: State, list: seq<nat>, mode: ResetType): (t: State)
    requires |s.checks| == |s.starts| && Listed(s, list)
    ensures t == s.(starts := t.starts) && |t.starts| == |s.starts|
  {
    if list == [] then s else ResetOne(ResetFn(s, list[..|list| - 1], mode), list[|list| - 1], mode)
  }

  // ----- The filter counts the bindings -------------------------------------------------

  lemma {:induction false} AnnounceCounts(filter: multiset<Filter>, checks: seq<Check>, list: seq<nat>, f: Filter)
    requires forall k :: 0 <= k < |list| ==> list[k] < |checks|
    ensures Announce(filter, checks, list)[f] == filter[f] + Count(list, Announces(checks, f))
  {
    if list != [] {
      AnnounceCounts(filter, checks, list[..|list| - 1], f);
    }
  }

  lemma {:induction false} WithdrawCounts(filter: multiset<Filter>, checks: seq<Check>, list: seq<nat>, f: Filter)
    requires forall k :: 0 <= k < |list| ==> list[k] < |checks|
    requires Count(list, Announces(checks, f)) <= filter[f]
    ensures Withdraw(filter, checks, list)[f] == filter[f] - Count(list, Announces(checks, f))
  {
    if list != [] {
      WithdrawCounts(filter, checks, list[..|list| - 1], f);
    }
  }

  lemma {:induction false} CountGrow(checks: seq<Check>, c: Check, list: seq<nat>, f: Filter)
    requires forall k :: 0 <= k < |list| ==> list[k] < |checks|
    ensures Count(list, Announces(checks + [c], f)) == Count(list, Announces(checks, f))
  {
    if list != [] {
      CountGrow(checks, c, list[..|list| - 1], f);
    }
  }

  lemma {:induction false} BoundGrow(checks: seq<Check>, c: Check, events: seq<Option<seq<nat>>>, f: Filter)
    requires forall e :: 0 <= e < |events| && events[e].Some? ==>
               forall k :: 0 <= k < |events[e].value| ==> events[e].value[k] < |checks|
    ensures Bound(checks + [c], events, f) == Bound(checks, events, f)
  {
    if events != [] {
      BoundGrow(checks, c, events[..|events| - 1], f);
      if events[|events| - 1].Some? {
        CountGrow(checks, c, events[|events| - 1].value, f);
      }
    }
  }

  lemma {:induction false} BoundUpdate(checks: seq<Check>, events: seq<Option<seq<nat>>>, e: nat, v: Option<seq<nat>>, f: Filter)
    requires e < |events|
    ensures Bound(checks, events[e := v], f) == Bound(checks, events, f) - BoundBy(checks, events[e], f) + BoundBy(checks, v, f)
    ensures BoundBy(checks, events[e], f) <= Bound(checks, events, f)
  {
    hide BoundBy;
    var n := |events| - 1;
    if e < n {
      BoundUpdate(checks, events[..n], e, v, f);
      assert events[e := v][..n] == events[..n][e := v];
    } else {
      assert events[e := v][..n] == events[..n];
    }
  }

  lemma BoundPush(checks: seq<Check>, events: seq<Option<seq<nat>>>, v: Option<seq<nat>>, f: Filter)
    ensures Bound(checks, events + [v], f) == Bound(checks, events, f) + BoundBy(checks, v, f)
  {
    assert (events + [v])[..|events|] == events;
  }

  /** A check of a live event is announced in the filter. */
  lemma BoundIsFiltered(s: State, e: nat, k: nat)
    requires Valid(s) && Alive(s, e) && k < |s.events[e].value|
    ensures FilterId(s.checks[s.events[e].value[k]].src) in s.filter
  {
    var f := FilterId(s.checks[s.events[e].value[k]].src);
    CountAtLeast(s.events[e].value, k, Announces(s.checks, f));
    BoundUpdate(s.checks, s.events, e, s.events[e], f);
  }

  lemma NewEventValid(s: State)
    requires Valid(s)
    ensures Valid(NewEventFn(s))
  {
    forall f {
      BoundPush(s.checks, s.events, Some([]), f);
    }
  }

  lemma BindValid(s: State, e: nat, c: Check, start: u32)
    requires Valid(s) && Alive(s, e)
    ensures Valid(BindFn(s, e, c, start))
  {
    var t, l := BindFn(s, e, c, start), s.events[e].value;
    forall f
      ensures t.filter[f] == Bound(t.checks, t.events, f)
    {
      BoundGrow(s.checks, c, s.events, f);
      BoundUpdate(t.checks, s.events, e, t.events[e], f);
      CountPush<nat>(l, |s.checks|, Announces(t.checks, f));
    }
  }

  lemma BindEventValid(s: State, e: nat, other: nat)
    requires Valid(s) && Alive(s, e) && Alive(s, other)
    ensures Valid(BindEventFn(s, e, other))
  {
    var t, l, m := BindEventFn(s, e, other), s.events[e].value, s.events[other].value;
    if e != other {
      forall f
        ensures t.filter[f] == Bound(t.checks, t.events, f)
      {
        BoundUpdate(s.checks, s.events, e, t.events[e], f);
        AnnounceCounts(s.filter, s.checks, m, f);
        CountAppend(l, m, Announces(s.checks, f));
      }
    }
  }

  lemma DestroyValid(s: State, e: nat)
    requires Valid(s) && Alive(s, e)
    ensures Valid(DestroyFn(s, e))
  {
    forall f
      ensures DestroyFn(s, e).filter[f] == Bound(s.checks, s.events[e := None], f)
    {
      BoundUpdate(s.checks, s.events, e, None, f);
      WithdrawCounts(s.filter, s.checks, s.events[e].value, f);
    }
  }

  // ----- Checks as counting semaphores ----------------------------------------------------

  function IsCheck(i: nat): nat -> bool {
    (j: nat) => j == i
  }

  /** A signal raises the outstanding count of the checks on its source by one. The one
      exception is the wraparound: 2^32 - 1 outstanding signals and another one are
      as good as none. */
  lemma SignalCounts(s: State, src: Source, i: nat)
    requires i < |s.checks| == |s.starts|
    ensures s.checks[i].src == src && Outstanding(s, i) + 1 < U32_SIZE ==> Outstanding(SignalFn(s, src), i) == Outstanding(s, i) + 1
    ensures s.checks[i].src == src && Outstanding(s, i) + 1 == U32_SIZE ==> Outstanding(SignalFn(s, src), i) == 0
    ensures s.checks[i].src != src ==> Outstanding(SignalFn(s, src), i) == Outstanding(s, i)
  {
    hide Diff;
    DiffShift(Current(s.counts, s.checks[i].src), s.starts[i]);
  }

  /** What a check has outstanding after one reset of it while it is triggered. */
  function AfterReset1(s: State, i: nat, mode: ResetType): nat
    requires i < |s.checks| == |s.starts| && Triggered(s, i)
  {
    match mode
    case AfterReset => 0
    case AfterTrigger => Outstanding(s, i) - 1
    case AfterZero => Current(s.counts, s.checks[i].src)
  }

  lemma ResetOneCounts(s: State, i: nat, mode: ResetType, j: nat)
    requires i < |s.checks| == |s.starts| && j < |s.checks|
    ensures Outstanding(ResetOne(s, i, mode), j)
            == if i == j && Triggered(s, j) && !s.checks[j].cancel then AfterReset1(s, j, mode) else Outstanding(s, j)
  {
    hide Diff;
    DiffShift(Current(s.counts, s.checks[i].src), s.starts[i]);
  }

  /** In trigger mode a reset consumes one signal for each time the event lists the
      check, as long as there are signals; cancel checks keep theirs. */
  lemma {:induction false} ResetConsumes(s: State, list: seq<nat>, i: nat)
    requires |s.checks| == |s.starts| && Listed(s, list) && i < |s.checks|
    ensures var n := Count(list, IsCheck(i));
            Outstanding(ResetFn(s, list, AfterTrigger), i)
            == if s.checks[i].cancel then Outstanding(s, i)
               else if n <= Outstanding(s, i) then Outstanding(s, i) - n
               else 0
  {
    hide Outstanding;
    if list != [] {
      ResetConsumes(s, list[..|list| - 1], i);
      ResetOneCounts(ResetFn(s, list[..|list| - 1], AfterTrigger), list[|list| - 1], AfterTrigger, i);
    }
  }

  /** A reset never triggers a check. */
  lemma {:induction false} ResetNeverTriggers(s: State, list: seq<nat>, mode: ResetType, i: nat)
    requires |s.checks| == |s.starts| && Listed(s, list) && i < |s.checks|
    ensures Triggered(ResetFn(s, list, mode), i) ==> Triggered(s, i)
  {
    hide Outstanding;
    if list != [] {
      ResetNeverTriggers(s, list[..|list| - 1], mode, i);
      ResetOneCounts(ResetFn(s, list[..|list| - 1], mode), list[|list| - 1], mode, i);
    }
  }

  /** What happens to one check: signals, and resets of an event that lists it. */
  datatype SemaphoreOp = Signal | Reset(list: seq<nat>)

  function Run(s: State, i: nat, ops: seq<SemaphoreOp>): (t: State)
    requires i < |s.checks| == |s.starts|
    requires forall op :: op in ops && op.Reset? ==> Listed(s, op.list)
    ensures t == s.(counts := t.counts, starts := t.starts) && |t.starts| == |s.starts|
  {
    if ops == [] then s
    else
      assert forall op :: op in ops[..|ops| - 1] ==> op in ops;
      var op := ops[|ops| - 1];
      assert op in ops;
      var t := Run(s, i, ops[..|ops| - 1]);
      match op
      case Signal => SignalFn(t, s.checks[i].src)
      case Reset(list) =>
        assert Listed(s, op.list);
        ResetFn(t, list, AfterTrigger)
  }

  /** The counting semaphore: signals minus what the resets consumed. */
  function Semaphore(start: nat, i: nat, ops: seq<SemaphoreOp>): nat {
    if ops == [] then start
    else
      var n := Semaphore(start, i, ops[..|ops| - 1]);
      match ops[|ops| - 1]
      case Signal => n + 1
      case Reset(list) => var m := Count(list, IsCheck(i)); if m <= n then n - m else 0
  }

  /** The semaphore never holds 2^32 signals. */
  predicate InRange(start: nat, i: nat, ops: seq<SemaphoreOp>) {
    Semaphore(start, i, ops) < U32_SIZE && (ops != [] ==> InRange(start, i, ops[..|ops| - 1]))
  }

  /** Over any run of signals and resets with fewer than 2^32 outstanding, a check that
      does not mean cancellation is a counting semaphore, counter wraparound or not. */
  lemma {:induction false} CheckIsSemaphore(s: State, i: nat, ops: seq<SemaphoreOp>)
    requires i < |s.checks| == |s.starts| && !s.checks[i].cancel
    requires forall op :: op in ops && op.Reset? ==> Listed(s, op.list)
    requires InRange(Outstanding(s, i), i, ops)
    ensures Outstanding(Run(s, i, ops), i) == Semaphore(Outstanding(s, i), i, ops)
    ensures Triggered(Run(s, i, ops), i) <==> Semaphore(Outstanding(s, i), i, ops) > 0
  {
    hide Outstanding, ResetFn, SignalFn;
    if ops != [] {
      var init := ops[..|ops| - 1];
      assert forall op :: op in init ==> op in ops;
      CheckIsSemaphore(s, i, init);
      var t := Run(s, i, init);
      match ops[|ops| - 1] {
        case Signal => SignalCounts(t, s.checks[i].src, i);
        case Reset(list) =>
          assert ops[|ops| - 1] in ops;
          ResetConsumes(t, list, i);
      }
    }
  }

  /** One signal too many: the check is as if nothing had happened. */
  lemma WrapForgets(s: State, i: nat)
    requires i < |s.checks| == |s.starts| && Outstanding(s, i) == U32_SIZE - 1
    ensures !Triggered(SignalFn(s, s.checks[i].src), i)
  {
    SignalCounts(s, s.checks[i].src, i);
  }

  predicate AllListed(s: State, ops: seq<SemaphoreOp>) {
    forall op :: op in ops && op.Reset? ==> Listed(s, op.list)
  }

  /** The check tells the truth: it is triggered when the semaphore holds a signal. */
  predicate Agrees(s: State, i: nat, ops: seq<SemaphoreOp>)
    requires i < |s.checks| == |s.starts| && AllListed(s, ops)
  {
    Triggered(Run(s, i, ops), i) <==> Semaphore(Outstanding(s, i), i, ops) > 0
  }

  /** ... after every part of the run. */
  predicate AlwaysAgrees(s: State, i: nat, ops: seq<SemaphoreOp>)
    requires i < |s.checks| == |s.starts| && AllListed(s, ops)
  {
    (ops != [] ==> AlwaysAgrees(s, i, ops[..|ops| - 1])) && Agrees(s, i, ops)
  }

  /** The bound is exact: a check that does not mean cancellation tells the truth all
      through a run if and only if there are never 2^32 signals outstanding. */
  lemma {:induction false} SemaphoreExactly(s: State, i: nat, ops: seq<SemaphoreOp>)
    requires i < |s.checks| == |s.starts| && !s.checks[i].cancel && AllListed(s, ops)
    ensures AlwaysAgrees(s, i, ops) <==> InRange(Outstanding(s, i), i, ops)
  {
    hide Outstanding, ResetFn, SignalFn, Listed;
    if ops != [] {
      var init := ops[..|ops| - 1];
      assert AllListed(s, init) by {
        assert forall op :: op in init ==> op in ops;
      }
      SemaphoreExactly(s, i, init);
      if InRange(Outstanding(s, i), i, init) {
        CheckIsSemaphore(s, i, init);
        LastStepExactly(s, i, ops);
      }
    }
  }

  lemma LastStepExactly(s: State, i: nat, ops: seq<SemaphoreOp>)
    requires i < |s.checks| == |s.starts| && !s.checks[i].cancel && AllListed(s, ops) && ops != []
    requires AllListed(s, ops[..|ops| - 1]) && InRange(Outstanding(s, i), i, ops[..|ops| - 1])
    requires Outstanding(Run(s, i, ops[..|ops| - 1]), i) == Semaphore(Outstanding(s, i), i, ops[..|ops| - 1])
    ensures Agrees(s, i, ops) <==> InRange(Outstanding(s, i), i, ops)
  {
    hide Outstanding, ResetFn, SignalFn, Listed;
    if Semaphore(Outstanding(s, i), i, ops) < U32_SIZE {
      CheckIsSemaphore(s, i, ops);
    } else {
      assert ops[|ops| - 1].Signal?;
      WrapForgets(Run(s, i, ops[..|ops| - 1]), i);
    }
  }

  lemma AnnounceStep(filter: multiset<Filter>, checks: seq<Check>, list: seq<nat>, i: nat)
    requires i < |list| && forall k :: 0 <= k < |list| ==> list[k] < |checks|
    ensures Announce(filter, checks, list[..i + 1])
            == Announce(filter, checks, list[..i]) + multiset{FilterId(checks[list[i]].src)}
  {
    assert list[..i + 1][..i] == list[..i];
  }

  lemma WithdrawStep(filter: multiset<Filter>, checks: seq<Check>, list: seq<nat>, i: nat)
    requires i < |list| && forall k :: 0 <= k < |list| ==> list[k] < |checks|
    ensures var id := FilterId(checks[list[i]].src);
            && Withdraw(filter, checks, list[..i + 1]) == Withdraw(filter, checks, list[..i]) - multiset{id}
            && (id !in Withdraw(filter, checks, list[..i]) ==>
                  Withdraw(filter, checks, list[..i + 1]) == Withdraw(filter, checks, list[..i]))
  {
    assert list[..i + 1][..i] == list[..i];
  }

  lemma ResetNone(s: State, mode: ResetType)
    requires |s.checks| == |s.starts|
    ensures ResetFn(s, [], mode) == s
  {
  }

  lemma ResetNext(s: State, list: seq<nat>, i: nat, mode: ResetType)
    requires |s.checks| == |s.starts| && Listed(s, list) && i < |list|
    ensures ResetFn(s, list[..i + 1], mode) == ResetOne(ResetFn(s, list[..i], mode), list[i], mode)
  {
    assert list[..i + 1][..i] == list[..i];
  }

  lemma WithdrawNone(filter: multiset<Filter>, checks: seq<Check>)
    ensures Withdraw(filter, checks, []) == filter && Announce(filter, checks, []) == filter
  {
  }

  // ----- The operations, in place -------------------------------------------------------

  /** The shared state and the loops over it. Each method is one critical section;
      `notify` tells whether it wakes the sleepers. */
  class ConditionWaitLock {
    var counts: map<Source, u32>
    var checks: seq<Check>
    var starts: seq<u32>
    var events: seq<Option<seq<nat>>>
    var changeFilter: multiset<Filter>
    var cancelAllWaits: bool

    constructor ()
      ensures View() == State(map[], [], [], [], multiset{}, false) && Valid(View())
    {
      counts, checks, starts, events, changeFilter, cancelAllWaits := map[], [], [], [], multiset{}, false;
    }

    ghost function View(): State
      reads this
    {
      State(counts, checks, starts, events, changeFilter, cancelAllWaits)
    }

    method CheckConditionChanged(info: nat) returns (notify: bool)
      ensures notify <==> InfoId(info) in changeFilter
    {
      notify := InfoId(info) in changeFilter;
    }

    method BindCheck(e: nat, c: Check, start: u32)
      requires Valid(View()) && Alive(View(), e)
      modifies this
      ensures View() == BindFn(old(View()), e, c, start) && Valid(View())
      ensures checks == old(checks) + [c] && starts == old(starts) + [start]
      ensures events == old(events)[e := Some(old(events)[e].value + [|old(checks)|])]
    {
      BindValid(View(), e, c, start);
      changeFilter := changeFilter + multiset{FilterId(c.src)};
      events := events[e := Some(events[e].value + [|checks|])];
      checks := checks + [c];
      starts := starts + [start];
    }

    /** The loop that shares the checks of another event. */
    method InsertSharedChecks(e: nat, list: seq<nat>)
      requires Alive(View(), e) && forall k :: 0 <= k < |list| ==> list[k] < |checks|
      modifies this`changeFilter, this`events
      ensures changeFilter == Announce(old(changeFilter), checks, list)
      ensures events == old(events)[e := Some(old(events)[e].value + list)]
    {
      hide Announce;
      ghost var filter0, events0 := changeFilter, events;
      var i := 0;
      assert list[..0] == [];
      WithdrawNone(filter0, checks);
      assert events0[e].value + [] == events0[e].value;
      while i < |list|
        invariant i <= |list| && e < |events| && events == events0[e := Some(events0[e].value + list[..i])]
        invariant changeFilter == Announce(filter0, checks, list[..i])
      {
        AnnounceStep(filter0, checks, list, i);
        changeFilter := changeFilter + multiset{FilterId(checks[list[i]].src)};
        events := events[e := Some(events[e].value + [list[i]])];
        assert events0[e].value + list[..i] + [list[i]] == events0[e].value + list[..i + 1];
        i := i + 1;
      }
      assert list[..i] == list;
    }

    method BindEvent(e: nat, other: nat) returns (notify: bool)
      requires Valid(View()) && Alive(View(), e) && Alive(View(), other)
      modifies this`changeFilter, this`events
      ensures View() == BindEventFn(old(View()), e, other) && Valid(View())
      ensures e != other ==> events == old(events)[e := Some(old(events)[e].value + old(events)[other].value)]
      ensures notify <==> e != other
    {
      hide Bound, Announce;
      ghost var goal := BindEventFn(View(), e, other);
      BindEventValid(View(), e, other);
      notify := e != other;
      if notify {
        InsertSharedChecks(e, events[other].value);
      }
      assert View() == goal;
    }

    /** The loop that takes the checks of an event out of the filter. */
    method EraseFilters(list: seq<nat>)
      requires forall k :: 0 <= k < |list| ==> list[k] < |checks|
      modifies this`changeFilter
      ensures changeFilter == Withdraw(old(changeFilter), checks, list)
    {
      hide Withdraw;
      ghost var filter0 := changeFilter;
      var i := 0;
      assert list[..0] == [];
      WithdrawNone(filter0, checks);
      while i < |list|
        invariant i <= |list| && changeFilter == Withdraw(filter0, checks, list[..i])
      {
        WithdrawStep(filter0, checks, list, i);
        var id := FilterId(checks[list[i]].src);
        if id in changeFilter {
          changeFilter := changeFilter - multiset{id};
        }
        i := i + 1;
      }
      assert list[..i] == list;
    }

    method DestroyEvent(e: nat) returns (notify: bool)
      requires Valid(View()) && Alive(View(), e)
      modifies this`changeFilter, this`events
      ensures View() == DestroyFn(old(View()), e) && Valid(View())
      ensures events == old(events)[e := None]
      ensures notify <==> old(events)[e].value != []
    {
      hide Bound, Withdraw;
      ghost var goal := DestroyFn(View(), e);
      DestroyValid(View(), e);
      var list := events[e].value;
      EraseFilters(list);
      events := events[e := None];
      assert View() == goal;
      notify := list != [];
    }

    /** The reset of one check that is triggered and does not mean cancellation. */
    method ResetLocked(k: nat, mode: ResetType)
      requires |starts| == |checks| && k < |checks|
      modifies this`starts
      ensures View() == ResetOne(old(View()), k, mode) && |starts| == |checks|
      ensures var n := old(Outstanding(View(), k));
              Outstanding(View(), k) == if n == 0 || checks[k].cancel then n
                                        else match mode
                                             case AfterReset => 0
                                             case AfterTrigger => n - 1
                                             case AfterZero => Current(counts, checks[k].src)
    {
      DiffShift(Current(counts, checks[k].src), starts[k]);
      var count := Current(counts, checks[k].src);
      if Diff(count, starts[k]) > 0 {
        if !checks[k].cancel {
          match mode {
            case AfterReset => starts := starts[k := count];
            case AfterTrigger => starts := starts[k := Inc(starts[k])];
            case AfterZero => starts := starts[k := 0];
          }
        }
      }
    }

    method ResetTriggered(e: nat, mode: ResetType)
      requires Valid(View()) && Alive(View(), e)
      modifies this`starts
      ensures View() == ResetFn(old(View()), events[e].value, mode) && Valid(View())
    {
      hide Bound, ResetFn, ResetOne;
      ghost var before := View();
      var list := events[e].value;
      var i := 0;
      ResetNone(before, mode);
      assert list[..0] == [];
      while i < |list|
        invariant i <= |list| && |starts| == |checks|
        invariant View() == ResetFn(before, list[..i], mode)
      {
        ResetNext(before, list, i, mode);
        ResetLocked(list[i], mode);
        i := i + 1;
      }
      assert list[..i] == list;
    }

    /** The predicate of a wait: the first triggered check of the event decides. */
    method IsTriggeredLocked(e: nat) returns (r: Option<bool>)
      requires Valid(View()) && Alive(View(), e)
      ensures r == Probe(View(), events[e].value)
      ensures r.Some? <==> exists k :: 0 <= k < |events[e].value| && Triggered(View(), events[e].value[k])
      ensures forall k: nat :: FirstAt(View(), events[e].value, k) ==> r == Some(checks[events[e].value[k]].cancel)
    {
      ProbeExactly(View(), events[e].value);
      var list := events[e].value;
      var i := 0;
      while i < |list|
        invariant i <= |list| && Probe(View(), list) == Probe(View(), list[i..])
        invariant forall k :: 0 <= k < i ==> !Triggered(View(), list[k])
      {
        var c := checks[list[i]];
        if Diff(Current(counts, c.src), starts[list[i]]) > 0 {
          assert Triggered(View(), list[i]);
          return Some(c.cancel);
        }
        assert list[i..][1..] == list[i + 1..];
        i := i + 1;
      }
      return None;
    }

    /** What a wait that ends now returns: canceled when all waits are, or when the first
        triggered check says so; timed out when nothing is triggered. */
    method Result(e: nat) returns (r: WaitResult)
      requires Valid(View()) && Alive(View(), e)
      ensures r == Outcome(View(), events[e].value)
      ensures r.Canceled? <==>
              cancelAllWaits || exists k: nat :: FirstAt(View(), events[e].value, k) && checks[events[e].value[k]].cancel
      ensures r.TimedOut? <==>
              !cancelAllWaits && forall k :: 0 <= k < |events[e].value| ==> !Triggered(View(), events[e].value[k])
    {
      hide Triggered, Bound, Outstanding;
      var interpretAsCancel := false;
      var ready := cancelAllWaits;
      ProbeExactly(View(), events[e].value);
      if !ready {
        var first := IsTriggeredLocked(e);
        ready := first.Some?;
        interpretAsCancel := first == Some(true);
      }
      r := if cancelAllWaits || interpretAsCancel then Canceled else if ready then Signaled else TimedOut;
    }
  }
}
