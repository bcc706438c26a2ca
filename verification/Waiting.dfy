/** Where the call of a waiting activation is, and the step that takes it on from there. */
module Waiting {
  import opened Prelude
  import opened Packets
  import opened CallIds
  import opened Pending
  import opened Endpoint
  import opened Flow
  import opened Network
  import opened Ages

  // ----- Steps that get on --------------------------------------------------------------------

  /** The thread on which a posted call or result runs. */
  type Home = Packet -> Thread

  predicate Idle(fs: seq<Activation>, t: Thread) {
    forall j :: 0 <= j < |fs| && fs[j].thread == t ==> !Live(fs[j])
  }

  predicate Quiet(fs: seq<Activation>) {
    forall j :: 0 <= j < |fs| ==> !Live(fs[j])
  }

  /** A step that needs nobody's decision: no new call, no spurious wakeup, no read that waits
      and comes back empty. A posted job runs on its own thread when that does nothing else,
      and a thread looks in only on a side where nobody does anything. */
  ghost predicate Ready(n: Net, home: Home, act: Action) {
    EnabledA(n, act) &&
    match act
    case Receive(i, ok, got) => ok && (got.Some? || n.a.acts[i].wait == INVALID_ID)
    case Enter(_) => Quiet(n.a.acts) && (n.a.pend.queue != [] || n.ba != [])
    case StartJob(t, j) => t == home(n.a.jobs[j]) && Idle(n.a.acts, t)
    case SendResult(j) => Idle(n.a.acts, home(n.a.jobs[j]))
    case Issue(_, _, _, _, _) => false
    case WakeUp(_) => false
    case Post(_) => false
    case _ => true
  }

  predicate Waits(f: Activation) {
    f.Loop? && f.wait != INVALID_ID && Live(f)
  }

  /** The innermost activation of a thread waits and cannot move by itself. */
  predicate Stuck(n: Net, i: nat) {
    IsTop(n.a.acts, i) && Waits(n.a.acts[i]) && (n.a.acts[i].pc.Asleep? || (n.a.acts[i].pc.Reading? && n.ba == []))
  }

  lemma TopMoves(n: Net, home: Home, i: nat) returns (act: Action)
    requires Inv(n.a) && IsTop(n.a.acts, i) && !Stuck(n, i)
    ensures Ready(n, home, act) && MoveOf(act, i)
  {
    var f := n.a.acts[i];
    assert SleepOk(f, n.a.pend);
    match f {
      case Sending(_, _, _) => act := Send(i);
      case Job(_, c) => act := FinishJob(i, FittingReply(c), false);
      case Loop(_, _, _, pc) =>
        match pc {
          case Top => act := Pass(i);
          case Woken => act := Pass(i);
          case Reading =>
            act := Receive(i, true, if n.ba != [] then Some(n.ba[0]) else None);
          case Received(_, _) => act := Store(i);
          case Dispatching(p) => act := Finish(i, FittingReply(p), false);
        }
    }
  }

  /** A thread whose innermost activation is stuck has no step. */
  lemma StuckThread(n: Net, home: Home, i: nat, act: Action, j: nat)
    requires Stuck(n, i) && Ready(n, home, act) && j < |n.a.acts| && n.a.acts[j].thread == n.a.acts[i].thread
    ensures !MoveOf(act, j)
  {
  }

  /** The action moves the thread that reads. While nobody reads every thread is on its way,
      and when there is none, one looks in. */
  ghost predicate ReadsOn(n: Net, act: Action) {
    || act.Enter?
    || exists i: nat ::
         i < |n.a.acts| && MoveOf(act, i) && (n.a.pend.locked == None || n.a.pend.locked == Some(n.a.acts[i].thread))
  }

  lemma FreeMoves(n: Net, home: Home) returns (act: Action)
    requires Inv(n.a) && n.a.pend.locked == None && (n.a.pend.queue != [] || n.ba != [])
    ensures Ready(n, home, act) && ReadsOn(n, act)
  {
    if k :| 0 <= k < |n.a.acts| && Live(n.a.acts[k]) {
      var i := TopOf(n.a.acts, k);
      assert SleepOk(n.a.acts[i], n.a.pend);
      act := TopMoves(n, home, i);
    } else {
      act := Enter(0);
    }
  }

  /** Only the reader itself can be stuck on its thread. */
  lemma ReaderTop(n: Net) returns (i: nat)
    requires Inv(n.a) && n.a.pend.locked.Some?
    ensures IsTop(n.a.acts, i) && n.a.pend.locked == Some(n.a.acts[i].thread)
    ensures Stuck(n, i) ==> HasRole(n.a.acts[i])
  {
    var r :| 0 <= r < |n.a.acts| && HasRole(n.a.acts[r]);
    i := TopOf(n.a.acts, r);
    if i != r {
      assert Above(n.a.acts[r], n.a.acts[i]);
    }
    assert SleepOk(n.a.acts[i], n.a.pend);
  }

  lemma ChannelMoves(n: Net, home: Home) returns (act: Action)
    requires Inv(n.a) && n.ba != []
    ensures Ready(n, home, act) && ReadsOn(n, act)
  {
    if n.a.pend.locked == None {
      act := FreeMoves(n, home);
    } else {
      var i := ReaderTop(n);
      act := TopMoves(n, home, i);
    }
  }

  // ----- Queued calls ---------------------------------------------------------------------------

  predicate Processes(f: Activation) {
    Live(f) && ((f.Sending? && f.process) || (f.Loop? && f.process))
  }

  /** The action moves the thread that reads, or one that will take calls. */
  ghost predicate ServesQueue(n: Net, act: Action) {
    || ReadsOn(n, act)
    || exists i: nat, p: nat ::
         i < |n.a.acts| && p < |n.a.acts| && MoveOf(act, i) && n.a.acts[i].thread == n.a.acts[p].thread && Processes(n.a.acts[p])
  }

  /** Calls are queued; the thread that reads takes none and has nothing to read, and every
      thread that would take calls waits itself. */
  ghost predicate Blocked(n: Net) {
    && n.a.pend.queue != []
    && (exists r: nat :: r < |n.a.acts| && HasRole(n.a.acts[r]) && Stuck(n, r) && !n.a.acts[r].process)
    && forall i: nat, p: nat ::
         i < |n.a.acts| && p < |n.a.acts| && IsTop(n.a.acts, i) && n.a.acts[i].thread == n.a.acts[p].thread && Processes(n.a.acts[p]) ==>
           Stuck(n, i)
  }

  lemma QueueMoves(n: Net, home: Home) returns (act: Action)
    requires Inv(n.a) && RoleClear(n.a) && n.a.pend.queue != [] && !Blocked(n)
    ensures Ready(n, home, act) && ServesQueue(n, act)
  {
    if n.a.pend.locked == None {
      act := FreeMoves(n, home);
    } else {
      var i := ReaderTop(n);
      if Stuck(n, i) {
        var j: nat, p: nat :|
          j < |n.a.acts| && p < |n.a.acts| && IsTop(n.a.acts, j) && n.a.acts[j].thread == n.a.acts[p].thread
          && Processes(n.a.acts[p]) && !Stuck(n, j);
        act := TopMoves(n, home, j);
      } else {
        act := TopMoves(n, home, i);
      }
    }
  }

  lemma BlockedStops(n: Net, home: Home, act: Action)
    requires Inv(n.a) && Blocked(n) && Ready(n, home, act)
    ensures !ServesQueue(n, act)
  {
    var r: nat :| r < |n.a.acts| && HasRole(n.a.acts[r]) && Stuck(n, r);
    forall i: nat, p: nat | i < |n.a.acts| && p < |n.a.acts| && MoveOf(act, i) && n.a.acts[i].thread == n.a.acts[p].thread
      ensures n.a.acts[i].thread != n.a.acts[r].thread && !Processes(n.a.acts[p])
    {
      if n.a.acts[i].thread == n.a.acts[r].thread {
        StuckThread(n, home, r, act, i);
      }
      if Processes(n.a.acts[p]) {
        assert IsTop(n.a.acts, i);
        StuckThread(n, home, i, act, i);
      }
    }
    if i: nat :| i < |n.a.acts| && MoveOf(act, i) {
      assert n.a.acts[i].thread != n.a.acts[r].thread;
    }
  }

  /** Queued calls are served by some step exactly when the side is not blocked. */
  lemma QueueExactly(n: Net, home: Home)
    requires Inv(n.a) && RoleClear(n.a) && n.a.pend.queue != []
    ensures (exists act :: Ready(n, home, act) && ServesQueue(n, act)) <==> !Blocked(n)
  {
    hide Inv, RoleClear, Ready, ServesQueue;
    if Blocked(n) {
      forall act | Ready(n, home, act)
        ensures !ServesQueue(n, act)
      {
        BlockedStops(n, home, act);
      }
    } else {
      var act := QueueMoves(n, home);
    }
  }

  // ----- Posted jobs ----------------------------------------------------------------------------

  ghost predicate RunsJob(n: Net, home: Home, act: Action, j: nat)
    requires j < |n.a.jobs|
  {
    || ((act.StartJob? || act.SendResult?) && act.j == j)
    || exists i: nat :: i < |n.a.acts| && MoveOf(act, i) && n.a.acts[i].thread == home(n.a.jobs[j])
  }

  /** The thread of a posted job waits itself. */
  ghost predicate Parked(n: Net, home: Home, j: nat)
    requires j < |n.a.jobs|
  {
    exists i: nat :: i < |n.a.acts| && Stuck(n, i) && n.a.acts[i].thread == home(n.a.jobs[j])
  }

  lemma JobMoves(n: Net, home: Home, j: nat) returns (act: Action)
    requires Inv(n.a) && j < |n.a.jobs| && !Parked(n, home, j)
    ensures Ready(n, home, act) && RunsJob(n, home, act, j)
  {
    var p := n.a.jobs[j];
    assert p in n.a.jobs;
    if k :| 0 <= k < |n.a.acts| && n.a.acts[k].thread == home(p) && Live(n.a.acts[k]) {
      var i := TopOf(n.a.acts, k);
      act := TopMoves(n, home, i);
    } else {
      act := if IsCall(p) then StartJob(home(p), j) else SendResult(j);
    }
  }

  lemma ParkedStops(n: Net, home: Home, j: nat, act: Action)
    requires j < |n.a.jobs| && Parked(n, home, j) && Ready(n, home, act)
    ensures !RunsJob(n, home, act, j)
  {
    var r: nat :| r < |n.a.acts| && Stuck(n, r) && n.a.acts[r].thread == home(n.a.jobs[j]);
    if i: nat :| i < |n.a.acts| && MoveOf(act, i) && n.a.acts[i].thread == home(n.a.jobs[j]) {
      StuckThread(n, home, r, act, i);
    }
  }

  /** A posted job is served by some step exactly when its thread is not stuck. */
  lemma JobExactly(n: Net, home: Home, j: nat)
    requires Inv(n.a) && j < |n.a.jobs|
    ensures (exists act :: Ready(n, home, act) && RunsJob(n, home, act, j)) <==> !Parked(n, home, j)
  {
    hide Inv, Ready, RunsJob;
    if Parked(n, home, j) {
      forall act | Ready(n, home, act)
        ensures !RunsJob(n, home, act, j)
      {
        ParkedStops(n, home, j, act);
      }
    } else {
      var act := JobMoves(n, home, j);
    }
  }

  // ----- The call that somebody waits for -----------------------------------------------------

  /** The threads of the jobs on both sides. */
  datatype Homes = Homes(a: Home, b: Home)

  function HomeOf(h: Homes, side: Side): Home {
    if side == A then h.a else h.b
  }

  function FlipHomes(h: Homes): Homes {
    Homes(h.b, h.a)
  }

  function HomesFrom(h: Homes, side: Side): Homes {
    if side == A then h else FlipHomes(h)
  }

  predicate Concerns(p: Packet, k: u32) {
    CallId(k)(p) || RespId(k)(p)
  }

  /** The action moves on a posted call with the id, or its result. */
  ghost predicate ServesJobs(n: Net, home: Home, k: u32, act: Action) {
    exists j: nat :: j < |n.a.jobs| && Concerns(n.a.jobs[j], k) && RunsJob(n, home, act, j)
  }

  /** The action moves a thread that holds a call with the id. */
  ghost predicate ServesHandling(n: Net, k: u32, act: Action) {
    exists x: nat, i: nat ::
      x < |n.a.acts| && i < |n.a.acts| && ActCall(k)(n.a.acts[x]) && MoveOf(act, i) && n.a.acts[i].thread == n.a.acts[x].thread
  }

  /** For each place where the call of `w` can be: the step that takes it on from there, by
      `w`'s own side or by the peer. */
  ghost predicate MovesOn(n: Net, h: Homes, w: nat, side: Side, act: Action) {
    w < |n.a.acts| && n.a.acts[w].Loop? &&
    var k := n.a.acts[w].wait;
    match side
    case A =>
      || (exists i: nat :: i < |n.a.acts| && MoveOf(act, i) && n.a.acts[i].thread == n.a.acts[w].thread)
      || (Count(n.ba, RespId(k)) > 0 && ReadsOn(n, act))
      || (act.Store? && act.i < |n.a.acts| && ActResp(k)(n.a.acts[act.i]))
    case B =>
      || (Count(n.ab, CallId(k)) > 0 && ReadsOn(Flip(n), act))
      || (Count(n.b.pend.queue, CallId(k)) > 0 && ServesQueue(Flip(n), act))
      || ServesJobs(Flip(n), h.b, k, act)
      || ServesHandling(Flip(n), k, act)
  }

  /** `w` cannot go on before `v`, which is stuck: `v` runs above `w`, or above the handling of
      the call of `w`. */
  ghost predicate Needs(n: Net, w: nat, side: Side, v: nat) {
    w < |n.a.acts| &&
    match side
    case A => w < v < |n.a.acts| && Above(n.a.acts[w], n.a.acts[v]) && Stuck(n, v)
    case B =>
      exists x: nat ::
        x < v < |n.b.acts| && Above(n.b.acts[x], n.b.acts[v]) && Serves(n.b.acts[x], n.a.acts[w]) && Stuck(Flip(n), v)
  }

  /** The call of `w` is queued on a side that is blocked, or it, or its result, is posted to a
      thread that is stuck. */
  ghost predicate Shut(n: Net, h: Homes, w: nat) {
    w < |n.a.acts| && n.a.acts[w].Loop? &&
    var k := n.a.acts[w].wait;
    || (Count(n.b.pend.queue, CallId(k)) > 0 && Blocked(Flip(n)))
    || exists j: nat :: j < |n.b.jobs| && Concerns(n.b.jobs[j], k) && Parked(Flip(n), h.b, j)
  }

  /** How it goes on with a call: by a step, behind a stuck activation, or not at all. */
  datatype Way = Step(side: Side, act: Action) | Behind(side: Side, v: nat) | Closed

  ghost predicate WayOk(n: Net, h: Homes, w: nat, way: Way) {
    match way
    case Step(side, act) => Ready(SeenFrom(n, side), HomeOf(h, side), act) && MovesOn(n, h, w, side, act)
    case Behind(side, v) => Needs(n, w, side, v)
    case Closed => Stuck(n, w) && Shut(n, h, w)
  }

  /** Where a handled call is, its thread can move, or a younger wait runs above it. */
  lemma HandlingWay(n: Net, h: Homes, w: nat) returns (way: Way)
    requires Inv(n.b) && w < |n.a.acts| && Waits(n.a.acts[w]) && Count(n.b.acts, ActCall(n.a.acts[w].wait)) >= 1
    ensures WayOk(n, h, w, way)
  {
    var x := CountWitness(n.b.acts, ActCall(n.a.acts[w].wait));
    assert HeldOk(n.b.acts[x]);
    var y := TopOf(n.b.acts, x);
    if Stuck(Flip(n), y) {
      assert Serves(n.b.acts[x], n.a.acts[w]);
      way := Behind(B, y);
    } else {
      var act := TopMoves(Flip(n), h.b, y);
      way := Step(B, act);
    }
  }

  /** A response that `w` waits for is not held by an activation that is stuck. */
  lemma HandWay(n: Net, h: Homes, w: nat) returns (way: Way)
    requires NetInv(n) && n.a.log.advances <= ID_COUNT && RoleClear(n.a) && Stuck(n, w) && RespHeld(n.a, n.a.acts[w].wait) >= 1
    ensures WayOk(n, h, w, way)
  {
    var k := n.a.acts[w].wait;
    assert SleepOk(n.a.acts[w], n.a.pend);
    assert k !in n.a.pend.responses;
    var g := CountWitness(n.a.acts, ActResp(k));
    assert HeldOk(n.a.acts[g]);
    if n.a.acts[g].Loop? && n.a.acts[g].wait == k {
      OneWaiter(n, w, g);
    }
    way := Step(A, Store(g));
  }

  lemma JobWay(n: Net, h: Homes, w: nat) returns (way: Way)
    requires Inv(n.b) && Stuck(n, w)
    requires Count(n.b.jobs, CallId(n.a.acts[w].wait)) + ResultsPosted(n.b, n.a.acts[w].wait) >= 1
    ensures WayOk(n, h, w, way)
  {
    var k := n.a.acts[w].wait;
    var j;
    if Count(n.b.jobs, CallId(k)) >= 1 {
      j := CountWitness(n.b.jobs, CallId(k));
    } else {
      j := CountWitness(n.b.jobs, RespId(k));
    }
    assert Concerns(n.b.jobs[j], k);
    hide Ready, RunsJob, Parked, Concerns;
    if Parked(Flip(n), h.b, j) {
      way := Closed;
    } else {
      var act := JobMoves(Flip(n), h.b, j);
      assert ServesJobs(Flip(n), h.b, k, act);
      way := Step(B, act);
    }
  }

  lemma ChannelWay(n: Net, h: Homes, w: nat) returns (way: Way)
    requires Inv(n.a) && Inv(n.b) && w < |n.a.acts| && Waits(n.a.acts[w])
    requires Count(n.ab, CallId(n.a.acts[w].wait)) + Count(n.ba, RespId(n.a.acts[w].wait)) >= 1
    ensures WayOk(n, h, w, way)
  {
    hide Ready, ReadsOn;
    if Count(n.ab, CallId(n.a.acts[w].wait)) >= 1 {
      var act := ChannelMoves(Flip(n), h.b);
      way := Step(B, act);
    } else {
      var act := ChannelMoves(n, h.a);
      way := Step(A, act);
    }
  }

  lemma QueueWay(n: Net, h: Homes, w: nat) returns (way: Way)
    requires Inv(n.b) && RoleClear(n.b) && Stuck(n, w) && Count(n.b.pend.queue, CallId(n.a.acts[w].wait)) >= 1
    ensures WayOk(n, h, w, way)
  {
    hide Ready, ServesQueue, Blocked;
    if Blocked(Flip(n)) {
      way := Closed;
    } else {
      var act := QueueMoves(Flip(n), h.b);
      way := Step(B, act);
    }
  }

  lemma PlaceWay(n: Net, h: Homes, w: nat) returns (way: Way)
    requires NetInv(n) && n.a.log.advances <= ID_COUNT && RoleClear(n.a) && RoleClear(n.b) && Stuck(n, w)
    requires Places(n, n.a.acts[w].wait) == 1
    ensures WayOk(n, h, w, way)
  {
    var k := n.a.acts[w].wait;
    assert Inv(n.a) && Inv(n.b);
    hide NetInv, Inv, RoleClear, WayOk, Count;
    if Count(n.ab, CallId(k)) + Count(n.ba, RespId(k)) >= 1 {
      way := ChannelWay(n, h, w);
    } else if Count(n.b.pend.queue, CallId(k)) >= 1 {
      way := QueueWay(n, h, w);
    } else if Count(n.b.jobs, CallId(k)) + ResultsPosted(n.b, k) >= 1 {
      way := JobWay(n, h, w);
    } else if Count(n.b.acts, ActCall(k)) >= 1 {
      way := HandlingWay(n, h, w);
    } else {
      way := HandWay(n, h, w);
    }
  }

  /** Wherever the call is: there is a step that takes it on, or a stuck activation in the way,
      or it is shut off. */
  lemma WaiterMoves(n: Net, h: Homes, w: nat) returns (way: Way)
    requires NetInv(n) && n.a.log.advances <= ID_COUNT && RoleClear(n.a) && RoleClear(n.b)
    requires w < |n.a.acts| && Waits(n.a.acts[w])
    ensures WayOk(n, h, w, way)
  {
    var y := TopOf(n.a.acts, w);
    if !Stuck(n, y) {
      var act := TopMoves(n, h.a, y);
      way := Step(A, act);
    } else if y != w {
      way := Behind(A, y);
    } else {
      OnePlaceIn(n, w);
      way := PlaceWay(n, h, w);
    }
  }

  // ----- A call that is shut off has no other way -----------------------------------------------

  lemma ConcernCounts(s: seq<Packet>, k: u32, i: nat, j: nat)
    requires i < |s| && j < |s| && Concerns(s[i], k) && Concerns(s[j], k)
    requires Count(s, CallId(k)) + Count(s, RespId(k)) <= 1
    ensures i == j && Count(s, CallId(k)) + Count(s, RespId(k)) == 1
  {
    if CallId(k)(s[i]) {
      CountAtLeast(s, i, CallId(k));
    } else {
      CountAtLeast(s, i, RespId(k));
    }
    if CallId(k)(s[j]) {
      CountAtLeast(s, j, CallId(k));
    } else {
      CountAtLeast(s, j, RespId(k));
    }
    if i != j && CallId(k)(s[i]) && CallId(k)(s[j]) {
      CountTwo(s, if i < j then i else j, if i < j then j else i, CallId(k));
    }
    if i != j && RespId(k)(s[i]) && RespId(k)(s[j]) {
      CountTwo(s, if i < j then i else j, if i < j then j else i, RespId(k));
    }
  }

  /** A shut call is in no other place. */
  lemma ShutPlace(n: Net, h: Homes, w: nat)
    requires Stuck(n, w) && Shut(n, h, w) && Places(n, n.a.acts[w].wait) == 1
    ensures var k := n.a.acts[w].wait;
            && Count(n.ab, CallId(k)) == 0 && Count(n.ba, RespId(k)) == 0 && Count(n.a.acts, ActResp(k)) == 0
            && Count(n.b.acts, ActCall(k)) == 0
            && (Count(n.b.pend.queue, CallId(k)) > 0 ==>
                  Blocked(Flip(n)) && Count(n.b.jobs, CallId(k)) + Count(n.b.jobs, RespId(k)) == 0)
            && Count(n.b.jobs, CallId(k)) + Count(n.b.jobs, RespId(k)) <= 1
  {
    var k := n.a.acts[w].wait;
    hide Blocked, Parked;
    if j: nat :| j < |n.b.jobs| && Concerns(n.b.jobs[j], k) && Parked(Flip(n), h.b, j) {
      ConcernCounts(n.b.jobs, k, j, j);
    }
  }

  lemma ShutStops(n: Net, h: Homes, w: nat, side: Side, act: Action)
    requires Inv(n.b) && Stuck(n, w) && Shut(n, h, w) && Places(n, n.a.acts[w].wait) == 1
    requires Ready(SeenFrom(n, side), HomeOf(h, side), act)
    ensures !MovesOn(n, h, w, side, act)
  {
    var k := n.a.acts[w].wait;
    ShutPlace(n, h, w);
    if side == A {
      forall i: nat | i < |n.a.acts| && n.a.acts[i].thread == n.a.acts[w].thread
        ensures !MoveOf(act, i)
      {
        StuckThread(n, h.a, w, act, i);
      }
      if act.Store? && act.i < |n.a.acts| && ActResp(k)(n.a.acts[act.i]) {
        CountAtLeast(n.a.acts, act.i, ActResp(k));
      }
    } else {
      ShutPeer(n, h, w, act);
    }
  }

  lemma ShutJobs(n: Net, h: Homes, w: nat, act: Action)
    requires Stuck(n, w) && Shut(n, h, w) && Places(n, n.a.acts[w].wait) == 1 && Ready(Flip(n), h.b, act)
    ensures !ServesJobs(Flip(n), h.b, n.a.acts[w].wait, act)
  {
    var k := n.a.acts[w].wait;
    ShutPlace(n, h, w);
    hide Ready, Blocked, Parked, RunsJob, Places, Concerns, Count;
    forall j: nat | j < |n.b.jobs| && Concerns(n.b.jobs[j], k)
      ensures !RunsJob(Flip(n), h.b, act, j)
    {
      ConcernCounts(n.b.jobs, k, j, j);
      var i: nat :| i < |n.b.jobs| && Concerns(n.b.jobs[i], k) && Parked(Flip(n), h.b, i);
      ConcernCounts(n.b.jobs, k, i, j);
      ParkedStops(Flip(n), h.b, j, act);
    }
  }

  lemma NoneHandled(n: Net, k: u32, act: Action)
    requires Count(n.a.acts, ActCall(k)) == 0
    ensures !ServesHandling(n, k, act)
  {
    forall x: nat | x < |n.a.acts|
      ensures !ActCall(k)(n.a.acts[x])
    {
      if ActCall(k)(n.a.acts[x]) {
        CountAtLeast(n.a.acts, x, ActCall(k));
      }
    }
  }

  lemma ShutPeer(n: Net, h: Homes, w: nat, act: Action)
    requires Inv(n.b) && Stuck(n, w) && Shut(n, h, w) && Places(n, n.a.acts[w].wait) == 1
    requires Ready(Flip(n), h.b, act)
    ensures !MovesOn(n, h, w, B, act)
  {
    var k := n.a.acts[w].wait;
    ShutPlace(n, h, w);
    ShutJobs(n, h, w, act);
    NoneHandled(Flip(n), k, act);
    hide Ready, Blocked, ServesJobs, ServesHandling, ServesQueue, ReadsOn, Inv, Places, Shut, Count;
    if Count(n.b.pend.queue, CallId(k)) > 0 {
      BlockedStops(Flip(n), h.b, act);
    }
  }

  lemma ShutNeedsNone(n: Net, h: Homes, w: nat, side: Side, v: nat)
    requires Stuck(n, w) && Shut(n, h, w) && Places(n, n.a.acts[w].wait) == 1
    ensures !Needs(n, w, side, v)
  {
    var k := n.a.acts[w].wait;
    ShutPlace(n, h, w);
    hide Blocked, Parked, Shut;
    if side == B && Needs(n, w, side, v) {
      var x: nat :| x < v < |n.b.acts| && Above(n.b.acts[x], n.b.acts[v]) && Serves(n.b.acts[x], n.a.acts[w]) && Stuck(Flip(n), v);
      CountAtLeast(n.b.acts, x, ActCall(k));
    }
  }

  /** A stuck wait is shut off exactly when no step moves its call on and nobody is in its way. */
  lemma ShutExactly(n: Net, h: Homes, w: nat)
    requires NetInv(n) && n.a.log.advances <= ID_COUNT && RoleClear(n.a) && RoleClear(n.b) && Stuck(n, w)
    ensures Shut(n, h, w)
            <==> (forall side, act :: Ready(SeenFrom(n, side), HomeOf(h, side), act) ==> !MovesOn(n, h, w, side, act))
                 && forall side, v :: !Needs(n, w, side, v)
  {
    if Shut(n, h, w) {
      OnePlaceIn(n, w);
      assert Inv(n.b);
      hide NetInv, Inv, Ready, MovesOn, Needs, Shut;
      forall side, act | Ready(SeenFrom(n, side), HomeOf(h, side), act)
        ensures !MovesOn(n, h, w, side, act)
      {
        ShutStops(n, h, w, side, act);
      }
      forall side, v
        ensures !Needs(n, w, side, v)
      {
        if v >= 0 {
          ShutNeedsNone(n, h, w, side, v);
        }
      }
    } else {
      var way := WaiterMoves(n, h, w);
    }
  }
}
