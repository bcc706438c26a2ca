/** When two endpoints block each other: whoever waits, a chain of younger waits leads to a
    step that moves a call on, or to a call that is queued where the thread that reads takes
    no calls, or posted to a thread that waits itself. */
module Progress {
  import opened Prelude
  import opened Packets
  import opened Pending
  import opened Endpoint
  import opened Network
  import opened Ages
  import opened Waiting

  // ----- Nobody waits in a circle -------------------------------------------------------------

  datatype Who = Who(side: Side, v: nat)

  function Other(side: Side): Side {
    if side == A then B else A
  }

  /** `side` as somebody on `base` sees it. */
  function Rel(base: Side, side: Side): Side {
    if side == base then A else B
  }

  ghost predicate Chained(n: Net, chain: seq<Who>) {
    forall j :: 0 <= j < |chain| - 1 ==>
      Needs(SeenFrom(n, chain[j].side), chain[j].v, Rel(chain[j].side, chain[j + 1].side), chain[j + 1].v)
  }

  ghost predicate MovesFor(n: Net, h: Homes, c: Who, x: NetAction) {
    && Ready(SeenFrom(n, x.side), HomeOf(h, x.side), x.act)
    && MovesOn(SeenFrom(n, c.side), HomesFrom(h, c.side), c.v, Rel(c.side, x.side), x.act)
  }

  ghost predicate ShutFor(n: Net, h: Homes, c: Who) {
    Stuck(SeenFrom(n, c.side), c.v) && Shut(SeenFrom(n, c.side), HomesFrom(h, c.side), c.v)
  }

  ghost predicate EndsWell(n: Net, h: Homes, c: Who, x: Option<NetAction>) {
    if x.Some? then MovesFor(n, h, c, x.value) else ShutFor(n, h, c)
  }

  function AgeOf(ta: seq<nat>, tb: seq<nat>, c: Who): nat
    requires c.v < |if c.side == A then ta else tb|
  {
    if c.side == A then ta[c.v] else tb[c.v]
  }

  /** Whoever is in the way is younger. */
  lemma NeedsYounger(n: Net, ta: seq<nat>, tb: seq<nat>, w: nat, side: Side, v: nat)
    requires |ta| == |n.a.acts| && |tb| == |n.b.acts| && Younger(n, ta, tb)
    requires forall u, v :: 0 <= u < v < |ta| ==> ta[u] < ta[v]
    requires Needs(n, w, side, v)
    ensures v < |if side == A then ta else tb| && ta[w] < AgeOf(ta, tb, Who(side, v))
    ensures Waits(if side == A then n.a.acts[v] else n.b.acts[v])
  {
  }

  lemma AgeKnown(n: Net, ta: seq<nat>, tb: seq<nat>, now: nat, c: Who)
    requires AgeInv(n, ta, tb, now) && c.v < |SeenFrom(n, c.side).a.acts|
    ensures c.v < |if c.side == A then ta else tb| && AgeOf(ta, tb, c) <= now
  {
  }

  /** The first link of the chain, or its end. */
  lemma Link(n: Net, h: Homes, ta: seq<nat>, tb: seq<nat>, now: nat, c: Who) returns (d: Option<Who>, x: Option<NetAction>)
    requires NetInv(n) && Bounded(n) && AgeInv(n, ta, tb, now)
    requires c.v < |SeenFrom(n, c.side).a.acts| && Waits(SeenFrom(n, c.side).a.acts[c.v])
    ensures c.v < |if c.side == A then ta else tb|
    ensures d.None? ==> EndsWell(n, h, c, x)
    ensures d.Some? ==>
              && Needs(SeenFrom(n, c.side), c.v, Rel(c.side, d.value.side), d.value.v)
              && d.value.v < |if d.value.side == A then ta else tb| && AgeOf(ta, tb, c) < AgeOf(ta, tb, d.value) <= now
              && d.value.v < |SeenFrom(n, d.value.side).a.acts| && Waits(SeenFrom(n, d.value.side).a.acts[d.value.v])
  {
    var m := SeenFrom(n, c.side);
    FlipInv(n);
    var way := WaiterMoves(m, HomesFrom(h, c.side), c.v);
    hide NetInv, Inv, Younger, RoleClear, Needs, Ready, MovesOn, Waits, Shut, Stuck;
    assert Flip(Flip(n)) == n;
    x, d := None, None;
    match way {
      case Step(rel, act) =>
        x := Some(By(if rel == A then c.side else Other(c.side), act));
      case Behind(rel, v) =>
        d := Some(Who(if rel == A then c.side else Other(c.side), v));
        NeedsYounger(m, if c.side == A then ta else tb, if c.side == A then tb else ta, c.v, rel, v);
      case Closed =>
    }
  }

  lemma {:induction false} ChainFrom(n: Net, h: Homes, ta: seq<nat>, tb: seq<nat>, now: nat, c: Who)
    returns (chain: seq<Who>, x: Option<NetAction>)
    requires NetInv(n) && Bounded(n) && AgeInv(n, ta, tb, now)
    requires c.v < |SeenFrom(n, c.side).a.acts| && Waits(SeenFrom(n, c.side).a.acts[c.v])
    requires c.v < |if c.side == A then ta else tb| && AgeOf(ta, tb, c) <= now
    ensures chain != [] && chain[0] == c && Chained(n, chain) && EndsWell(n, h, chain[|chain| - 1], x)
    decreases now - AgeOf(ta, tb, c)
  {
    hide NetInv, AgeInv, Bounded, Needs, EndsWell, Waits, SeenFrom;
    var d;
    d, x := Link(n, h, ta, tb, now, c);
    chain := [c];
    if d.Some? {
      chain, x := ChainFrom(n, h, ta, tb, now, d.value);
      chain := [c] + chain;
    }
  }

  /** From every activation that waits, on either side, a finite chain of stuck activations,
      each younger than the one before and in its way, leads to one whose call can be moved on
      by a step that needs nobody's decision, or to one that is shut off. */
  lemma NoDeadlock(ns: seq<Net>, run: seq<NetAction>, i: nat, h: Homes, c: Who) returns (chain: seq<Who>, x: Option<NetAction>)
    requires IsNetRun(ns, run) && i < |ns| && Bounded(ns[i])
    requires c.v < |SeenFrom(ns[i], c.side).a.acts| && Waits(SeenFrom(ns[i], c.side).a.acts[c.v])
    ensures chain != [] && chain[0] == c && Chained(ns[i], chain) && EndsWell(ns[i], h, chain[|chain| - 1], x)
  {
    hide NetInv, AgeInv, Bounded, Births, EndsWell;
    NetInvAlways(ns, run, i);
    AgeAlways(ns, run, i);
    AgeKnown(ns[i], Births(ns, A, i), Births(ns, B, i), i, c);
    chain, x := ChainFrom(ns[i], h, Births(ns, A, i), Births(ns, B, i), i, c);
  }

  // ----- Nothing moves any more -----------------------------------------------------------------

  /** Every thread is stuck, every job waits for a thread that does something, and there is
      nothing to look in for. */
  ghost predicate Halted(n: Net, home: Home) {
    && (forall i :: 0 <= i < |n.a.acts| && IsTop(n.a.acts, i) ==> Stuck(n, i))
    && (forall j :: 0 <= j < |n.a.jobs| ==> !Idle(n.a.acts, home(n.a.jobs[j])))
    && (Quiet(n.a.acts) ==> n.a.pend.queue == [] && n.ba == [])
  }

  lemma HaltedStops(n: Net, home: Home, act: Action)
    requires Halted(n, home)
    ensures !Ready(n, home, act)
  {
    if Ready(n, home, act) && !act.Enter? && !act.StartJob? && !act.SendResult? {
      StuckThread(n, home, act.i, act, act.i);
    }
  }

  /** A side has no step left exactly when it is halted. */
  lemma HaltedExactly(n: Net, home: Home)
    requires Inv(n.a)
    ensures (forall act :: !Ready(n, home, act)) <==> Halted(n, home)
  {
    if Halted(n, home) {
      forall act
        ensures !Ready(n, home, act)
      {
        HaltedStops(n, home, act);
      }
    } else {
      var act := NotHalted(n, home);
    }
  }

  lemma IdleIsFree(n: Net, home: Home, j: nat)
    requires j < |n.a.jobs| && Idle(n.a.acts, home(n.a.jobs[j]))
    ensures !Parked(n, home, j)
  {
  }

  lemma NotHalted(n: Net, home: Home) returns (act: Action)
    requires Inv(n.a) && !Halted(n, home)
    ensures Ready(n, home, act)
  {
    if i: nat :| i < |n.a.acts| && IsTop(n.a.acts, i) && !Stuck(n, i) {
      act := TopMoves(n, home, i);
    } else if j: nat :| j < |n.a.jobs| && Idle(n.a.acts, home(n.a.jobs[j])) {
      IdleIsFree(n, home, j);
      act := JobMoves(n, home, j);
    } else {
      act := Enter(0);
    }
  }

  /** The pair comes to a halt while somebody waits exactly when both sides are halted, and
      then some wait is shut off. */
  lemma HaltMeans(ns: seq<Net>, run: seq<NetAction>, i: nat, h: Homes, c: Who) returns (d: Who)
    requires IsNetRun(ns, run) && i < |ns| && Bounded(ns[i])
    requires c.v < |SeenFrom(ns[i], c.side).a.acts| && Waits(SeenFrom(ns[i], c.side).a.acts[c.v])
    ensures (forall x: NetAction :: !Ready(SeenFrom(ns[i], x.side), HomeOf(h, x.side), x.act))
            <==> Halted(ns[i], h.a) && Halted(Flip(ns[i]), h.b)
    ensures Halted(ns[i], h.a) && Halted(Flip(ns[i]), h.b) ==> ShutFor(ns[i], h, d)
  {
    hide AgeInv, Bounded, Births, MovesOn, Shut, Needs;
    var n := ns[i];
    NetInvAlways(ns, run, i);
    assert Inv(n.a) && Inv(Flip(n).a);
    var chain, x := NoDeadlock(ns, run, i, h, c);
    d := chain[|chain| - 1];
    HaltedExactly(n, h.a);
    HaltedExactly(Flip(n), h.b);
    hide NetInv, Inv, Ready, Halted, Stuck;
    if forall x: NetAction :: !Ready(SeenFrom(n, x.side), HomeOf(h, x.side), x.act) {
      forall act
        ensures !Ready(n, h.a, act) && !Ready(Flip(n), h.b, act)
      {
        assert By(A, act).side == A && By(B, act).side == B;
        assert !Ready(SeenFrom(n, By(A, act).side), HomeOf(h, By(A, act).side), By(A, act).act);
        assert !Ready(SeenFrom(n, By(B, act).side), HomeOf(h, By(B, act).side), By(B, act).act);
      }
    }
  }

  // ----- What callers can do -----------------------------------------------------------------

  ghost predicate Away(home: Home, t: Thread) {
    forall p: Packet :: home(p) != t
  }

  /** Whoever waits processes calls meanwhile, and does not run on a thread for jobs. */
  ghost predicate Careful(e: Endpoint, home: Home) {
    forall i :: 0 <= i < |e.acts| ==> CarefulAct(e.acts[i], home)
  }

  ghost predicate CarefulAct(f: Activation, home: Home) {
    match f
    case Sending(t, out, process) => out.wantsReturn ==> process && Away(home, t)
    case Loop(t, wait, process, _) => process && (wait != INVALID_ID ==> Away(home, t))
    case _ => true
  }

  ghost predicate CarefulIssue(a: Action, home: Home) {
    a.Issue? && a.wantsReturn ==> a.process && Away(home, a.thread)
  }

  lemma CarefulStep(e: Endpoint, a: Action, home: Home)
    requires Enabled(e, a) && Careful(e, home) && CarefulIssue(a, home)
    ensures Careful(Next(e, a), home)
  {
    hide Away;
    var e1 := Next(e, a);
    forall i | 0 <= i < |e1.acts|
      ensures CarefulAct(e1.acts[i], home)
    {
      if i < |e.acts| {
        assert CarefulAct(e.acts[i], home);
      }
    }
  }

  ghost predicate CarefulRun(run: seq<NetAction>, h: Homes) {
    forall i :: 0 <= i < |run| ==> CarefulIssue(run[i].act, HomeOf(h, run[i].side))
  }

  lemma {:induction false} CarefulAlways(ns: seq<Net>, run: seq<NetAction>, i: nat, h: Homes)
    requires IsNetRun(ns, run) && i < |ns| && CarefulRun(run, h)
    ensures Careful(ns[i].a, h.a) && Careful(ns[i].b, h.b)
  {
    if i > 0 {
      hide Careful, CarefulIssue, Enabled, Next, IsNetRun;
      NetStepOf(ns, run, i - 1);
      CarefulAlways(ns, run, i - 1, h);
      var n, x := ns[i - 1], run[i - 1];
      CarefulStep(SeenFrom(n, x.side).a, x.act, HomeOf(h, x.side));
    }
  }

  lemma CarefulReads(n: Net, home: Home)
    requires Careful(n.a, home)
    ensures !Blocked(n)
  {
  }

  lemma CarefulServes(n: Net, home: Home, j: nat)
    requires Careful(n.a, home) && j < |n.a.jobs|
    ensures !Parked(n, home, j)
  {
  }

  lemma CarefulIsOpen(n: Net, h: Homes, w: nat)
    requires Careful(n.b, h.b)
    ensures !Shut(n, h, w)
  {
    CarefulReads(Flip(n), h.b);
    forall j: nat | j < |n.b.jobs|
      ensures !Parked(Flip(n), h.b, j)
    {
      CarefulServes(Flip(n), h.b, j);
    }
  }

  /** When every call that waits processes incoming calls, and none is made on a thread to
      which calls or results are posted, the pair never blocks. */
  lemma CarefulMoves(ns: seq<Net>, run: seq<NetAction>, i: nat, h: Homes, c: Who) returns (chain: seq<Who>, x: NetAction)
    requires IsNetRun(ns, run) && i < |ns| && Bounded(ns[i]) && CarefulRun(run, h)
    requires c.v < |SeenFrom(ns[i], c.side).a.acts| && Waits(SeenFrom(ns[i], c.side).a.acts[c.v])
    ensures chain != [] && chain[0] == c && Chained(ns[i], chain) && MovesFor(ns[i], h, chain[|chain| - 1], x)
  {
    hide AgeInv, Bounded, Births, Careful, CarefulRun, MovesOn, Ready, Needs, Shut, Stuck;
    var n := ns[i];
    NetInvAlways(ns, run, i);
    CarefulAlways(ns, run, i, h);
    assert Inv(n.a) && Inv(n.b);
    var y;
    chain, y := NoDeadlock(ns, run, i, h, c);
    var d := chain[|chain| - 1];
    CarefulIsOpen(SeenFrom(n, d.side), HomesFrom(h, d.side), d.v);
    x := y.value;
  }
}
