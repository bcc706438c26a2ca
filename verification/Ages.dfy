/** Two things that every run of the pair keeps: a reader found nothing to take, and whatever
    runs above the handling of a call is younger than the activation that asks. */
module Ages {
  import opened Prelude
  import opened Packets
  import opened CallIds
  import opened Endpoint
  import opened Flow
  import opened Network

  // ----- A reader found nothing to take ---------------------------------------------------

  /** The response of a reader is not stored, and when it processes calls none is queued. */
  ghost predicate RoleClear(e: Endpoint) {
    forall i :: 0 <= i < |e.acts| && HasRole(e.acts[i]) ==>
      e.acts[i].wait !in e.pend.responses && (e.acts[i].process ==> e.pend.queue == [])
  }

  lemma RoleClearStep(e: Endpoint, a: Action)
    requires Inv(e) && RoleClear(e) && Enabled(e, a)
    ensures RoleClear(Next(e, a))
  {
    hide Inv;
    var e1 := Next(e, a);
    forall i | 0 <= i < |e1.acts| && HasRole(e1.acts[i])
      ensures e1.acts[i].wait !in e1.pend.responses && (e1.acts[i].process ==> e1.pend.queue == [])
    {
      if a.Store? {
        StoreLeavesNoRole(e, a.i, i);
      } else {
        ActAt(e, a, i);
      }
    }
  }

  lemma StoreLeavesNoRole(e: Endpoint, i: nat, j: nat)
    requires Inv(e) && Enabled(e, Store(i)) && j < |e.acts|
    ensures |NextStore(e, i).acts| == |e.acts| && !HasRole(NextStore(e, i).acts[j])
  {
  }

  /** Only the innermost activation of a thread changes, except that sleepers are woken. */
  lemma ActAt(e: Endpoint, a: Action, i: nat)
    requires Enabled(e, a) && i < |Next(e, a).acts|
    ensures |Next(e, a).acts| == |e.acts| || (|Next(e, a).acts| == |e.acts| + 1 && (a.Issue? || a.Enter? || a.StartJob?))
    ensures i < |e.acts| ==> Next(e, a).acts[i].thread == e.acts[i].thread
    ensures i < |e.acts| && !IsTop(e.acts, i) ==> Next(e, a).acts[i] == e.acts[i] || Next(e, a).acts[i] == Wake(e.acts[i])
    ensures i < |e.acts| && Live(Next(e, a).acts[i]) ==> Live(e.acts[i])
    ensures i < |e.acts| && !a.Pass? && !a.Receive? && HasRole(Next(e, a).acts[i]) ==> Next(e, a).acts[i] == e.acts[i]
  {
  }

  // ----- Age --------------------------------------------------------------------------------

  /** The ages after a step that leaves `n` activations. */
  function Later(ts: seq<nat>, n: nat, now: nat): seq<nat> {
    if |ts| < n then ts + [now] else ts
  }

  /** When each activation of a side was started. */
  function Births(ns: seq<Net>, side: Side, i: nat): seq<nat>
    requires i < |ns|
  {
    if i == 0 then [] else Later(Births(ns, side, i - 1), |SeenFrom(ns[i], side).a.acts|, i)
  }

  ghost predicate Aged(ts: seq<nat>, now: nat) {
    (forall v :: 0 <= v < |ts| ==> ts[v] <= now) && forall u, v :: 0 <= u < v < |ts| ==> ts[u] < ts[v]
  }

  /** `f` holds the call whose response `g` asks for. */
  predicate Serves(f: Activation, g: Activation) {
    Held(f).Some? && IsCall(Held(f).value) && Held(f).value.id != INVALID_ID && ActAsks(Held(f).value.id)(g)
  }

  /** Whatever runs above the handling of a call is younger than the activation that asks. */
  ghost predicate Younger(n: Net, ta: seq<nat>, tb: seq<nat>)
    requires |ta| == |n.a.acts| && |tb| == |n.b.acts|
  {
    forall x, y, w ::
      0 <= x < y < |n.b.acts| && 0 <= w < |n.a.acts| && Above(n.b.acts[x], n.b.acts[y]) && Serves(n.b.acts[x], n.a.acts[w]) ==>
        ta[w] < tb[y]
  }

  lemma AsksStay(e: Endpoint, a: Action, i: nat, k: u32)
    requires Enabled(e, a) && i < |e.acts| && k != INVALID_ID
    ensures i < |Next(e, a).acts| && (ActAsks(k)(Next(e, a).acts[i]) <==> ActAsks(k)(e.acts[i]))
  {
  }

  /** A new activation asks only for a new id. */
  lemma NewAsks(n: Net, act: Action, x: nat, p: Packet)
    requires NetInv(n) && EnabledA(n, act) && Next(n.a, act).log.advances <= ID_COUNT
    requires |Next(n.a, act).acts| == |n.a.acts| + 1
    requires x < |n.b.acts| && Held(n.b.acts[x]) == Some(p) && IsCall(p) && p.id != INVALID_ID
    ensures !ActAsks(p.id)(Next(n.a, act).acts[|n.a.acts|])
  {
    HeldIsIssued(n, x, p);
    hide NetInv, Count;
    NewActAsks(n.a, act, p.id);
    if act.Issue? {
      IdTwice(n.a, act, p);
    }
  }

  lemma HeldIsIssued(n: Net, x: nat, p: Packet)
    requires NetInv(n) && x < |n.b.acts| && Held(n.b.acts[x]) == Some(p) && IsCall(p)
    ensures p in n.a.log.issued && IdInv(n.a) && ContentInv(n.a)
  {
    assert From(n.a.log, p);
  }

  lemma NewActAsks(e: Endpoint, a: Action, k: u32)
    requires Enabled(e, a) && |Next(e, a).acts| == |e.acts| + 1 && k != INVALID_ID
    ensures Next(e, a).acts[|e.acts|] == NewAct(e, a)
    ensures ActAsks(k)(NewAct(e, a)) ==> a.Issue? && NewAct(e, a).out.id == k
  {
  }

  lemma IdTwice(e: Endpoint, a: Action, p: Packet)
    requires IdInv(e) && ContentInv(e) && Enabled(e, a) && a.Issue? && p in e.log.issued && IsCall(p)
    requires Next(e, a).log.advances <= ID_COUNT
    ensures NewAct(e, a).out.id != p.id
  {
    IdStep(e, a);
    LogCounts(e, a, p.id);
    var i :| 0 <= i < |e.log.issued| && e.log.issued[i] == p;
    CountAtLeast(e.log.issued, i, CallId(p.id));
  }

  lemma YoungerCaller(n: Net, act: Action, ta: seq<nat>, tb: seq<nat>, ta1: seq<nat>)
    requires NetInv(n) && EnabledA(n, act) && Next(n.a, act).log.advances <= ID_COUNT
    requires |ta| == |n.a.acts| && |tb| == |n.b.acts| && Younger(n, ta, tb)
    requires |ta1| == |Next(n.a, act).acts| && ta <= ta1
    ensures Younger(NextA(n, act), ta1, tb)
  {
    var n1 := NextA(n, act);
    forall x, y, w | 0 <= x < y < |n1.b.acts| && 0 <= w < |n1.a.acts| && Above(n1.b.acts[x], n1.b.acts[y])
                     && Serves(n1.b.acts[x], n1.a.acts[w])
      ensures ta1[w] < tb[y]
    {
      var p := Held(n.b.acts[x]).value;
      if w < |n.a.acts| {
        AsksStay(n.a, act, w, p.id);
        assert Serves(n.b.acts[x], n.a.acts[w]);
      } else {
        ActAt(n.a, act, w);
        NewAsks(n, act, x, p);
      }
    }
  }

  lemma YoungerCallee(n: Net, act: Action, ta: seq<nat>, tb: seq<nat>, tb1: seq<nat>, now: nat)
    requires EnabledA(Flip(n), act)
    requires |ta| == |n.a.acts| && |tb| == |n.b.acts| && Younger(n, ta, tb) && Aged(ta, now)
    requires |tb1| == |Next(n.b, act).acts| && tb <= tb1 && (|tb1| > |tb| ==> tb1[|tb|] == now + 1)
    ensures Younger(Flip(NextA(Flip(n), act)), ta, tb1)
  {
    var n1 := Flip(NextA(Flip(n), act));
    forall x, y, w | 0 <= x < y < |n1.b.acts| && 0 <= w < |n1.a.acts| && Above(n1.b.acts[x], n1.b.acts[y])
                     && Serves(n1.b.acts[x], n1.a.acts[w])
      ensures ta[w] < tb1[y]
    {
      ActAt(n.b, act, y);
      ActAt(n.b, act, x);
      if y < |n.b.acts| {
        assert Above(n.b.acts[x], n.b.acts[y]);
        assert Serves(n.b.acts[x], n.a.acts[w]);
      }
    }
  }

  // ----- The invariant ------------------------------------------------------------------------

  ghost predicate AgeInv(n: Net, ta: seq<nat>, tb: seq<nat>, now: nat) {
    && |ta| == |n.a.acts| && |tb| == |n.b.acts| && Aged(ta, now) && Aged(tb, now)
    && Younger(n, ta, tb) && Younger(Flip(n), tb, ta) && RoleClear(n.a) && RoleClear(n.b)
  }

  lemma AgeStep(n: Net, act: Action, ta: seq<nat>, tb: seq<nat>, now: nat) returns (ta1: seq<nat>)
    requires NetInv(n) && EnabledA(n, act) && Next(n.a, act).log.advances <= ID_COUNT && AgeInv(n, ta, tb, now)
    ensures ta1 == Later(ta, |Next(n.a, act).acts|, now + 1)
    ensures AgeInv(NextA(n, act), ta1, tb, now + 1)
  {
    RoleClearStep(n.a, act);
    hide NetInv, Younger, RoleClear, Next;
    ta1 := Later(ta, |Next(n.a, act).acts|, now + 1);
    CountsActs(n.a, act);
    YoungerCaller(n, act, ta, tb, ta1);
    YoungerCallee(Flip(n), act, tb, ta, ta1, now);
  }

  lemma CountsActs(e: Endpoint, a: Action)
    requires Enabled(e, a)
    ensures |e.acts| <= |Next(e, a).acts| <= |e.acts| + 1
  {
  }

  ghost predicate Bounded(n: Net) {
    n.a.log.advances <= ID_COUNT && n.b.log.advances <= ID_COUNT
  }

  lemma BoundedBefore(n: Net, x: NetAction)
    requires NetEnabled(n, x) && Bounded(NetNext(n, x))
    ensures Bounded(n)
  {
    if x.side == A {
      AdvancesGrow(n.a, x.act);
    } else {
      AdvancesGrow(n.b, x.act);
    }
  }

  lemma AgeNetStep(n: Net, x: NetAction, ta: seq<nat>, tb: seq<nat>, now: nat)
    requires NetInv(n) && NetEnabled(n, x) && Bounded(NetNext(n, x)) && AgeInv(n, ta, tb, now)
    ensures var n1 := NetNext(n, x);
            AgeInv(n1, Later(ta, |n1.a.acts|, now + 1), Later(tb, |n1.b.acts|, now + 1), now + 1)
  {
    hide NetInv, Younger, RoleClear, Next, Enabled, Aged;
    if x.side == A {
      var ts := AgeStep(n, x.act, ta, tb, now);
    } else {
      assert NetInv(Flip(n)) by {
        FlipInv(n);
      }
      assert Flip(Flip(n)) == n;
      var ts := AgeStep(Flip(n), x.act, tb, ta, now);
    }
  }

  lemma FlipInv(n: Net)
    requires NetInv(n)
    ensures NetInv(Flip(n))
  {
    assert Flip(Flip(n)) == n;
  }

  lemma NetStepOf(ns: seq<Net>, run: seq<NetAction>, i: nat)
    requires IsNetRun(ns, run) && i + 1 < |ns|
    ensures i < |run| && NetEnabled(ns[i], run[i]) && ns[i + 1] == NetNext(ns[i], run[i])
  {
    hide NetEnabled, NetNext;
  }

  lemma AgeStart()
    ensures AgeInv(NET_INITIAL, [], [], 0)
  {
  }

  lemma BirthsStep(ns: seq<Net>, i: nat)
    requires 0 < i < |ns|
    ensures Births(ns, A, i) == Later(Births(ns, A, i - 1), |ns[i].a.acts|, i)
    ensures Births(ns, B, i) == Later(Births(ns, B, i - 1), |ns[i].b.acts|, i)
  {
  }

  lemma {:induction false} AgeAlways(ns: seq<Net>, run: seq<NetAction>, i: nat)
    requires IsNetRun(ns, run) && i < |ns| && Bounded(ns[i])
    ensures AgeInv(ns[i], Births(ns, A, i), Births(ns, B, i), i)
  {
    if i == 0 {
      hide NetEnabled, NetNext;
      AgeStart();
    } else {
      hide *;
      NetStepOf(ns, run, i - 1);
      BoundedBefore(ns[i - 1], run[i - 1]);
      AgeAlways(ns, run, i - 1);
      NetInvAlways(ns, run, i - 1);
      AgeNetStep(ns[i - 1], run[i - 1], Births(ns, A, i - 1), Births(ns, B, i - 1), i - 1);
      BirthsStep(ns, i);
    }
  }
}
