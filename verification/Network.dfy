/** Two endpoints joined by two FIFO packet channels. */
module Network {
  import opened Prelude
  import opened Packets
  import opened CallIds
  import opened Pending
  import opened Endpoint
  import opened Flow

  /** `ab` carries what `a` wrote and `b` has not read. */
  datatype Net = Net(a: Endpoint, b: Endpoint, ab: seq<Packet>, ba: seq<Packet>)

  datatype Side = A | B
  datatype NetAction = By(side: Side, act: Action)

  const NET_INITIAL := Net(INITIAL, INITIAL, [], [])

  function Flip(n: Net): Net {
    Net(n.b, n.a, n.ba, n.ab)
  }

  /** An action of `a`: a packet that the transport delivers is the oldest in the channel. */
  ghost predicate EnabledA(n: Net, act: Action) {
    Enabled(n.a, act) && Input(act) <= n.ba
  }

  ghost function NextA(n: Net, act: Action): Net
    requires EnabledA(n, act)
  {
    Net(Next(n.a, act), n.b, n.ab + Output(n.a, act), n.ba[|Input(act)|..])
  }

  ghost predicate NetEnabled(n: Net, x: NetAction) {
    if x.side == A then EnabledA(n, x.act) else EnabledA(Flip(n), x.act)
  }

  ghost function NetNext(n: Net, x: NetAction): Net
    requires NetEnabled(n, x)
  {
    if x.side == A then NextA(n, x.act) else Flip(NextA(Flip(n), x.act))
  }

  ghost predicate IsNetRun(ns: seq<Net>, run: seq<NetAction>) {
    && |ns| == |run| + 1 && ns[0] == NET_INITIAL
    && forall i :: 0 <= i < |run| ==> NetEnabled(ns[i], run[i]) && ns[i + 1] == NetNext(ns[i], run[i])
  }

  // ----- The ledger of one id --------------------------------------------------

  /** Every request of `a` is unsent, in the channel, held by `b`, or handled. */
  ghost predicate RequestLedger(n: Net, k: u32) {
    IssuedCount(n.a, k) == Unsent(n.a, k) + Count(n.ab, CallId(k)) + CallsHeld(n.b, k) + Answered(n.b, k) + Silent(n.b, k)
  }

  /** Every answer of `b` is posted, in the channel, held by `a`, or lost. */
  ghost predicate ResponseLedger(n: Net, k: u32) {
    Answered(n.b, k) == ResultsPosted(n.b, k) + Count(n.ba, RespId(k)) + RespHeld(n.a, k) + Lost(n.a, k)
  }

  ghost predicate Ledger(n: Net) {
    forall k: u32 :: RequestLedger(n, k) && ResponseLedger(n, k)
  }

  lemma ChannelCounts(n: Net, act: Action, p: Packet -> bool)
    requires EnabledA(n, act)
    ensures Count(NextA(n, act).ab, p) == Count(n.ab, p) + Count(Output(n.a, act), p)
    ensures Count(n.ba, p) == Count(NextA(n, act).ba, p) + Count(Input(act), p)
  {
    hide Enabled, Next, Output, Count;
    CountAppend(n.ab, Output(n.a, act), p);
    var m := |Input(act)|;
    assert n.ba[..m] == Input(act);
    assert n.ba == Input(act) + n.ba[m..];
    CountAppend(Input(act), n.ba[m..], p);
  }

  /** An action of the caller keeps the ledgers of its requests. */
  lemma CallerLedger(n: Net, act: Action)
    requires ContentInv(n.a) && EnabledA(n, act) && Ledger(n)
    ensures Ledger(NextA(n, act))
  {
    forall k: u32
      ensures RequestLedger(NextA(n, act), k) && ResponseLedger(NextA(n, act), k)
    {
      assert RequestLedger(n, k) && ResponseLedger(n, k);
      ChannelCounts(n, act, CallId(k));
      ChannelCounts(n, act, RespId(k));
      SendBalance(n.a, act, k);
      RespBalance(n.a, act, k);
    }
  }

  /** An action of the callee keeps the ledgers of the requests of its peer. */
  lemma CalleeLedger(n: Net, act: Action)
    requires ContentInv(n.a) && EnabledA(n, act) && Ledger(Flip(n))
    ensures Ledger(Flip(NextA(n, act)))
  {
    forall k: u32
      ensures RequestLedger(Flip(NextA(n, act)), k) && ResponseLedger(Flip(NextA(n, act)), k)
    {
      assert RequestLedger(Flip(n), k) && ResponseLedger(Flip(n), k);
      ChannelCounts(n, act, CallId(k));
      ChannelCounts(n, act, RespId(k));
      CallBalance(n.a, act, k);
      ReplyBalance(n.a, act, k);
    }
  }

  // ----- What travels is genuine -------------------------------------------------

  predicate HasAnswer(log: Log, r: Packet) {
    exists i :: 0 <= i < |log.answers| && log.answers[i].reply == r
  }

  /** The owner of `log` issued `p` as a request or produced it as a response. */
  predicate From(log: Log, p: Packet) {
    (IsCall(p) && p in log.issued) || (IsReturn(p) && HasAnswer(log, p))
  }

  ghost predicate AllFrom(log: Log, s: seq<Packet>) {
    forall p :: p in s ==> From(log, p)
  }

  ghost predicate HeldFrom(e: Endpoint, log: Log) {
    && (forall i :: 0 <= i < |e.acts| && Held(e.acts[i]).Some? ==> From(log, Held(e.acts[i]).value))
    && (forall i :: 0 <= i < |e.acts| && e.acts[i].Sending? ==> e.acts[i].out in e.log.issued)
  }

  ghost predicate StoredFrom(e: Endpoint, log: Log) {
    && AllFrom(log, e.pend.queue)
    && (forall k :: k in e.pend.responses ==> From(log, e.pend.responses[k]))
    && (forall p :: p in e.jobs ==> if IsCall(p) then From(log, p) else HasAnswer(e.log, p))
  }

  ghost predicate LogFrom(e: Endpoint, log: Log) {
    && (forall i :: 0 <= i < |e.log.answers| ==> AnswerOk(e.log.answers[i], log))
    && (forall p :: p in e.log.silent ==> From(log, p) && IsCall(p) && !MustAnswer(p))
    && e.log.ignored == []
  }

  predicate AnswerOk(x: Answer, log: Log) {
    From(log, x.call) && IsCall(x.call) && MustAnswer(x.call) && Answers(x.call, x.reply)
  }

  /** Everything `e` got from outside came from the owner of `log`. */
  ghost predicate Fed(e: Endpoint, log: Log) {
    HeldFrom(e, log) && StoredFrom(e, log) && LogFrom(e, log)
  }

  lemma LogGrows(e: Endpoint, act: Action)
    requires Enabled(e, act) && ContentInv(e)
    ensures forall p :: From(e.log, p) ==> From(Next(e, act).log, p)
    ensures forall p :: HasAnswer(e.log, p) ==> HasAnswer(Next(e, act).log, p)
    ensures forall p :: p in e.log.issued ==> p in Next(e, act).log.issued
  {
    LogIs(e, act);
    forall p | HasAnswer(e.log, p)
      ensures HasAnswer(Next(e, act).log, p)
    {
      var i :| 0 <= i < |e.log.answers| && e.log.answers[i].reply == p;
      assert Next(e, act).log.answers[i].reply == p;
    }
  }

  /** Both facts about packets of `log` survive the growth of `log`. */
  lemma FedGrows(e: Endpoint, log: Log, log1: Log)
    requires Fed(e, log) && forall p :: From(log, p) ==> From(log1, p)
    ensures Fed(e, log1)
  {
  }

  lemma FedHeld(e: Endpoint, act: Action, log: Log)
    requires ContentInv(e) && Enabled(e, act) && Fed(e, log) && AllFrom(log, Input(act))
    ensures HeldFrom(Next(e, act), log)
  {
    LogGrows(e, act);
    var e1 := Next(e, act);
    forall i | 0 <= i < |e1.acts|
      ensures Held(e1.acts[i]).Some? ==> From(log, Held(e1.acts[i]).value)
      ensures e1.acts[i].Sending? ==> e1.acts[i].out in e1.log.issued
    {
      ActIs(e, act, i);
      if e1.acts[i] == NewAct(e, act) {
        NewHeld(e, act, log);
      }
    }
  }

  lemma ActIs(e: Endpoint, act: Action, i: nat)
    requires Enabled(e, act) && i < |Next(e, act).acts|
    ensures Next(e, act).acts[i] == NewAct(e, act)
            || (i < |e.acts| && (Next(e, act).acts[i] == e.acts[i] || Next(e, act).acts[i] == Wake(e.acts[i])))
  {
  }

  lemma NewHeld(e: Endpoint, act: Action, log: Log)
    requires ContentInv(e) && Enabled(e, act) && Fed(e, log) && AllFrom(log, Input(act))
    ensures Held(NewAct(e, act)).Some? ==> From(log, Held(NewAct(e, act)).value)
    ensures NewAct(e, act).Sending? ==> NewAct(e, act).out in Next(e, act).log.issued
  {
    if act.Pass? {
      var f := e.acts[act.i];
      var (s, r) := ReadPass(e.pend, f.thread, f.wait, f.process, f.pc.Top?);
      assert Held(NewAct(e, act)) == if r.TakeCall? || r.TakeResponse? then Some(r.p) else None;
      assert r.TakeCall? ==> r.p in e.pend.queue;
    } else if act.Store? {
      assert Held(NewAct(e, act)) == None;
    } else {
      HeldIs(e, act);
      LogIs(e, act);
      if act.Finish? {
        assert Held(e.acts[act.i]).Some?;
      }
      if act.StartJob? {
        assert e.jobs[act.j] in e.jobs;
      }
    }
  }

  lemma FedStored(e: Endpoint, act: Action, log: Log)
    requires ContentInv(e) && Enabled(e, act) && Fed(e, log)
    ensures StoredFrom(Next(e, act), log)
  {
    LogGrows(e, act);
    var e1 := Next(e, act);
    forall p | p in e1.jobs
      ensures if IsCall(p) then From(log, p) else HasAnswer(e1.log, p)
    {
      JobFrom(e, act, log, p);
    }
    if act.Store? {
      assert e.acts[act.i].pc.got.Some? ==> Held(e.acts[act.i]) == e.acts[act.i].pc.got;
    } else if !act.Pass? {
      PendingKept(e, act);
    }
  }

  lemma JobFrom(e: Endpoint, act: Action, log: Log, p: Packet)
    requires ContentInv(e) && Enabled(e, act) && Fed(e, log) && p in Next(e, act).jobs
    ensures if IsCall(p) then From(log, p) else HasAnswer(Next(e, act).log, p)
  {
    LogGrows(e, act);
    JobsAre(e, act);
    if p in e.jobs {
    } else if act.Post? {
      assert Held(e.acts[act.i]) == Some(p);
    } else {
      OutputIs(e, act);
      LogIs(e, act);
      var l1 := Next(e, act).log;
      assert l1.answers[|l1.answers| - 1].reply == p;
    }
  }

  lemma FedLog(e: Endpoint, act: Action, log: Log)
    requires ContentInv(e) && Enabled(e, act) && Fed(e, log)
    ensures LogFrom(Next(e, act), log)
  {
    OutputIs(e, act);
    LogIs(e, act);
    if Handles(e, act).Some? {
      assert Held(e.acts[act.i]) == Handles(e, act);
    }
    NothingIgnored(e, act, log);
  }

  lemma NothingIgnored(e: Endpoint, act: Action, log: Log)
    requires ContentInv(e) && Enabled(e, act) && Fed(e, log)
    ensures Next(e, act).log.ignored == []
  {
    if act.Finish? {
      assert Held(e.acts[act.i]) == Some(e.acts[act.i].pc.p);
      assert HeldOk(e.acts[act.i]);
    }
  }

  lemma OutputFrom(e: Endpoint, act: Action, log: Log)
    requires ContentInv(e) && Enabled(e, act) && Fed(e, log)
    ensures AllFrom(Next(e, act).log, Output(e, act))
  {
    OutputIs(e, act);
    LogGrows(e, act);
    LogIs(e, act);
    if act.SendResult? {
      assert e.jobs[act.j] in e.jobs;
    } else if Replies(e, act).Some? {
      var l1 := Next(e, act).log;
      assert l1.answers[|l1.answers| - 1].reply == Replies(e, act).value;
    }
  }

  // ----- The invariant of the pair ------------------------------------------------

  /** The half of the invariant that concerns the requests of `a`. */
  ghost predicate HalfInv(n: Net) {
    && Inv(n.a) && AskInv(n.a) && IdInv(n.a)
    && Ledger(n) && Fed(n.a, n.b.log) && AllFrom(n.a.log, n.ab)
    && (n.a.log.advances <= ID_COUNT ==> n.a.log.dropped == [])
  }

  ghost predicate NetInv(n: Net) {
    HalfInv(n) && HalfInv(Flip(n))
  }

  /** No response to `a` meets a stored one with its id. */
  lemma NoCollision(n: Net, act: Action)
    requires NetInv(n) && EnabledA(n, act) && Next(n.a, act).log.advances <= ID_COUNT
    ensures Next(n.a, act).log.dropped == []
  {
    AdvancesGrow(n.a, act);
    if act.Store? {
      var got := n.a.acts[act.i].pc.got;
      if got.Some? && IsResponse(got.value) {
        HeldIsNotStored(n, act.i, got.value);
      }
    } else {
      DroppedKept(n.a, act);
    }
  }

  /** A response that an activation holds is not also stored. */
  lemma HeldIsNotStored(n: Net, i: nat, p: Packet)
    requires Ledger(n) && IdInv(n.a) && n.a.log.advances <= ID_COUNT
    requires i < |n.a.acts| && Held(n.a.acts[i]) == Some(p) && IsResponse(p)
    ensures p.id !in n.a.pend.responses
  {
    assert RequestLedger(n, p.id) && ResponseLedger(n, p.id) && IssuedCount(n.a, p.id) <= 1;
    CountAtLeast(n.a.acts, i, ActResp(p.id));
  }

  lemma DroppedKept(e: Endpoint, act: Action)
    requires Enabled(e, act) && !act.Store?
    ensures Next(e, act).log.dropped == e.log.dropped
  {
  }

  lemma AdvancesGrow(e: Endpoint, act: Action)
    requires Enabled(e, act)
    ensures e.log.advances <= Next(e, act).log.advances
  {
  }

  lemma HalfStep(n: Net, act: Action)
    requires NetInv(n) && EnabledA(n, act)
    ensures HalfInv(NextA(n, act))
  {
    var n1 := NextA(n, act);
    InvStep(n.a, act);
    AskStep(n.a, act);
    IdStep(n.a, act);
    CallerLedger(n, act);
    assert AllFrom(n.b.log, Input(act));
    FedHeld(n.a, act, n.b.log);
    FedStored(n.a, act, n.b.log);
    FedLog(n.a, act, n.b.log);
    OutputFrom(n.a, act, n.b.log);
    LogGrows(n.a, act);
    assert AllFrom(n1.a.log, n1.ab);
    if n1.a.log.advances <= ID_COUNT {
      NoCollision(n, act);
    }
  }

  lemma OtherHalfStep(n: Net, act: Action)
    requires NetInv(n) && EnabledA(n, act)
    ensures HalfInv(Flip(NextA(n, act)))
  {
    CalleeLedger(n, act);
    LogGrows(n.a, act);
    FedGrows(n.b, n.a.log, Next(n.a, act).log);
    assert AllFrom(n.b.log, n.ba[|Input(act)|..]);
  }

  lemma NetStep(n: Net, x: NetAction)
    requires NetInv(n) && NetEnabled(n, x)
    ensures NetInv(NetNext(n, x))
  {
    var m := if x.side == A then n else Flip(n);
    assert Flip(Flip(n)) == n;
    HalfStep(m, x.act);
    OtherHalfStep(m, x.act);
    assert Flip(Flip(NextA(m, x.act))) == NextA(m, x.act);
  }

  lemma NetStart()
    ensures NetInv(NET_INITIAL)
  {
    hide FreeFrom, HasFree;
  }

  lemma {:induction false} NetInvAlways(ns: seq<Net>, run: seq<NetAction>, i: nat)
    requires IsNetRun(ns, run) && i < |ns|
    ensures NetInv(ns[i])
  {
    if i == 0 {
      NetStart();
    } else {
      NetInvAlways(ns, run, i - 1);
      NetStep(ns[i - 1], run[i - 1]);
    }
  }

  // ----- What a caller can rely on ----------------------------------------------

  /** The system seen from one side: `a` is that side. */
  function SeenFrom(n: Net, side: Side): Net {
    if side == A then n else Flip(n)
  }

  /** How often the call `k` of `a` is somewhere between being written and being
      given to its waiter: request in flight, held by the peer (queued, executing or
      posted), result posted, response in flight, received, stored or being returned. */
  function Places(n: Net, k: u32): nat {
    Count(n.ab, CallId(k)) + CallsHeld(n.b, k) + ResultsPosted(n.b, k) + Count(n.ba, RespId(k)) + RespHeld(n.a, k)
  }

  lemma SameRequest(e: Endpoint, p: Packet, q: Packet)
    requires IdInv(e) && e.log.advances <= ID_COUNT
    requires p in e.log.issued && q in e.log.issued && p.id == q.id
    ensures p == q
  {
    var i :| 0 <= i < |e.log.issued| && e.log.issued[i] == p;
    var j :| 0 <= j < |e.log.issued| && e.log.issued[j] == q;
    assert IssuedCount(e, p.id) <= 1;
    if i < j {
      CountTwo(e.log.issued, i, j, CallId(p.id));
    } else if j < i {
      CountTwo(e.log.issued, j, i, CallId(p.id));
    }
  }

  /** Behind every activation that waits stands the request it wrote. */
  lemma WaiterRequest(n: Net, w: nat) returns (p: Packet)
    requires NetInv(n) && n.a.log.advances <= ID_COUNT
    requires w < |n.a.acts| && n.a.acts[w].Loop? && n.a.acts[w].wait != INVALID_ID
    ensures p in n.a.log.issued && p.id == n.a.acts[w].wait && p.wantsReturn && IsCall(p)
    ensures IssuedCount(n.a, p.id) == 1 && Count(n.a.acts, ActAsks(p.id)) == 1
  {
    var k := n.a.acts[w].wait;
    CountAtLeast(n.a.acts, w, ActAsks(k));
    assert Count(n.a.log.issued, WantId(k)) == Count(n.a.acts, ActAsks(k));
    var j := CountWitness(n.a.log.issued, WantId(k));
    p := n.a.log.issued[j];
    CountAtLeast(n.a.log.issued, j, CallId(k));
    assert IssuedCount(n.a, k) <= 1;
    WantsAreCalls(n.a.log.issued, k);
  }

  lemma {:induction false} WantsAreCalls(s: seq<Packet>, k: u32)
    requires forall p :: p in s ==> IsCall(p)
    ensures Count(s, WantId(k)) <= Count(s, CallId(k))
  {
    if s != [] {
      assert s[|s| - 1] in s;
      WantsAreCalls(s[..|s| - 1], k);
    }
  }

  lemma NotUnsent(n: Net, w: nat)
    requires NetInv(n) && n.a.log.advances <= ID_COUNT
    requires w < |n.a.acts| && n.a.acts[w].Loop? && n.a.acts[w].wait != INVALID_ID
    ensures Unsent(n.a, n.a.acts[w].wait) == 0
  {
    var k := n.a.acts[w].wait;
    var p := WaiterRequest(n, w);
    if Unsent(n.a, k) >= 1 {
      var j := CountWitness(n.a.acts, ActUnsent(k));
      SameRequest(n.a, p, n.a.acts[j].out);
      CountTwo(n.a.acts, if j < w then j else w, if j < w then w else j, ActAsks(k));
    }
  }

  lemma NotSilent(n: Net, p: Packet)
    requires NetInv(n) && n.a.log.advances <= ID_COUNT
    requires p in n.a.log.issued && MustAnswer(p)
    ensures Silent(n.b, p.id) == 0
  {
    if Silent(n.b, p.id) >= 1 {
      var j := CountWitness(n.b.log.silent, CallId(p.id));
      assert n.b.log.silent[j] in n.b.log.silent;
      SameRequest(n.a, p, n.b.log.silent[j]);
    }
  }

  lemma NothingLost(n: Net, k: u32)
    requires NetInv(n) && n.a.log.advances <= ID_COUNT
    ensures Lost(n.a, k) == 0
  {
  }

  lemma OnePlaceIn(n: Net, w: nat)
    requires NetInv(n) && n.a.log.advances <= ID_COUNT
    requires w < |n.a.acts| && n.a.acts[w].Loop? && n.a.acts[w].wait != INVALID_ID
    ensures Places(n, n.a.acts[w].wait) == 1
  {
    var k := n.a.acts[w].wait;
    var p := WaiterRequest(n, w);
    NotUnsent(n, w);
    NotSilent(n, p);
    NothingLost(n, k);
    assert RequestLedger(n, k) && ResponseLedger(n, k);
  }

  lemma OneWaiter(n: Net, w: nat, v: nat)
    requires NetInv(n) && n.a.log.advances <= ID_COUNT
    requires w < |n.a.acts| && n.a.acts[w].Loop? && n.a.acts[w].wait != INVALID_ID
    requires v < |n.a.acts| && n.a.acts[v].Loop? && n.a.acts[v].wait == n.a.acts[w].wait
    ensures v == w
  {
    var p := WaiterRequest(n, w);
    if v != w {
      CountTwo(n.a.acts, if v < w then v else w, if v < w then w else v, ActAsks(p.id));
    }
  }

  lemma SeenInv(ns: seq<Net>, run: seq<NetAction>, i: nat, side: Side)
    requires IsNetRun(ns, run) && i < |ns|
    ensures NetInv(SeenFrom(ns[i], side))
  {
    NetInvAlways(ns, run, i);
    assert Flip(Flip(ns[i])) == ns[i];
  }

  /** In every run with at most 2^32-1 advances of the id counter, the call that an
      activation waits for is in exactly one place, and nobody else waits for it. */
  lemma OnePlace(ns: seq<Net>, run: seq<NetAction>, i: nat, side: Side, w: nat)
    requires IsNetRun(ns, run) && i < |ns|
    requires SeenFrom(ns[i], side).a.log.advances <= ID_COUNT
    requires var n := SeenFrom(ns[i], side);
             w < |n.a.acts| && n.a.acts[w].Loop? && n.a.acts[w].wait != INVALID_ID
    ensures var n := SeenFrom(ns[i], side);
            Places(n, n.a.acts[w].wait) == 1
            && forall v :: 0 <= v < |n.a.acts| && n.a.acts[v].Loop? && n.a.acts[v].wait == n.a.acts[w].wait ==> v == w
  {
    var n := SeenFrom(ns[i], side);
    SeenInv(ns, run, i, side);
    OnePlaceIn(n, w);
    forall v | 0 <= v < |n.a.acts| && n.a.acts[v].Loop? && n.a.acts[v].wait == n.a.acts[w].wait
      ensures v == w
    {
      OneWaiter(n, w, v);
    }
  }

  /** The response that a waiting call gets is the one answer that the peer produced,
      for the one request that was written with this id. */
  lemma OwnResponse(ns: seq<Net>, run: seq<NetAction>, i: nat, side: Side, w: nat) returns (x: Answer)
    requires IsNetRun(ns, run) && i < |ns|
    requires SeenFrom(ns[i], side).a.log.advances <= ID_COUNT
    requires var n := SeenFrom(ns[i], side);
             w < |n.a.acts| && n.a.acts[w].Loop? && n.a.acts[w].wait != INVALID_ID
             && n.a.acts[w].pc.Returned? && n.a.acts[w].pc.result.Some?
    ensures var n := SeenFrom(ns[i], side);
            && x in n.b.log.answers && x.reply == n.a.acts[w].pc.result.value
            && x.call in n.a.log.issued && x.call.id == n.a.acts[w].wait && Answers(x.call, x.reply)
            && (forall y :: y in n.b.log.answers && y.call.id == x.call.id ==> y == x)
            && (forall p :: p in n.a.log.issued && p.id == x.call.id ==> p == x.call)
  {
    var n := SeenFrom(ns[i], side);
    SeenInv(ns, run, i, side);
    var f := n.a.acts[w];
    var r := f.pc.result.value;
    assert HeldOk(f) && Held(f) == Some(r) && From(n.b.log, r);
    var j :| 0 <= j < |n.b.log.answers| && n.b.log.answers[j].reply == r;
    x := n.b.log.answers[j];
    assert AnswerOk(x, n.a.log);
    forall y | y in n.b.log.answers && y.call.id == x.call.id
      ensures y == x
    {
      SameAnswer(n, x, y);
    }
    forall p | p in n.a.log.issued && p.id == x.call.id
      ensures p == x.call
    {
      SameRequest(n.a, p, x.call);
    }
  }

  lemma SameAnswer(n: Net, x: Answer, y: Answer)
    requires Ledger(n) && IdInv(n.a) && n.a.log.advances <= ID_COUNT
    requires x in n.b.log.answers && y in n.b.log.answers && x.call.id == y.call.id
    ensures x == y
  {
    var k := x.call.id;
    var i :| 0 <= i < |n.b.log.answers| && n.b.log.answers[i] == x;
    var j :| 0 <= j < |n.b.log.answers| && n.b.log.answers[j] == y;
    assert RequestLedger(n, k) && IssuedCount(n.a, k) <= 1;
    if i < j {
      CountTwo(n.b.log.answers, i, j, AnswerId(k));
    } else if j < i {
      CountTwo(n.b.log.answers, j, i, AnswerId(k));
    }
  }

  /** Every request is handled at most once, and no response is ever dropped
      because its id is already stored. */
  lemma HandledOnce(ns: seq<Net>, run: seq<NetAction>, i: nat, side: Side, k: u32)
    requires IsNetRun(ns, run) && i < |ns|
    requires SeenFrom(ns[i], side).a.log.advances <= ID_COUNT
    ensures var n := SeenFrom(ns[i], side);
            && Answered(n.b, k) + Silent(n.b, k) <= IssuedCount(n.a, k) <= 1
            && n.a.log.dropped == [] && n.a.log.ignored == []
  {
    var n := SeenFrom(ns[i], side);
    SeenInv(ns, run, i, side);
    assert RequestLedger(n, k) && IssuedCount(n.a, k) <= 1;
  }

  /** A sleeper whose peer and channels hold nothing with its id would have its
      response in the hands of the activation that reads the transport. */
  lemma SleeperIsServed(ns: seq<Net>, run: seq<NetAction>, i: nat, side: Side, w: nat) returns (r: nat)
    requires IsNetRun(ns, run) && i < |ns|
    requires SeenFrom(ns[i], side).a.log.advances <= ID_COUNT
    requires var n := SeenFrom(ns[i], side);
             w < |n.a.acts| && Sleeps(n.a.acts[w])
             && Count(n.ab, CallId(n.a.acts[w].wait)) == 0 && CallsHeld(n.b, n.a.acts[w].wait) == 0
             && ResultsPosted(n.b, n.a.acts[w].wait) == 0 && Count(n.ba, RespId(n.a.acts[w].wait)) == 0
    ensures var n := SeenFrom(ns[i], side);
            r < |n.a.acts| && HasRole(n.a.acts[r]) && ActResp(n.a.acts[w].wait)(n.a.acts[r])
  {
    var n := SeenFrom(ns[i], side);
    SeenInv(ns, run, i, side);
    var f := n.a.acts[w];
    assert SleepOk(f, n.a.pend);
    OnePlace(ns, run, i, side, w);
    r := CountWitness(n.a.acts, ActResp(f.wait));
    var g := n.a.acts[r];
    assert HeldOk(g);
  }
}
