/** Two runs in which the pair comes to a halt while both sides wait. */
module Deadlock {
  import opened Prelude
  import opened Packets
  import opened CallIds
  import opened Pending
  import opened Endpoint
  import opened Network
  import opened Ages
  import opened Waiting
  import opened Progress

  /** An endpoint without its history. */
  datatype Core = Core(pend: State, acts: seq<Activation>, jobs: seq<Packet>, advances: nat)

  function CoreOf(e: Endpoint): Core {
    Core(e.pend, e.acts, e.jobs, e.log.advances)
  }

  /** The first call of either side. */
  const REQUEST := Packet(PT_CALL, 1, true, [])

  const NEW := Core(State(None, 0, map[], []), [], [], 0)

  /** The first id has been taken. */
  function One(locked: Option<Thread>, queue: seq<Packet>, acts: seq<Activation>, jobs: seq<Packet>): Core {
    Core(State(locked, 2, map[], queue), acts, jobs, 1)
  }

  /** No id has been taken. */
  function Zero(locked: Option<Thread>, queue: seq<Packet>, acts: seq<Activation>): Core {
    Core(State(locked, 0, map[], queue), acts, [], 0)
  }

  // ----- Single steps ---------------------------------------------------------------------

  ghost predicate Leads(e: Endpoint, act: Action, c: Core, out: seq<Packet>) {
    Enabled(e, act) && CoreOf(Next(e, act)) == c && Output(e, act) == out
  }

  lemma FirstId()
    ensures HasFree({}) && Skips(0, {}) == 0 && NewId(0, {}) == 1 && NewCounter(0, {}) == 2
  {
    var none: set<u32> := {};
    var one: u32 := 1;
    assert one !in none && Candidate(0, 0) == 1;
  }

  lemma IssueLeads(e: Endpoint, t: Thread, process: bool)
    requires e.pend.counter == 0 && e.pend.responses == map[] && MayCall(e.acts, t) && e.log.advances == 0
    ensures Leads(e, Issue(t, PT_CALL, true, [], process),
                  Core(e.pend.(counter := 2), e.acts + [Sending(t, REQUEST, process)], e.jobs, 1), [])
  {
    FirstId();
    assert e.pend.responses.Keys == {};
    hide HasFree, FreeFrom;
  }

  /** An endpoint that has come to `c`. */
  function Bare(c: Core): Endpoint {
    Endpoint(c.pend, c.acts, c.jobs, INITIAL.log.(advances := c.advances))
  }

  /** Steps do not depend on the history. */
  lemma SameLeads(e: Endpoint, act: Action, c: Core, out: seq<Packet>)
    requires Leads(Bare(CoreOf(e)), act, c, out)
    ensures Leads(e, act, c, out)
  {
    hide HasFree, FreeFrom;
  }

  // ----- Runs that grow -------------------------------------------------------------------

  /** A run, where it has come to, and what is under way. */
  ghost predicate Reaches(ns: seq<Net>, run: seq<NetAction>, a: Core, b: Core, ab: seq<Packet>, ba: seq<Packet>) {
    && IsNetRun(ns, run) && |ns| == |run| + 1
    && var n := ns[|run|];
       CoreOf(n.a) == a && CoreOf(n.b) == b && n.ab == ab && n.ba == ba
  }

  /** The same as `side` sees it. */
  ghost predicate Sees(side: Side, ns: seq<Net>, run: seq<NetAction>, a: Core, b: Core, ab: seq<Packet>, ba: seq<Packet>) {
    if side == A then Reaches(ns, run, a, b, ab, ba) else Reaches(ns, run, b, a, ba, ab)
  }

  lemma Go(side: Side, ns: seq<Net>, run: seq<NetAction>, a: Core, b: Core, ab: seq<Packet>, ba: seq<Packet>,
           act: Action, a1: Core, out: seq<Packet>, ab1: seq<Packet>, ba1: seq<Packet>)
    returns (ns1: seq<Net>, run1: seq<NetAction>)
    requires Sees(side, ns, run, a, b, ab, ba) && Leads(Bare(a), act, a1, out)
    requires ab1 == ab + out && ba == Input(act) + ba1
    ensures run1 == run + [By(side, act)] && Sees(side, ns1, run1, a1, b, ab1, ba1)
  {
    SameLeads(SeenFrom(ns[|run|], side).a, act, a1, out);
    hide Enabled, Next, Output;
    var x := By(side, act);
    ns1, run1 := ns + [NetNext(ns[|run|], x)], run + [x];
  }

  /** What one side does next, where it comes to, and what it writes. */
  datatype Move = Move(act: Action, after: Core, out: seq<Packet>)

  function Before(c: Core, s: seq<Move>, k: nat): Core
    requires k <= |s|
  {
    if k == 0 then c else s[k - 1].after
  }

  ghost predicate MoveOk(c: Core, s: seq<Move>, k: nat)
    requires k < |s|
  {
    Leads(Bare(Before(c, s, k)), s[k].act, s[k].after, s[k].out)
  }

  ghost predicate Follows(c: Core, s: seq<Move>) {
    forall k :: 0 <= k < |s| ==> MoveOk(c, s, k)
  }

  function Written(s: seq<Move>): seq<Packet> {
    if s == [] then [] else Written(s[..|s| - 1]) + s[|s| - 1].out
  }

  function Read(s: seq<Move>): seq<Packet> {
    if s == [] then [] else Read(s[..|s| - 1]) + Input(s[|s| - 1].act)
  }

  function Acts(side: Side, s: seq<Move>): seq<NetAction> {
    if s == [] then [] else Acts(side, s[..|s| - 1]) + [By(side, s[|s| - 1].act)]
  }

  lemma FollowsInit(c: Core, s: seq<Move>)
    requires Follows(c, s) && s != []
    ensures var init, m := s[..|s| - 1], s[|s| - 1];
            Follows(c, init) && Leads(Bare(Before(c, init, |init|)), m.act, m.after, m.out)
  {
    hide Leads, Bare;
    var init := s[..|s| - 1];
    assert MoveOk(c, s, |init|);
    forall k | 0 <= k < |init|
      ensures MoveOk(c, init, k)
    {
      assert MoveOk(c, s, k) && Before(c, s, k) == Before(c, init, k);
    }
  }

  /** One side makes its moves. */
  lemma {:induction false} Play(side: Side, ns: seq<Net>, run: seq<NetAction>, c: Core, b: Core, ab: seq<Packet>, ba: seq<Packet>,
                                s: seq<Move>) returns (ns1: seq<Net>, run1: seq<NetAction>)
    requires Sees(side, ns, run, c, b, ab, Read(s) + ba) && Follows(c, s)
    ensures run1 == run + Acts(side, s) && Sees(side, ns1, run1, Before(c, s, |s|), b, ab + Written(s), ba)
    decreases |s|
  {
    hide Sees, Leads, Bare, Follows;
    if s == [] {
      assert [] + ba == ba && ab + [] == ab && run + [] == run;
      ns1, run1 := ns, run;
    } else {
      var init, m := s[..|s| - 1], s[|s| - 1];
      assert Read(s) + ba == Read(init) + (Input(m.act) + ba);
      FollowsInit(c, s);
      ns1, run1 := Play(side, ns, run, c, b, ab, Input(m.act) + ba, init);
      ns1, run1 := Go(side, ns1, run1, Before(c, init, |init|), b, ab + Written(init), Input(m.act) + ba,
                      m.act, m.after, m.out, ab + Written(s), ba);
    }
  }

  /** From `c` the moves lead to `c1`; what they write and what they read. */
  ghost predicate Does(c: Core, s: seq<Move>, c1: Core, out: seq<Packet>, got: seq<Packet>) {
    Follows(c, s) && Before(c, s, |s|) == c1 && Written(s) == out && Read(s) == got
  }

  lemma Plays(side: Side, ns: seq<Net>, run: seq<NetAction>, c: Core, b: Core, ab: seq<Packet>, ba: seq<Packet>,
              s: seq<Move>, c1: Core, out: seq<Packet>, got: seq<Packet>, ab1: seq<Packet>, ba1: seq<Packet>)
    returns (ns1: seq<Net>, run1: seq<NetAction>)
    requires Sees(side, ns, run, c, b, ab, ba) && Does(c, s, c1, out, got)
    requires ab1 == ab + out && ba == got + ba1
    ensures run1 == run + Acts(side, s) && Sees(side, ns1, run1, c1, b, ab1, ba1)
  {
    hide Sees, Follows, Written, Read;
    ns1, run1 := Play(side, ns, run, c, b, ab, ba1, s);
  }

  lemma Two(s: seq<Move>)
    requires |s| == 2
    ensures Written(s) == s[0].out + s[1].out && Read(s) == Input(s[0].act) + Input(s[1].act)
  {
    assert s[..1][..0] == [];
    assert Written(s[..1]) == s[0].out && Read(s[..1]) == Input(s[0].act);
  }

  lemma Three(s: seq<Move>)
    requires |s| == 3
    ensures Written(s) == s[0].out + s[1].out + s[2].out
    ensures Read(s) == Input(s[0].act) + Input(s[1].act) + Input(s[2].act)
  {
    Two(s[..2]);
  }

  // ----- What the threads do ---------------------------------------------------------------

  function Asking(process: bool, pc: Pc): Activation {
    Loop(0, 1, process, pc)
  }

  function Looking(t: Thread, pc: Pc): Activation {
    Loop(t, INVALID_ID, true, pc)
  }

  /** A thread looks in and reads. */
  function Look(t: Thread): seq<Move> {
    [
      Move(Enter(t), Zero(None, [], [Looking(t, Top)]), []),
      Move(Pass(0), Looks(t), [])
    ]
  }

  function Looks(t: Thread): Core {
    Zero(Some(t), [], [Looking(t, Reading)])
  }

  lemma LookDoes(t: Thread)
    ensures Does(NEW, Look(t), Looks(t), [], [])
  {
    assert MoveOk(NEW, Look(t), 0) && MoveOk(NEW, Look(t), 1);
    hide Leads;
    Two(Look(t));
  }

  // ----- Called back while it waits without processing calls -----------------------------------

  /** A call is made, without processing calls meanwhile, and its thread reads. */
  const ASK: seq<Move> := [
    Move(Issue(0, PT_CALL, true, [], false), One(None, [], [Sending(0, REQUEST, false)], []), []),
    Move(Send(0), One(None, [], [Asking(false, Top)], []), [REQUEST]),
    Move(Pass(0), ASKED, [])
  ]

  const ASKED := One(Some(0), [], [Asking(false, Reading)], [])

  /** The call is taken. */
  const TAKE: seq<Move> := [
    Move(Receive(0, true, Some(REQUEST)), Zero(Some(0), [], [Looking(0, Received(true, Some(REQUEST)))]), []),
    Move(Store(0), Zero(None, [REQUEST], [Looking(0, Top)]), []),
    Move(Pass(0), TAKEN, [])
  ]

  const TAKEN := Zero(None, [], [Looking(0, Dispatching(REQUEST))])

  /** Its handler calls back and waits. */
  const CALL_BACK: seq<Move> := [
    Move(Issue(0, PT_CALL, true, [], true), One(None, [], [Looking(0, Dispatching(REQUEST)), Sending(0, REQUEST, true)], []), []),
    Move(Send(1), One(None, [], [Looking(0, Dispatching(REQUEST)), Asking(true, Top)], []), [REQUEST]),
    Move(Pass(1), CALLED_BACK, [])
  ]

  const CALLED_BACK := One(Some(0), [], [Looking(0, Dispatching(REQUEST)), Asking(true, Reading)], [])

  /** The call back is queued, and nobody takes it. */
  const QUEUE: seq<Move> := [
    Move(Receive(0, true, Some(REQUEST)), One(Some(0), [], [Asking(false, Received(true, Some(REQUEST)))], []), []),
    Move(Store(0), One(None, [REQUEST], [Asking(false, Top)], []), []),
    Move(Pass(0), UNSERVED, [])
  ]

  const UNSERVED := One(Some(0), [REQUEST], [Asking(false, Reading)], [])

  lemma AskEnds()
    ensures MoveOk(NEW, ASK, 2)
  {
  }

  lemma AskDoes()
    ensures Does(NEW, ASK, ASKED, [REQUEST], [])
  {
    assert MoveOk(NEW, ASK, 0) by {
      IssueLeads(Bare(NEW), 0, false);
      hide Leads;
    }
    AskEnds();
    hide HasFree, FreeFrom, FirstFree, NewId, NewCounter, Skips;
    assert MoveOk(NEW, ASK, 1);
    hide Leads;
    Three(ASK);
  }

  lemma TakeEnds()
    ensures MoveOk(Looks(0), TAKE, 2)
  {
  }

  lemma TakeDoes()
    ensures Does(Looks(0), TAKE, TAKEN, [], [REQUEST])
  {
    TakeEnds();
    assert MoveOk(Looks(0), TAKE, 0) && MoveOk(Looks(0), TAKE, 1);
    hide Leads;
    Three(TAKE);
  }

  lemma CallBackEnds()
    ensures MoveOk(TAKEN, CALL_BACK, 2)
  {
  }

  lemma CallBackDoes()
    ensures Does(TAKEN, CALL_BACK, CALLED_BACK, [REQUEST], [])
  {
    assert MoveOk(TAKEN, CALL_BACK, 0) by {
      IssueLeads(Bare(TAKEN), 0, true);
      hide Leads;
    }
    CallBackEnds();
    hide HasFree, FreeFrom, FirstFree, NewId, NewCounter, Skips;
    assert MoveOk(TAKEN, CALL_BACK, 1);
    hide Leads;
    Three(CALL_BACK);
  }

  lemma QueueEnds()
    ensures MoveOk(ASKED, QUEUE, 2)
  {
  }

  lemma QueueDoes()
    ensures Does(ASKED, QUEUE, UNSERVED, [], [REQUEST])
  {
    QueueEnds();
    assert MoveOk(ASKED, QUEUE, 0) && MoveOk(ASKED, QUEUE, 1);
    hide Leads;
    Three(QUEUE);
  }

  /** The other side's view. */
  lemma Turn(ns: seq<Net>, run: seq<NetAction>, a: Core, b: Core, ab: seq<Packet>, ba: seq<Packet>)
    ensures Sees(A, ns, run, a, b, ab, ba) <==> Sees(B, ns, run, b, a, ba, ab)
  {
  }

  lemma BlockedReached() returns (ns: seq<Net>, run: seq<NetAction>)
    ensures run == [] + Acts(A, ASK) + Acts(B, Look(0)) + Acts(B, TAKE) + Acts(B, CALL_BACK) + Acts(A, QUEUE)
    ensures Sees(A, ns, run, UNSERVED, CALLED_BACK, [], [])
  {
    AskDoes();
    LookDoes(0);
    TakeDoes();
    CallBackDoes();
    QueueDoes();
    ns, run := [NET_INITIAL], [];
    Starts(ns);
    hide *;
    ns, run := Plays(A, ns, run, NEW, NEW, [], [], ASK, ASKED, [REQUEST], [], [REQUEST], []);
    Turn(ns, run, ASKED, NEW, [REQUEST], []);
    ns, run := Plays(B, ns, run, NEW, ASKED, [], [REQUEST], Look(0), Looks(0), [], [], [], [REQUEST]);
    ns, run := Plays(B, ns, run, Looks(0), ASKED, [], [REQUEST], TAKE, TAKEN, [], [REQUEST], [], []);
    ns, run := Plays(B, ns, run, TAKEN, ASKED, [], [], CALL_BACK, CALLED_BACK, [REQUEST], [], [REQUEST], []);
    Turn(ns, run, ASKED, CALLED_BACK, [], [REQUEST]);
    ns, run := Plays(A, ns, run, ASKED, CALLED_BACK, [], [REQUEST], QUEUE, UNSERVED, [], [REQUEST], [], []);
  }

  lemma BlockedHalts(n: Net, h: Homes)
    requires CoreOf(n.a) == UNSERVED && CoreOf(n.b) == CALLED_BACK && n.ab == [] && n.ba == []
    ensures Halted(n, h.a) && Halted(Flip(n), h.b) && Blocked(n) && Bounded(n)
    ensures Stuck(n, 0) && Stuck(Flip(n), 1)
  {
    assert Stuck(n, 0) && HasRole(n.a.acts[0]);
    assert Stuck(Flip(n), 1);
  }

  /** The input: a thread calls without processing calls meanwhile, the handler calls back, and
      each side has only this thread. The call back is queued for nobody, both threads read
      for ever, and whatever threads the jobs have, no step is left. */
  lemma BlockedRun() returns (ns: seq<Net>, run: seq<NetAction>)
    ensures run == [] + Acts(A, ASK) + Acts(B, Look(0)) + Acts(B, TAKE) + Acts(B, CALL_BACK) + Acts(A, QUEUE)
    ensures IsNetRun(ns, run) && |ns| == |run| + 1
    ensures var n := ns[|run|];
            && Bounded(n) && Blocked(n) && Stuck(n, 0) && Stuck(Flip(n), 1)
            && forall h: Homes :: Halted(n, h.a) && Halted(Flip(n), h.b)
  {
    ns, run := BlockedReached();
    var n := ns[|run|];
    forall h: Homes
      ensures Halted(n, h.a) && Halted(Flip(n), h.b)
    {
      BlockedHalts(n, h);
    }
    BlockedHalts(n, Homes(_ => 0, _ => 0));
    hide *;
  }

  lemma Starts(ns: seq<Net>)
    requires ns == [NET_INITIAL]
    ensures Sees(A, ns, [], NEW, NEW, [], [])
  {
  }

  // ----- Posted to a thread that waits ------------------------------------------------------

  /** Another thread makes a call and sleeps. */
  const ASK_BEHIND: seq<Move> := [
    Move(Issue(0, PT_CALL, true, [], true), One(Some(1), [], [Looking(1, Reading), Sending(0, REQUEST, true)], []), []),
    Move(Send(1), One(Some(1), [], [Looking(1, Reading), Asking(true, Top)], []), [REQUEST]),
    Move(Pass(1), ASLEEP, [])
  ]

  const ASLEEP := One(Some(1), [], [Looking(1, Reading), Asking(true, Asleep)], [])

  /** The call of the peer comes in. */
  const COME_IN: seq<Move> := [
    Move(Receive(0, true, Some(REQUEST)), One(Some(1), [], [Looking(1, Received(true, Some(REQUEST))), Asking(true, Asleep)], []), []),
    Move(Store(0), CAME, [])
  ]

  const CAME := One(None, [REQUEST], [Looking(1, Top), Asking(true, Woken)], [])

  /** It is posted to the thread that sleeps. */
  const POST: seq<Move> := [
    Move(Pass(0), One(None, [], [Looking(1, Dispatching(REQUEST)), Asking(true, Woken)], []), []),
    Move(Post(0), POSTED, [])
  ]

  const POSTED := One(None, [], [Looking(1, Top), Asking(true, Woken)], [REQUEST])

  /** The reader finds nothing more. */
  const READ_ON: seq<Move> := [
    Move(Pass(0), One(Some(1), [], [Looking(1, Reading), Asking(true, Woken)], [REQUEST]), []),
    Move(Receive(0, true, None), EMPTY, [])
  ]

  const EMPTY := One(Some(1), [], [Looking(1, Received(true, None)), Asking(true, Woken)], [REQUEST])

  /** It leaves, and the thread that waits reads itself. */
  const LEAVE: seq<Move> := [
    Move(Store(0), One(None, [], [Looking(1, Returned(None)), Asking(true, Woken)], [REQUEST]), []),
    Move(Pass(1), LEFT, [])
  ]

  const LEFT := One(Some(0), [], [Looking(1, Returned(None)), Asking(true, Reading)], [REQUEST])

  lemma AskBehindEnds()
    ensures MoveOk(Looks(1), ASK_BEHIND, 2)
  {
  }

  lemma AskBehindDoes()
    ensures Does(Looks(1), ASK_BEHIND, ASLEEP, [REQUEST], [])
  {
    assert MoveOk(Looks(1), ASK_BEHIND, 0) by {
      IssueLeads(Bare(Looks(1)), 0, true);
      hide Leads;
    }
    AskBehindEnds();
    hide HasFree, FreeFrom, FirstFree, NewId, NewCounter, Skips;
    assert MoveOk(Looks(1), ASK_BEHIND, 1);
    hide Leads;
    Three(ASK_BEHIND);
  }

  lemma ComeInDoes()
    ensures Does(ASLEEP, COME_IN, CAME, [], [REQUEST])
  {
    assert MoveOk(ASLEEP, COME_IN, 0) && MoveOk(ASLEEP, COME_IN, 1);
    hide Leads;
    Two(COME_IN);
  }

  lemma PostDoes()
    ensures Does(CAME, POST, POSTED, [], [])
  {
    assert MoveOk(CAME, POST, 0) && MoveOk(CAME, POST, 1);
    hide Leads;
    Two(POST);
  }

  lemma ReadOnDoes()
    ensures Does(POSTED, READ_ON, EMPTY, [], [])
  {
    assert MoveOk(POSTED, READ_ON, 0) && MoveOk(POSTED, READ_ON, 1);
    hide Leads;
    Two(READ_ON);
  }

  lemma LeaveDoes()
    ensures Does(EMPTY, LEAVE, LEFT, [], [])
  {
    assert MoveOk(EMPTY, LEAVE, 0) && MoveOk(EMPTY, LEAVE, 1);
    hide Leads;
    Two(LEAVE);
  }

  /** One side posts the call that came. */
  function Posts(side: Side): seq<NetAction> {
    Acts(side, COME_IN) + Acts(side, POST) + Acts(side, READ_ON) + Acts(side, LEAVE)
  }

  lemma PostsCall(side: Side, ns: seq<Net>, run: seq<NetAction>, b: Core, ab: seq<Packet>)
    returns (ns1: seq<Net>, run1: seq<NetAction>)
    requires Sees(side, ns, run, ASLEEP, b, ab, [REQUEST])
    ensures run1 == run + Posts(side) && Sees(side, ns1, run1, LEFT, b, ab, [])
  {
    ComeInDoes();
    PostDoes();
    ReadOnDoes();
    LeaveDoes();
    hide Does, Sees, Acts;
    ns1, run1 := Plays(side, ns, run, ASLEEP, b, ab, [REQUEST], COME_IN, CAME, [], [REQUEST], ab, []);
    ns1, run1 := Plays(side, ns1, run1, CAME, b, ab, [], POST, POSTED, [], [], ab, []);
    ns1, run1 := Plays(side, ns1, run1, POSTED, b, ab, [], READ_ON, EMPTY, [], [], ab, []);
    ns1, run1 := Plays(side, ns1, run1, EMPTY, b, ab, [], LEAVE, LEFT, [], [], ab, []);
  }

  lemma ParkedReached() returns (ns: seq<Net>, run: seq<NetAction>)
    ensures run == [] + Acts(A, Look(1)) + Acts(A, ASK_BEHIND) + Acts(B, Look(1)) + Acts(B, ASK_BEHIND) + Posts(A) + Posts(B)
    ensures Sees(A, ns, run, LEFT, LEFT, [], [])
  {
    LookDoes(1);
    AskBehindDoes();
    ns, run := [NET_INITIAL], [];
    Starts(ns);
    hide *;
    ns, run := Plays(A, ns, run, NEW, NEW, [], [], Look(1), Looks(1), [], [], [], []);
    ns, run := Plays(A, ns, run, Looks(1), NEW, [], [], ASK_BEHIND, ASLEEP, [REQUEST], [], [REQUEST], []);
    Turn(ns, run, ASLEEP, NEW, [REQUEST], []);
    ns, run := Plays(B, ns, run, NEW, ASLEEP, [], [REQUEST], Look(1), Looks(1), [], [], [], [REQUEST]);
    ns, run := Plays(B, ns, run, Looks(1), ASLEEP, [], [REQUEST], ASK_BEHIND, ASLEEP, [REQUEST], [], [REQUEST], [REQUEST]);
    Turn(ns, run, ASLEEP, ASLEEP, [REQUEST], [REQUEST]);
    ns, run := PostsCall(A, ns, run, ASLEEP, [REQUEST]);
    Turn(ns, run, LEFT, ASLEEP, [REQUEST], []);
    ns, run := PostsCall(B, ns, run, LEFT, []);
    Turn(ns, run, LEFT, LEFT, [], []);
  }

  function Always(t: Thread): Home {
    (p: Packet) => t
  }

  lemma ParkedHalts(n: Net)
    requires CoreOf(n.a) == LEFT && n.ba == []
    ensures Halted(n, Always(0)) && Stuck(n, 1) && n.a.acts[1].process && |n.a.jobs| == 1 && Parked(n, Always(0), 0)
  {
    assert Stuck(n, 1);
  }

  /** The input: on both sides the thread to which calls are posted makes a call itself, and
      another thread posts the peer's call to it. Both wait, although both process calls, and
      no step is left. */
  lemma ParkedRun() returns (ns: seq<Net>, run: seq<NetAction>)
    ensures run == [] + Acts(A, Look(1)) + Acts(A, ASK_BEHIND) + Acts(B, Look(1)) + Acts(B, ASK_BEHIND) + Posts(A) + Posts(B)
    ensures IsNetRun(ns, run) && |ns| == |run| + 1
    ensures var n := ns[|run|];
            && Bounded(n) && Halted(n, Always(0)) && Halted(Flip(n), Always(0))
            && Stuck(n, 1) && Stuck(Flip(n), 1) && n.a.acts[1].process && n.b.acts[1].process
            && |n.a.jobs| == 1 && Parked(n, Always(0), 0) && |n.b.jobs| == 1 && Parked(Flip(n), Always(0), 0)
  {
    ns, run := ParkedReached();
    ParkedHalts(ns[|run|]);
    ParkedHalts(Flip(ns[|run|]));
    hide Halted, Stuck, Parked, IsNetRun, Posts, Acts;
  }
}
