/** Traversal of a callback list while handlers change the list: the ring as a
    sequence of cells, the iterators as a stack of cursors, and what every step keeps. */
module Traversal {
  import opened Prelude

  /** A node of the ring and the element it holds; none once the element was removed. */
  datatype Cell<N, E> = Cell(node: N, elem: Option<E>)

  /** An iterator. `at` is the node it holds; `passed` says that the node's element
      was already dealt with. `done` are the nodes whose handlers were invoked, and
      `start` the nodes with a handler when the traversal began. */
  datatype Cursor<N> = Cursor(at: Option<N>, passed: bool, done: seq<N>, start: set<N>)

  /** Cursors of nested traversals form a stack. */
  datatype State<N, E> = State(cells: seq<Cell<N, E>>, cursors: seq<Cursor<N>>)

  // ----- Vocabulary ------------------------------------------------------------------

  ghost function Nodes<N, E>(cells: seq<Cell<N, E>>): (r: seq<N>)
    ensures |r| == |cells|
    ensures forall i :: 0 <= i < |r| ==> r[i] == cells[i].node
  {
    seq(|cells|, i requires 0 <= i < |cells| => cells[i].node)
  }

  /** The nodes that hold a handler. */
  ghost function Live<N, E>(cells: seq<Cell<N, E>>): set<N> {
    set c | c in cells && c.elem.Some? :: c.node
  }

  /** The elements of `xs` that are in `k`, in their order. */
  ghost function Keep<N>(xs: seq<N>, k: set<N>): seq<N> {
    if xs == [] then []
    else Keep(xs[..|xs| - 1], k) + if xs[|xs| - 1] in k then [xs[|xs| - 1]] else []
  }

  ghost predicate Distinct<N>(xs: seq<N>) {
    forall i, j :: 0 <= i < j < |xs| ==> xs[i] != xs[j]
  }

  /** How many cursors hold the node. */
  ghost function Holders<N>(cursors: seq<Cursor<N>>, n: N): nat {
    if cursors == [] then 0
    else Holders(cursors[..|cursors| - 1], n) + if cursors[|cursors| - 1].at == Some(n) then 1 else 0
  }

  lemma {:induction false} KeepAppend<N>(xs: seq<N>, ys: seq<N>, k: set<N>)
    ensures Keep(xs + ys, k) == Keep(xs, k) + Keep(ys, k)
  {
    if ys == [] {
      assert xs + ys == xs;
    } else {
      KeepAppend(xs, ys[..|ys| - 1], k);
      assert (xs + ys)[..|xs + ys| - 1] == xs + ys[..|ys| - 1];
    }
  }

  lemma KeepOne<N>(x: N, k: set<N>)
    ensures Keep([x], k) == if x in k then [x] else []
  {
    assert [x][..0] == [];
    assert Keep([x][..0], k) == [];
  }

  lemma KeepWithout<N>(xs: seq<N>, i: nat, k: set<N>)
    requires i < |xs| && xs[i] !in k
    ensures Keep(Without(xs, i), k) == Keep(xs, k)
  {
    assert xs == xs[..i] + [xs[i]] + xs[i + 1..];
    KeepAppend(xs[..i] + [xs[i]], xs[i + 1..], k);
    KeepAppend(xs[..i], [xs[i]], k);
    KeepAppend(xs[..i], xs[i + 1..], k);
    KeepOne(xs[i], k);
  }

  /** Keeping less can be done in two steps. */
  lemma {:induction false} KeepKeep<N>(xs: seq<N>, k: set<N>, l: set<N>)
    requires l <= k
    ensures Keep(Keep(xs, k), l) == Keep(xs, l)
  {
    if xs != [] {
      var init, x := xs[..|xs| - 1], xs[|xs| - 1];
      KeepKeep(init, k, l);
      if x in k {
        KeepAppend(Keep(init, k), [x], l);
        KeepOne(x, l);
      } else {
        assert Keep(init, k) + [] == Keep(init, k);
        assert Keep(init, l) + [] == Keep(init, l);
      }
    }
  }

  lemma {:induction false} KeepMember<N>(xs: seq<N>, k: set<N>, x: N)
    ensures x in Keep(xs, k) <==> x in xs && x in k
  {
    if xs != [] {
      KeepMember(xs[..|xs| - 1], k, x);
      assert xs == xs[..|xs| - 1] + [xs[|xs| - 1]];
    }
  }

  lemma {:induction false} HoldersIn<N>(cursors: seq<Cursor<N>>, n: N, j: nat)
    requires j < |cursors| && cursors[j].at == Some(n)
    ensures Holders(cursors, n) > 0
  {
    if j < |cursors| - 1 {
      HoldersIn(cursors[..|cursors| - 1], n, j);
    }
  }

  // ----- Steps -----------------------------------------------------------------------

  /** Steps name positions in the ring. `Release` takes the element out of its node;
      `Visit` deals with the node under the top cursor, `Advance` moves on. Adding an
      element that is already listed is an addition and a release. */
  datatype Op<N, E> =
    | Begin
    | Visit(i: nat)
    | Advance(i: nat)
    | End
    | Release(i: nat)
    | Append(n: N, e: E)
    | Prepend(n: N, e: E)

  /** A node whose last reference is gone leaves the ring. */
  ghost function Sweep<N, E>(cells: seq<Cell<N, E>>, cursors: seq<Cursor<N>>, i: nat): seq<Cell<N, E>>
    requires i < |cells|
  {
    if cells[i].elem.None? && Holders(cursors, cells[i].node) == 0 then Without(cells, i) else cells
  }

  ghost function Top<N, E>(s: State<N, E>): Cursor<N>
    requires s.cursors != []
  {
    s.cursors[|s.cursors| - 1]
  }

  ghost function WithTop<N, E>(s: State<N, E>, c: Cursor<N>): seq<Cursor<N>>
    requires s.cursors != []
  {
    s.cursors[..|s.cursors| - 1] + [c]
  }

  /** A node that was never part of the list. */
  ghost predicate New<N, E>(s: State<N, E>, n: N) {
    n !in Nodes(s.cells) && forall c :: c in s.cursors ==> n !in c.start && n !in c.done && c.at != Some(n)
  }

  ghost predicate Enabled<N, E>(s: State<N, E>, op: Op<N, E>) {
    match op
    case Begin => true
    case Visit(i) => s.cursors != [] && i < |s.cells| && Top(s).at == Some(s.cells[i].node) && !Top(s).passed
    case Advance(i) => s.cursors != [] && i < |s.cells| && Top(s).at == Some(s.cells[i].node) && Top(s).passed
    case End => s.cursors != [] && Top(s).at.None?
    case Release(i) => i < |s.cells| && s.cells[i].elem.Some?
    case Append(n, _) => New(s, n)
    case Prepend(n, _) => New(s, n)
  }

  ghost function Visited<N, E>(c: Cursor<N>, cell: Cell<N, E>): Cursor<N> {
    c.(passed := true, done := c.done + if cell.elem.Some? then [cell.node] else [])
  }

  ghost function NodeAt<N, E>(cells: seq<Cell<N, E>>, i: nat): Option<N> {
    if i < |cells| then Some(cells[i].node) else None
  }

  ghost function Next<N, E>(s: State<N, E>, op: Op<N, E>): State<N, E>
    requires Enabled(s, op)
  {
    match op
    case Begin => s.(cursors := s.cursors + [Cursor(NodeAt(s.cells, 0), false, [], Live(s.cells))])
    case Visit(i) => s.(cursors := WithTop(s, Visited(Top(s), s.cells[i])))
    case Advance(i) =>
      var cursors := WithTop(s, Top(s).(at := NodeAt(s.cells, i + 1), passed := false));
      State(Sweep(s.cells, cursors, i), cursors)
    case End => s.(cursors := s.cursors[..|s.cursors| - 1])
    case Release(i) => s.(cells := Sweep(s.cells[i := s.cells[i].(elem := None)], s.cursors, i))
    case Append(n, e) => s.(cells := s.cells + [Cell(n, Some(e))])
    case Prepend(n, e) => s.(cells := [Cell(n, Some(e))] + s.cells)
  }

  // ----- The invariant ---------------------------------------------------------------

  /** The cursor has left the first `p` cells behind. */
  ghost predicate Behind<N, E>(c: Cursor<N>, cells: seq<Cell<N, E>>, p: nat) {
    && p <= |cells|
    && match c.at
       case None => p == |cells|
       case Some(n) => if c.passed then p > 0 && cells[p - 1].node == n else p < |cells| && cells[p].node == n
  }

  /** The handlers registered when the traversal began that still are. */
  ghost function Lasting<N, E>(c: Cursor<N>, cells: seq<Cell<N, E>>): set<N> {
    c.start * Live(cells)
  }

  /** Of the lasting handlers, those behind the cursor were invoked, once and in the
      order of the ring; no node that is ahead was visited. */
  ghost predicate Tracked<N, E>(c: Cursor<N>, cells: seq<Cell<N, E>>, p: nat) {
    && Behind(c, cells, p)
    && Keep(c.done, Lasting(c, cells)) == Keep(Nodes(cells)[..p], Lasting(c, cells))
    && Distinct(c.done)
    && forall i :: p <= i < |cells| ==> cells[i].node !in c.done
  }

  ghost predicate OnTrack<N, E>(c: Cursor<N>, cells: seq<Cell<N, E>>) {
    exists p: nat :: Tracked(c, cells, p)
  }

  ghost predicate Inv<N, E>(s: State<N, E>) {
    && Distinct(Nodes(s.cells))
    && (forall i :: 0 <= i < |s.cells| ==> s.cells[i].elem.Some? || Holders(s.cursors, s.cells[i].node) > 0)
    && (forall j :: 0 <= j < |s.cursors| ==> OnTrack(s.cursors[j], s.cells))
  }

  lemma LiveAt<N, E>(cells: seq<Cell<N, E>>, i: nat)
    requires Distinct(Nodes(cells)) && i < |cells|
    ensures cells[i].node in Live(cells) <==> cells[i].elem.Some?
  {
    if cells[i].node in Live(cells) {
      var c :| c in cells && c.elem.Some? && c.node == cells[i].node;
      var j :| 0 <= j < |cells| && cells[j] == c;
      assert Nodes(cells)[j] == Nodes(cells)[i];
    }
    if cells[i].elem.Some? {
      assert cells[i] in cells;
    }
  }

  lemma WithoutNodes<N, E>(cells: seq<Cell<N, E>>, i: nat)
    requires i < |cells|
    ensures Nodes(Without(cells, i)) == Without(Nodes(cells), i)
    ensures Distinct(Nodes(cells)) ==> Distinct(Nodes(Without(cells, i)))
  {
  }

  lemma LiveWithout<N, E>(cells: seq<Cell<N, E>>, i: nat)
    requires i < |cells| && cells[i].elem.None?
    ensures Live(Without(cells, i)) == Live(cells)
  {
    forall n | n in Live(cells)
      ensures n in Live(Without(cells, i))
    {
      var c :| c in cells && c.elem.Some? && c.node == n;
      var j :| 0 <= j < |cells| && cells[j] == c;
      assert Without(cells, i)[if j < i then j else j - 1] == c;
    }
    forall n | n in Live(Without(cells, i))
      ensures n in Live(cells)
    {
      var c :| c in Without(cells, i) && c.elem.Some? && c.node == n;
      assert c in cells;
    }
  }

  lemma KeepBehind<N>(nodes: seq<N>, p: nat, i: nat, k: set<N>)
    requires p <= |nodes| && i < |nodes| && nodes[i] !in k
    ensures Keep(Without(nodes, i)[..if i < p then p - 1 else p], k) == Keep(nodes[..p], k)
  {
    if i < p {
      KeepWithout(nodes[..p], i, k);
      assert Without(nodes, i)[..p - 1] == Without(nodes[..p], i);
    } else {
      assert Without(nodes, i)[..p] == nodes[..p];
    }
  }

  lemma BehindLess<N, E>(c: Cursor<N>, cells: seq<Cell<N, E>>, p: nat, i: nat)
    requires Behind(c, cells, p) && i < |cells| && c.at != Some(cells[i].node)
    ensures p <= |cells| && Behind(c, Without(cells, i), if i < p then p - 1 else p)
  {
  }

  /** An empty node that the cursor does not hold leaves the ring. */
  lemma TrackWithout<N, E>(c: Cursor<N>, cells: seq<Cell<N, E>>, p: nat, i: nat)
    requires Distinct(Nodes(cells)) && Tracked(c, cells, p)
    requires i < |cells| && cells[i].elem.None? && c.at != Some(cells[i].node)
    ensures OnTrack(c, Without(cells, i))
  {
    hide Keep, Live, Behind;
    var less, q := Without(cells, i), if i < p then p - 1 else p;
    LiveWithout(cells, i);
    LiveAt(cells, i);
    WithoutNodes(cells, i);
    BehindLess(c, cells, p, i);
    KeepBehind(Nodes(cells), p, i, Lasting(c, cells));
    forall j | q <= j < |less|
      ensures less[j].node !in c.done
    {
      assert less[j] == cells[if j < i then j else j + 1];
    }
    assert Tracked(c, less, q);
  }

  ghost function Emptied<N, E>(cells: seq<Cell<N, E>>, i: nat): (r: seq<Cell<N, E>>)
    requires i < |cells|
    ensures |r| == |cells| && Nodes(r) == Nodes(cells)
  {
    cells[i := cells[i].(elem := None)]
  }

  lemma LiveEmptied<N, E>(cells: seq<Cell<N, E>>, i: nat)
    requires i < |cells| && Distinct(Nodes(cells))
    ensures Live(Emptied(cells, i)) == Live(cells) - {cells[i].node}
  {
    var less := Emptied(cells, i);
    forall n | n in Live(cells) && n != cells[i].node
      ensures n in Live(less)
    {
      var c :| c in cells && c.elem.Some? && c.node == n;
      var j :| 0 <= j < |cells| && cells[j] == c;
      assert less[j] == c;
    }
    forall n | n in Live(less)
      ensures n in Live(cells) && n != cells[i].node
    {
      var c :| c in less && c.elem.Some? && c.node == n;
      var j :| 0 <= j < |less| && less[j] == c;
      assert j != i && cells[j] == c;
      assert Nodes(cells)[j] != Nodes(cells)[i];
    }
  }

  lemma TrackEmptied<N, E>(c: Cursor<N>, cells: seq<Cell<N, E>>, p: nat, i: nat)
    requires Distinct(Nodes(cells)) && Tracked(c, cells, p) && i < |cells|
    ensures Tracked(c, Emptied(cells, i), p)
  {
    var k, l := Lasting(c, cells), Lasting(c, Emptied(cells, i));
    LiveEmptied(cells, i);
    KeepKeep(c.done, k, l);
    KeepKeep(Nodes(cells)[..p], k, l);
  }

  lemma LiveAdded<N, E>(cells: seq<Cell<N, E>>, n: N, e: E)
    ensures Live(cells + [Cell(n, Some(e))]) == Live(cells) + {n}
    ensures Live([Cell(n, Some(e))] + cells) == Live(cells) + {n}
  {
    var c := Cell(n, Some(e));
    assert c in cells + [c] && c in [c] + cells;
    forall x | x in Live(cells)
      ensures x in Live(cells + [c]) && x in Live([c] + cells)
    {
      var d :| d in cells && d.elem.Some? && d.node == x;
      assert d in cells + [c] && d in [c] + cells;
    }
  }

  lemma TrackAppend<N, E>(c: Cursor<N>, cells: seq<Cell<N, E>>, p: nat, n: N, e: E)
    requires Tracked(c, cells, p) && n !in c.start && n !in c.done
    ensures OnTrack(c, cells + [Cell(n, Some(e))])
  {
    var more, k := cells + [Cell(n, Some(e))], Lasting(c, cells);
    LiveAdded(cells, n, e);
    assert Lasting(c, more) == k;
    if c.at.None? {
      assert Nodes(more)[..p + 1] == Nodes(cells)[..p] + [n];
      KeepAppend(Nodes(cells)[..p], [n], k);
      KeepOne(n, k);
      assert Tracked(c, more, p + 1);
    } else {
      assert Nodes(more)[..p] == Nodes(cells)[..p];
      assert Tracked(c, more, p);
    }
  }

  lemma TrackPrepend<N, E>(c: Cursor<N>, cells: seq<Cell<N, E>>, p: nat, n: N, e: E)
    requires Tracked(c, cells, p) && n !in c.start
    ensures OnTrack(c, [Cell(n, Some(e))] + cells)
  {
    var more, k := [Cell(n, Some(e))] + cells, Lasting(c, cells);
    LiveAdded(cells, n, e);
    assert Lasting(c, more) == k;
    assert Nodes(more)[..p + 1] == [n] + Nodes(cells)[..p];
    KeepAppend([n], Nodes(cells)[..p], k);
    KeepOne(n, k);
    forall j | p + 1 <= j < |more|
      ensures more[j].node !in c.done
    {
      assert more[j] == cells[j - 1];
    }
    assert Tracked(c, more, p + 1);
  }

  lemma KeepBoth<N>(xs: seq<N>, ys: seq<N>, n: N, k: set<N>, live: bool)
    requires Keep(xs, k) == Keep(ys, k) && (n in k ==> live)
    ensures Keep(xs + if live then [n] else [], k) == Keep(ys + [n], k)
  {
    KeepAppend(xs, [n], k);
    KeepAppend(ys, [n], k);
    KeepOne(n, k);
    assert xs + [] == xs;
  }

  lemma TrackVisit<N, E>(c: Cursor<N>, cells: seq<Cell<N, E>>, p: nat, i: nat)
    requires Distinct(Nodes(cells)) && Tracked(c, cells, p)
    requires i < |cells| && c.at == Some(cells[i].node) && !c.passed
    ensures OnTrack(Visited(c, cells[i]), cells)
  {
    hide Keep, Live;
    var v, n, k := Visited(c, cells[i]), cells[i].node, Lasting(c, cells);
    assert p == i by {
      assert Nodes(cells)[p] == Nodes(cells)[i];
    }
    LiveAt(cells, i);
    KeepBoth(c.done, Nodes(cells)[..p], n, k, cells[i].elem.Some?);
    assert Nodes(cells)[..p + 1] == Nodes(cells)[..p] + [n];
    forall j | p + 1 <= j < |cells|
      ensures cells[j].node !in v.done
    {
      assert Nodes(cells)[j] != Nodes(cells)[i];
    }
    assert Tracked(v, cells, p + 1);
  }

  lemma TrackAdvance<N, E>(c: Cursor<N>, cells: seq<Cell<N, E>>, p: nat, i: nat)
    requires Distinct(Nodes(cells)) && Tracked(c, cells, p)
    requires i < |cells| && c.at == Some(cells[i].node) && c.passed
    ensures OnTrack(c.(at := NodeAt(cells, i + 1), passed := false), cells)
  {
    assert p == i + 1 by {
      assert Nodes(cells)[p - 1] == Nodes(cells)[i];
    }
    assert Tracked(c.(at := NodeAt(cells, i + 1), passed := false), cells, p);
  }

  lemma TrackBegin<N, E>(cells: seq<Cell<N, E>>)
    ensures OnTrack(Cursor(NodeAt(cells, 0), false, [], Live(cells)), cells)
  {
    var c := Cursor(NodeAt(cells, 0), false, [], Live(cells));
    assert Nodes(cells)[..0] == [];
    assert Tracked(c, cells, 0);
  }

  // ----- Every step keeps the invariant ------------------------------------------------

  lemma {:induction false} HoldersNone<N>(cursors: seq<Cursor<N>>, n: N)
    requires Holders(cursors, n) == 0
    ensures forall j :: 0 <= j < |cursors| ==> cursors[j].at != Some(n)
  {
    if cursors != [] {
      HoldersNone(cursors[..|cursors| - 1], n);
    }
  }

  /** The reference that the top cursor holds. */
  lemma HoldersTop<N>(cursors: seq<Cursor<N>>, c: Cursor<N>, n: N)
    requires cursors != []
    ensures var init := cursors[..|cursors| - 1];
            && Holders(init + [c], n) == Holders(init, n) + (if c.at == Some(n) then 1 else 0)
            && Holders(cursors, n) == Holders(init, n) + (if cursors[|cursors| - 1].at == Some(n) then 1 else 0)
  {
    var init := cursors[..|cursors| - 1];
    assert (init + [c])[..|init|] == init;
  }

  lemma HoldersPush<N>(cursors: seq<Cursor<N>>, c: Cursor<N>, n: N)
    ensures Holders(cursors + [c], n) == Holders(cursors, n) + if c.at == Some(n) then 1 else 0
  {
    assert (cursors + [c])[..|cursors|] == cursors;
  }

  /** The cells are kept for a reason, except possibly the one at `i`. */
  ghost predicate Kept<N, E>(s: State<N, E>, i: nat) {
    forall j :: 0 <= j < |s.cells| && j != i ==> s.cells[j].elem.Some? || Holders(s.cursors, s.cells[j].node) > 0
  }

  ghost predicate AllOnTrack<N, E>(s: State<N, E>) {
    forall j :: 0 <= j < |s.cursors| ==> OnTrack(s.cursors[j], s.cells)
  }

  /** Dropping a reference to the node at `i`. */
  lemma SweepInv<N, E>(s: State<N, E>, i: nat)
    requires i < |s.cells| && Distinct(Nodes(s.cells)) && Kept(s, i) && AllOnTrack(s)
    ensures Inv(s.(cells := Sweep(s.cells, s.cursors, i)))
  {
    hide Tracked, Holders;
    var n := s.cells[i].node;
    if s.cells[i].elem.None? && Holders(s.cursors, n) == 0 {
      var less := Without(s.cells, i);
      HoldersNone(s.cursors, n);
      WithoutNodes(s.cells, i);
      forall j | 0 <= j < |s.cursors|
        ensures OnTrack(s.cursors[j], less)
      {
        var p: nat :| Tracked(s.cursors[j], s.cells, p);
        TrackWithout(s.cursors[j], s.cells, p, i);
      }
      forall j | 0 <= j < |less|
        ensures less[j].elem.Some? || Holders(s.cursors, less[j].node) > 0
      {
        assert less[j] == s.cells[if j < i then j else j + 1];
      }
    }
  }

  lemma ReleaseStep<N, E>(s: State<N, E>, i: nat)
    requires Inv(s) && Enabled(s, Release(i))
    ensures Inv(Next(s, Release(i)))
  {
    hide Tracked, Holders, Live;
    var t := s.(cells := Emptied(s.cells, i));
    forall j | 0 <= j < |t.cursors|
      ensures OnTrack(t.cursors[j], t.cells)
    {
      var p: nat :| Tracked(s.cursors[j], s.cells, p);
      TrackEmptied(s.cursors[j], s.cells, p, i);
    }
    SweepInv(t, i);
  }

  lemma AdvanceStep<N, E>(s: State<N, E>, i: nat)
    requires Inv(s) && Enabled(s, Advance(i))
    ensures Inv(Next(s, Advance(i)))
  {
    hide Tracked, Holders, Live;
    var c := Top(s).(at := NodeAt(s.cells, i + 1), passed := false);
    var t := s.(cursors := WithTop(s, c));
    var p: nat :| Tracked(Top(s), s.cells, p);
    TrackAdvance(Top(s), s.cells, p, i);
    forall j | 0 <= j < |s.cells| && j != i
      ensures s.cells[j].elem.Some? || Holders(t.cursors, s.cells[j].node) > 0
    {
      HoldersTop(s.cursors, c, s.cells[j].node);
      assert Nodes(s.cells)[j] != Nodes(s.cells)[i];
    }
    SweepInv(t, i);
  }

  lemma VisitStep<N, E>(s: State<N, E>, i: nat)
    requires Inv(s) && Enabled(s, Visit(i))
    ensures Inv(Next(s, Visit(i)))
  {
    hide Tracked, Holders, Live;
    var c := Visited(Top(s), s.cells[i]);
    var p: nat :| Tracked(Top(s), s.cells, p);
    TrackVisit(Top(s), s.cells, p, i);
    forall j | 0 <= j < |s.cells|
      ensures s.cells[j].elem.Some? || Holders(WithTop(s, c), s.cells[j].node) > 0
    {
      HoldersTop(s.cursors, c, s.cells[j].node);
    }
  }

  lemma AddStep<N, E>(s: State<N, E>, op: Op<N, E>)
    requires Inv(s) && Enabled(s, op) && (op.Append? || op.Prepend?)
    ensures Inv(Next(s, op))
  {
    hide Tracked, Holders, Live;
    var t := Next(s, op);
    forall j | 0 <= j < |s.cursors|
      ensures OnTrack(s.cursors[j], t.cells)
    {
      assert s.cursors[j] in s.cursors;
      var p: nat :| Tracked(s.cursors[j], s.cells, p);
      if op.Append? {
        TrackAppend(s.cursors[j], s.cells, p, op.n, op.e);
      } else {
        TrackPrepend(s.cursors[j], s.cells, p, op.n, op.e);
      }
    }
    assert Distinct(Nodes(t.cells)) by {
      if op.Append? {
        assert Nodes(t.cells) == Nodes(s.cells) + [op.n];
      } else {
        assert Nodes(t.cells) == [op.n] + Nodes(s.cells);
      }
    }
    forall j | 0 <= j < |t.cells|
      ensures t.cells[j].elem.Some? || Holders(s.cursors, t.cells[j].node) > 0
    {
      assert op.Prepend? && j > 0 ==> t.cells[j] == s.cells[j - 1];
    }
  }

  lemma BeginStep<N, E>(s: State<N, E>)
    requires Inv(s)
    ensures Inv(Next(s, Begin))
  {
    hide Tracked, Holders, Live;
    var c := Cursor(NodeAt(s.cells, 0), false, [], Live(s.cells));
    TrackBegin(s.cells);
    forall j | 0 <= j < |s.cells|
      ensures s.cells[j].elem.Some? || Holders(s.cursors + [c], s.cells[j].node) > 0
    {
      HoldersPush(s.cursors, c, s.cells[j].node);
    }
  }

  lemma EndStep<N, E>(s: State<N, E>)
    requires Inv(s) && Enabled(s, End)
    ensures Inv(Next(s, End))
  {
    hide Tracked, Live;
  }

  lemma InvStep<N, E>(s: State<N, E>, op: Op<N, E>)
    requires Inv(s) && Enabled(s, op)
    ensures Inv(Next(s, op))
  {
    hide Inv;
    match op {
      case Begin => BeginStep(s);
      case Visit(i) => VisitStep(s, i);
      case Advance(i) => AdvanceStep(s, i);
      case End => EndStep(s);
      case Release(i) => ReleaseStep(s, i);
      case Append(_, _) => AddStep(s, op);
      case Prepend(_, _) => AddStep(s, op);
    }
  }

  /** When a traversal has come to its end, the handlers that were registered
      throughout it were invoked exactly once each, in the order of the list. */
  lemma EndOfTraversal<N, E>(s: State<N, E>)
    requires Inv(s) && s.cursors != [] && Top(s).at.None?
    ensures var c := Top(s); var lasting := Lasting(c, s.cells);
            && Keep(c.done, lasting) == Keep(Nodes(s.cells), lasting)
            && Distinct(c.done)
            && forall n :: n in lasting ==> n in c.done
  {
    var c := Top(s);
    var lasting := Lasting(c, s.cells);
    var p: nat :| Tracked(c, s.cells, p);
    assert Nodes(s.cells)[..p] == Nodes(s.cells);
    forall n | n in lasting
      ensures n in c.done
    {
      var d :| d in s.cells && d.elem.Some? && d.node == n;
      var j :| 0 <= j < |s.cells| && s.cells[j] == d;
      assert Nodes(s.cells)[j] == n;
      KeepMember(Nodes(s.cells), lasting, n);
      KeepMember(c.done, lasting, n);
    }
  }

  /** No iterator stands on a node. */
  ghost predicate Nobody<N>(cursors: seq<Cursor<N>>) {
    forall c :: c in cursors ==> c.at.None?
  }

  lemma {:induction false} HolderExists<N>(cursors: seq<Cursor<N>>, n: N)
    requires Holders(cursors, n) > 0
    ensures !Nobody(cursors)
  {
    var last := cursors[|cursors| - 1];
    if last.at == Some(n) {
      assert last in cursors;
    } else {
      HolderExists(cursors[..|cursors| - 1], n);
    }
  }

  /** The ring is empty exactly when no handler is registered and no iterator stands on
      a node. */
  lemma EmptyExactly<N, E>(s: State<N, E>)
    requires Inv(s)
    ensures s.cells == [] <==> Live(s.cells) == {} && Nobody(s.cursors)
  {
    if s.cells == [] {
      forall c | c in s.cursors
        ensures c.at.None?
      {
        var j :| 0 <= j < |s.cursors| && s.cursors[j] == c;
        assert OnTrack(s.cursors[j], s.cells);
      }
    } else if Live(s.cells) == {} {
      LiveAt(s.cells, 0);
      HolderExists(s.cursors, s.cells[0].node);
    }
  }

  // ----- Handlers that are not invoked -------------------------------------------------

  /** The node whose handler a step invokes. */
  ghost function Invokes<N, E>(s: State<N, E>, op: Op<N, E>): Option<N>
    requires Enabled(s, op)
  {
    if op.Visit? && s.cells[op.i].elem.Some? then Some(s.cells[op.i].node) else None
  }

  ghost predicate Adds<N, E>(op: Op<N, E>, n: N) {
    (op.Append? || op.Prepend?) && op.n == n
  }

  /** `ops` lead through the states `ss`. */
  ghost predicate IsRun<N, E>(ss: seq<State<N, E>>, ops: seq<Op<N, E>>) {
    && |ss| == |ops| + 1 && Inv(ss[0])
    && forall i :: 0 <= i < |ops| ==> Enabled(ss[i], ops[i]) && ss[i + 1] == Next(ss[i], ops[i])
  }

  lemma {:induction false} RunInv<N, E>(ss: seq<State<N, E>>, ops: seq<Op<N, E>>, i: nat)
    requires IsRun(ss, ops) && i <= |ops|
    ensures Inv(ss[i])
  {
    if i > 0 {
      RunInv(ss, ops, i - 1);
      InvStep(ss[i - 1], ops[i - 1]);
    }
  }

  lemma LiveSweep<N, E>(cells: seq<Cell<N, E>>, cursors: seq<Cursor<N>>, i: nat)
    requires i < |cells|
    ensures Live(Sweep(cells, cursors, i)) == Live(cells)
  {
    if Sweep(cells, cursors, i) != cells {
      LiveWithout(cells, i);
    }
  }

  /** Nothing but an addition of the node makes it live. */
  lemma DeadStep<N, E>(s: State<N, E>, op: Op<N, E>, n: N)
    requires Inv(s) && Enabled(s, op) && n !in Live(s.cells) && !Adds(op, n)
    ensures n !in Live(Next(s, op).cells) && Invokes(s, op) != Some(n)
  {
    match op {
      case Visit(i) => LiveAt(s.cells, i);
      case Advance(i) => LiveSweep(s.cells, Next(s, op).cursors, i);
      case Release(i) =>
        LiveEmptied(s.cells, i);
        LiveSweep(Emptied(s.cells, i), s.cursors, i);
      case Append(m, e) => LiveAdded(s.cells, m, e);
      case Prepend(m, e) => LiveAdded(s.cells, m, e);
      case _ =>
    }
  }

  /** After a handler was removed, its registration is never invoked again, by no
      traversal, however deep the nesting. */
  lemma {:induction false} RemovedNeverInvoked<N, E>(ss: seq<State<N, E>>, ops: seq<Op<N, E>>, i: nat, j: nat, n: N)
    requires IsRun(ss, ops) && i <= j < |ops| && n !in Live(ss[i].cells)
    requires forall k :: i <= k < |ops| ==> !Adds(ops[k], n)
    ensures n !in Live(ss[j].cells) && Invokes(ss[j], ops[j]) != Some(n)
  {
    if i < j {
      RemovedNeverInvoked(ss, ops, i, j - 1, n);
      RunInv(ss, ops, j - 1);
      DeadStep(ss[j - 1], ops[j - 1], n);
    }
    RunInv(ss, ops, j);
    DeadStep(ss[j], ops[j], n);
  }

  /** The node is behind the cursor `d`, or has left the ring. */
  ghost predicate Passed<N, E>(s: State<N, E>, d: nat, n: N)
    requires d < |s.cursors|
  {
    n in Nodes(s.cells) ==>
      exists p: nat, i: nat :: i < p && Behind(s.cursors[d], s.cells, p) && s.cells[i].node == n
  }

  lemma BehindWithout<N, E>(c: Cursor<N>, cells: seq<Cell<N, E>>, p: nat, k: nat, i: nat)
    requires Distinct(Nodes(cells)) && Behind(c, cells, p) && k < p && i < |cells| && k != i
    requires c.at != Some(cells[i].node)
    ensures var q, l := if i < p then p - 1 else p, if i < k then k - 1 else k;
            l < q && Behind(c, Without(cells, i), q) && Without(cells, i)[l].node == cells[k].node
  {
  }

  lemma PassedSweep<N, E>(s: State<N, E>, d: nat, n: N, i: nat)
    requires Distinct(Nodes(s.cells)) && d < |s.cursors| && i < |s.cells| && Passed(s, d, n)
    ensures Passed(s.(cells := Sweep(s.cells, s.cursors, i)), d, n)
  {
    hide Holders;
    var less := Sweep(s.cells, s.cursors, i);
    if less != s.cells && n in Nodes(less) {
      HoldersNone(s.cursors, s.cells[i].node);
      WithoutNodes(s.cells, i);
      var j :| 0 <= j < |less| && Nodes(less)[j] == n;
      assert Nodes(s.cells)[if j < i then j else j + 1] == n;
      var p: nat, k: nat :| k < p && Behind(s.cursors[d], s.cells, p) && s.cells[k].node == n;
      assert Nodes(s.cells)[k] == n;
      BehindWithout(s.cursors[d], s.cells, p, k, i);
    }
  }

  lemma PassedBy<N, E>(s: State<N, E>, d: nat, n: N, p: nat, k: nat)
    requires d < |s.cursors| && k < p && Behind(s.cursors[d], s.cells, p) && s.cells[k].node == n
    ensures Passed(s, d, n)
  {
  }

  lemma PassedWhere<N, E>(s: State<N, E>, d: nat, n: N) returns (p: nat, k: nat)
    requires d < |s.cursors| && Passed(s, d, n) && n in Nodes(s.cells)
    ensures k < p && Behind(s.cursors[d], s.cells, p) && Nodes(s.cells)[k] == n
  {
    p, k :| k < p && Behind(s.cursors[d], s.cells, p) && s.cells[k].node == n;
  }

  lemma PassedAdd<N, E>(s: State<N, E>, op: Op<N, E>, d: nat, n: N)
    requires Enabled(s, op) && (op.Append? || op.Prepend?) && d < |s.cursors| && !Adds(op, n) && Passed(s, d, n)
    ensures Passed(Next(s, op), d, n)
  {
    var t, c := Next(s, op), s.cursors[d];
    if n in Nodes(t.cells) {
      hide Passed;
      var j :| 0 <= j < |t.cells| && Nodes(t.cells)[j] == n;
      assert Nodes(s.cells)[if op.Append? then j else j - 1] == n;
      var p, k := PassedWhere(s, d, n);
      if op.Append? {
        PassedBy(t, d, n, if c.at.None? then p + 1 else p, k);
      } else {
        PassedBy(t, d, n, p + 1, k + 1);
      }
    }
  }

  lemma PassedMove<N, E>(s: State<N, E>, op: Op<N, E>, d: nat, n: N)
    requires Distinct(Nodes(s.cells)) && Enabled(s, op) && (op.Visit? || op.Advance?)
    requires d < |s.cursors| && Passed(s, d, n)
    ensures Passed(s.(cursors := Next(s, op).cursors), d, n)
    ensures op.Visit? && d == |s.cursors| - 1 ==> Invokes(s, op) != Some(n)
  {
    var t := s.(cursors := Next(s, op).cursors);
    if n in Nodes(s.cells) {
      var p, k := PassedWhere(s, d, n);
      hide Passed, Holders, Live, Sweep;
      if d != |s.cursors| - 1 {
        PassedBy(t, d, n, p, k);
      } else if op.Visit? {
        assert Nodes(s.cells)[p] == Nodes(s.cells)[op.i];
        PassedBy(t, d, n, p + 1, k);
      } else {
        assert Nodes(s.cells)[p - 1] == Nodes(s.cells)[op.i];
        PassedBy(t, d, n, p, k);
      }
    }
  }

  lemma PassedStep<N, E>(s: State<N, E>, op: Op<N, E>, d: nat, n: N)
    requires Inv(s) && Enabled(s, op) && !Adds(op, n)
    requires d < |s.cursors| && d < |Next(s, op).cursors| && Passed(s, d, n)
    ensures Passed(Next(s, op), d, n)
    ensures d == |s.cursors| - 1 ==> Invokes(s, op) != Some(n)
  {
    hide Behind, Holders, Tracked;
    match op {
      case Visit(_) => PassedMove(s, op, d, n);
      case Advance(i) =>
        PassedMove(s, op, d, n);
        PassedSweep(s.(cursors := Next(s, op).cursors), d, n, i);
      case Release(i) =>
        PassedEmptied(s, d, n, i);
        PassedSweep(s.(cells := Emptied(s.cells, i)), d, n, i);
      case Append(_, _) => PassedAdd(s, op, d, n);
      case Prepend(_, _) => PassedAdd(s, op, d, n);
      case Begin => PassedSame(s, Next(s, op), d, n);
      case End => PassedSame(s, Next(s, op), d, n);
    }
  }

  lemma PassedSame<N, E>(s: State<N, E>, t: State<N, E>, d: nat, n: N)
    requires d < |s.cursors| && d < |t.cursors| && t.cursors[d] == s.cursors[d] && t.cells == s.cells
    requires Passed(s, d, n)
    ensures Passed(t, d, n)
  {
    if n in Nodes(s.cells) {
      var p: nat, k: nat :| k < p && Behind(s.cursors[d], s.cells, p) && s.cells[k].node == n;
      assert k < p && Behind(t.cursors[d], t.cells, p) && t.cells[k].node == n;
    }
  }

  lemma PassedEmptied<N, E>(s: State<N, E>, d: nat, n: N, i: nat)
    requires i < |s.cells| && d < |s.cursors| && Passed(s, d, n)
    ensures Passed(s.(cells := Emptied(s.cells, i)), d, n)
  {
    if n in Nodes(s.cells) {
      var p: nat, k: nat :| k < p && Behind(s.cursors[d], s.cells, p) && s.cells[k].node == n;
      assert Behind(s.cursors[d], Emptied(s.cells, i), p);
    }
  }

  /** A handler added at the front is behind every running traversal. */
  lemma FrontIsPassed<N, E>(s: State<N, E>, n: N, e: E, d: nat)
    requires Inv(s) && Enabled(s, Prepend(n, e)) && d < |s.cursors|
    ensures Passed(Next(s, Prepend(n, e)), d, n)
  {
    var t := Next(s, Op<N, E>.Prepend(n, e));
    var p: nat :| Tracked(s.cursors[d], s.cells, p);
    assert 0 < p + 1 && Behind(s.cursors[d], t.cells, p + 1) && t.cells[0].node == n;
  }

  /** What a running traversal has behind it, it never invokes; so a handler that was
      added at the front is not invoked by the traversals that were running. */
  lemma {:induction false} PassedNeverInvoked<N, E>(ss: seq<State<N, E>>, ops: seq<Op<N, E>>, i: nat, j: nat, d: nat, n: N)
    requires IsRun(ss, ops) && i <= j < |ops|
    requires forall k :: i <= k < |ss| ==> d < |ss[k].cursors|
    requires forall k :: i <= k < |ops| ==> !Adds(ops[k], n)
    requires Passed(ss[i], d, n)
    ensures Passed(ss[j], d, n) && (d == |ss[j].cursors| - 1 ==> Invokes(ss[j], ops[j]) != Some(n))
  {
    hide Passed, Inv, Enabled, Next, Invokes, Adds;
    if i < j {
      PassedNeverInvoked(ss, ops, i, j - 1, d, n);
      RunInv(ss, ops, j - 1);
      PassedStep(ss[j - 1], ops[j - 1], d, n);
    }
    RunInv(ss, ops, j);
    assert ss[j + 1] == Next(ss[j], ops[j]);
    PassedStep(ss[j], ops[j], d, n);
  }
}
