/** The intrusive circular list of callbacks. Iterators own a reference to the node
    they stand on, and a node leaves the ring with its last reference. */
module CallbackList {
  import opened Prelude
  import opened Traversal

  /** The control block: a node of the ring. `refs` counts its owners, which are the
      element that is registered with it and the iterators that stand on it. A node is
      made for one element and never serves another. */
  class Node {
    var element: Element?
    var next: Node
    var prev: Node
    var refs: nat
    ghost const made: Element?

    constructor (ghost made: Element?)
      ensures next == this && prev == this && element == null && refs == 0 && this.made == made
    {
      next, prev, element, refs := this, this, null, 0;
      this.made := made;
    }
  }

  class Element {
    var cb: Node?
    const tag: nat
    const skipTypeHandler: bool

    constructor (tag: nat, skipTypeHandler: bool)
      ensures cb == null && this.tag == tag && this.skipTypeHandler == skipTypeHandler
    {
      cb, this.tag, this.skipTypeHandler := null, tag, skipTypeHandler;
    }
  }

  /** The nodes in the order of the `next` pointers, from the base back to the base. */
  ghost function Ring(base: Node, cells: seq<Cell<Node, Element>>): seq<Node> {
    [base] + Nodes(cells) + [base]
  }

  ghost predicate Linked(ring: seq<Node>)
    reads (set n | n in ring)`next, (set n | n in ring)`prev
  {
    forall k :: 0 <= k < |ring| - 1 ==> ring[k].next == ring[k + 1] && ring[k + 1].prev == ring[k]
  }

  /** The base is at both ends, and no other node is there twice. */
  ghost predicate Closed(ring: seq<Node>) {
    && |ring| >= 2 && ring[0] == ring[|ring| - 1]
    && forall i, j :: 0 <= i < j < |ring| - 1 ==> ring[i] != ring[j]
  }

  /** A node leaves its ring and becomes a ring of its own. */
  method Unlink(n: Node, ghost ring: seq<Node>, ghost i: nat)
    requires Closed(ring) && Linked(ring) && 0 < i < |ring| - 1 && ring[i] == n
    modifies (set m | m in ring)`next, (set m | m in ring)`prev
    ensures Closed(Without(ring, i)) && Linked(Without(ring, i))
    ensures n.next == n && n.prev == n
  {
    ghost var less := Without(ring, i);
    assert n.prev == ring[i - 1] && n.next == ring[i + 1];
    assert n.prev != n && n.next != n;
    assert forall k :: 0 <= k < |less| ==> less[k] == ring[if k < i then k else k + 1];
    n.prev.next := n.next;
    n.next.prev := n.prev;
    n.next := n;
    n.prev := n;
  }

  ghost function ElementOf(n: Node): Option<Element>
    reads n`element
  {
    if n.element == null then None else Some(n.element)
  }

  /** The ring with `n` at position `i`. */
  ghost function Inserted(ring: seq<Node>, i: nat, n: Node): (r: seq<Node>)
    requires i <= |ring|
    ensures |r| == |ring| + 1 && r[i] == n
    ensures forall k :: 0 <= k < i ==> r[k] == ring[k]
    ensures forall k :: i < k < |r| ==> r[k] == ring[k - 1]
  {
    ring[..i] + [n] + ring[i..]
  }

  /** A node of its own is put behind `at`. */
  method AddAfter(at: Node, n: Node, ghost ring: seq<Node>, ghost i: nat)
    requires Closed(ring) && Linked(ring) && i < |ring| - 1 && ring[i] == at && n !in ring
    modifies n`next, n`prev, (set m | m in ring)`next, (set m | m in ring)`prev
    ensures Closed(Inserted(ring, i + 1, n)) && Linked(Inserted(ring, i + 1, n))
  {
    hide Inserted;
    assert at.next == ring[i + 1];
    n.prev := at;
    n.next := at.next;
    at.next.prev := n;
    at.next := n;
  }

  /** A node of its own is put in front of `at`. */
  method AddBefore(at: Node, n: Node, ghost ring: seq<Node>, ghost i: nat)
    requires Closed(ring) && Linked(ring) && 0 < i < |ring| && ring[i] == at && n !in ring
    modifies n`next, n`prev, (set m | m in ring)`next, (set m | m in ring)`prev
    ensures Closed(Inserted(ring, i, n)) && Linked(Inserted(ring, i, n))
  {
    hide Inserted;
    assert at.prev == ring[i - 1];
    n.next := at;
    n.prev := at.prev;
    at.prev.next := n;
    at.prev := n;
  }

  ghost predicate EntriesIn(cells: seq<Cell<Node, Element>>, owned: set<Element>)
    reads (set n | n in Nodes(cells))`element, owned`cb
  {
    && (forall i :: 0 <= i < |cells| ==> ElementOf(cells[i].node) == cells[i].elem)
    && (forall i :: 0 <= i < |cells| && cells[i].elem.Some? ==>
          cells[i].elem.value in owned && cells[i].elem.value.cb == cells[i].node
          && cells[i].node.made == cells[i].elem.value)
    && (forall e :: e in owned && e.cb != null ==>
          exists i :: 0 <= i < |cells| && cells[i].node == e.cb && cells[i].elem == Some(e))
  }

  ghost predicate CountedIn(cells: seq<Cell<Node, Element>>, cursors: seq<Cursor<Node>>, extra: nat)
    reads (set n | n in Nodes(cells))`refs
  {
    forall i :: 0 <= i < |cells| ==>
      cells[i].node.refs
      == Holders(cursors, cells[i].node) + (if cells[i].elem.Some? then 1 else 0) + if i == extra then 1 else 0
  }

  class List {
    const base: Node
    ghost var state: State<Node, Element>
    /** The elements that were made for this list. */
    ghost var owned: set<Element>

    ghost function RingNodes(): set<Node>
      reads this
    {
      set n | n in Nodes(state.cells)
    }

    /** The pointers form the ring. */
    ghost predicate Shape()
      reads this, base`next, base`prev, RingNodes()`next, RingNodes()`prev, RingNodes()`element, owned`cb
    {
      Closed(Ring(base, state.cells)) && Linked(Ring(base, state.cells)) && Entries()
    }

    /** The nodes and the elements know each other. */
    ghost predicate Entries()
      reads this, RingNodes()`element, owned`cb
    {
      EntriesIn(state.cells, owned)
    }

    /** What the operations may touch. */
    ghost function Footprint(): set<object>
      reads this
    {
      {this, base} + RingNodes() + owned
    }

    /** Every reference is counted; the node at `extra` has one more. */
    ghost predicate Counted(extra: nat)
      reads this, RingNodes()`refs
    {
      CountedIn(state.cells, state.cursors, extra)
    }

    ghost predicate Valid()
      reads this, base, RingNodes(), owned
    {
      Inv(state) && Shape() && Counted(|state.cells|)
    }

    constructor ()
      ensures Valid() && state == State([], []) && owned == {} && fresh(base)
    {
      base := new Node(null);
      state, owned := State([], []), {};
      new;
      assert Ring(base, []) == [base, base];
    }

    lemma RingAt(i: nat)
      requires i < |state.cells|
      ensures |Ring(base, state.cells)| == |state.cells| + 2 && Ring(base, state.cells)[i + 1] == state.cells[i].node
      ensures Without(Ring(base, state.cells), i + 1) == Ring(base, Without(state.cells, i))
    {
    }

    lemma RingMembers()
      ensures forall m :: m in Ring(base, state.cells) <==> m == base || m in RingNodes()
    {
      var ring := Ring(base, state.cells);
      assert ring[0] == base;
      forall m | m in RingNodes()
        ensures m in ring
      {
        var i :| 0 <= i < |state.cells| && Nodes(state.cells)[i] == m;
        assert ring[i + 1] == m;
      }
    }

    method Decrement(n: Node, ghost i: nat)
      requires Counted(i) && Distinct(Nodes(state.cells)) && i < |state.cells| && state.cells[i].node == n
      modifies n`refs
      ensures Counted(|state.cells|)
      ensures n.refs == 0 <==> state.cells[i].elem.None? && Holders(state.cursors, n) == 0
    {
      hide Holders;
      forall j | 0 <= j < |state.cells| && j != i
        ensures state.cells[j].node != n
      {
        assert Nodes(state.cells)[j] != Nodes(state.cells)[i];
      }
      n.refs := n.refs - 1;
    }

    /** One reference to the node is given up; with the last one the node leaves. */
    method Drop(n: Node, ghost i: nat)
      requires Shape() && Counted(i) && i < |state.cells| && state.cells[i].node == n
      requires Distinct(Nodes(state.cells)) && Kept(state, i) && AllOnTrack(state)
      modifies this`state, base`next, base`prev, RingNodes()`next, RingNodes()`prev, n`refs
      ensures Valid() && RingNodes() <= old(RingNodes())
      ensures state == old(state).(cells := Sweep(old(state).cells, old(state).cursors, i))
    {
      hide Inv, Kept, AllOnTrack, Holders, Ring, Closed, Distinct, List.Counted, List.Entries;
      SweepInv(state, i);
      RingAt(i);
      RingMembers();
      ghost var ring := Ring(base, state.cells);
      assert Linked(ring);
      Decrement(n, i);
      assert Linked(ring);
      if n.refs == 0 {
        Unlink(n, ring, i + 1);
        Forget(i);
      }
    }

    /** The ghost side of unlinking the node at `i`. */
    ghost method Forget(i: nat)
      requires i < |state.cells| && state.cells[i].elem.None? && Distinct(Nodes(state.cells))
      requires Closed(Ring(base, Without(state.cells, i))) && Linked(Ring(base, Without(state.cells, i)))
      requires Entries() && Counted(|state.cells|)
      modifies this`state
      ensures state == old(state).(cells := Without(old(state).cells, i))
      ensures Shape() && Counted(|state.cells|) && RingNodes() <= old(RingNodes())
    {
      hide Holders, Ring, Closed, Linked;
      ghost var cells := state.cells;
      ghost var less := Without(cells, i);
      assert forall j :: 0 <= j < |less| ==> less[j] == cells[if j < i then j else j + 1];
      forall e | e in owned && e.cb != null
        ensures exists j :: 0 <= j < |less| && less[j].node == e.cb && less[j].elem == Some(e)
      {
        var k :| 0 <= k < |cells| && cells[k].node == e.cb && cells[k].elem == Some(e);
        assert less[if k < i then k else k - 1] == cells[k];
      }
      state := state.(cells := less);
      forall m | m in RingNodes()
        ensures m in old(RingNodes())
      {
        var j :| 0 <= j < |less| && Nodes(less)[j] == m;
        assert Nodes(cells)[if j < i then j else j + 1] == m;
      }
    }

    /** A new element that may be added to this list. */
    method NewElement(tag: nat, skipTypeHandler: bool) returns (e: Element)
      requires Valid()
      modifies this`owned
      ensures Valid() && state == old(state) && fresh(e) && owned == old(owned) + {e}
      ensures e.cb == null && e.tag == tag && e.skipTypeHandler == skipTypeHandler
    {
      hide Inv, Closed, Linked;
      e := new Element(tag, skipTypeHandler);
      owned := owned + {e};
    }

    /** Where the element is registered. */
    ghost function Place(e: Element): (i: nat)
      reads this, base, RingNodes(), owned
      requires Valid() && e in owned && e.cb != null
      ensures i < |state.cells| && state.cells[i].node == e.cb && state.cells[i].elem == Some(e)
    {
      var i :| 0 <= i < |state.cells| && state.cells[i].node == e.cb && state.cells[i].elem == Some(e);
      i
    }

    /** An element is listed at most once, where its node is. */
    lemma ListedOnce(e: Element)
      requires Valid() && e in owned
      ensures Taken(state, e) == if e.cb == null then state else Next(state, Op<Node, Element>.Release(Place(e)))
      ensures Listing(Taken(state, e).cells) == But(Listing(state.cells), e)
    {
      hide Linked, CountedIn, Closed;
      if e.cb != null {
        var i := Place(e);
        forall j | 0 <= j < |state.cells| && j != i
          ensures state.cells[j].elem != Some(e)
        {
          assert Nodes(state.cells)[j] != Nodes(state.cells)[i];
        }
        assert IndexOf(state.cells, e) == i;
        ReleaseListing(state, i, e);
      } else {
        ButNone(state.cells, e);
      }
    }

    /** The element gives up its node, and the node its element. A node under an
        iterator stays in the ring. */
    method RemoveFromList(e: Element)
      requires Valid() && e in owned
      modifies this`state, base, RingNodes(), e
      ensures Valid() && RingNodes() <= old(RingNodes()) && e.cb == null
      ensures old(e.cb) == null ==> state == old(state)
      ensures old(e.cb) != null ==> state == old(Next(state, Op<Node, Element>.Release(Place(e))))
      ensures state == old(Taken(state, e)) && Listing(state.cells) == old(But(Listing(state.cells), e))
    {
      hide Inv, Kept, AllOnTrack, Holders, Ring, Closed, Distinct, Live, Next, Sweep, Taken, Listing, But;
      ListedOnce(e);
      var node := e.cb;
      if node == null {
        return;
      }
      ghost var i := Place(e);
      ghost var ring := Ring(base, state.cells);
      ReleaseKeeps(state, i);
      Apart(state.cells, i);
      e.cb := null;
      node.element := null;
      assert Linked(ring);
      Take(e, i);
      Drop(node, i);
    }

    /** The ghost side of taking the element out of its node. */
    ghost method Take(e: Element, i: nat)
      requires Inv(state) && Closed(Ring(base, state.cells)) && Linked(Ring(base, state.cells))
      requires i < |state.cells| && state.cells[i].elem == Some(e) && state.cells[i].node.element == null && e.cb == null
      requires forall j :: 0 <= j < |state.cells| && j != i ==> ElementOf(state.cells[j].node) == state.cells[j].elem
      requires forall j :: 0 <= j < |state.cells| && j != i && state.cells[j].elem.Some? ==>
                 state.cells[j].elem.value in owned && state.cells[j].elem.value.cb == state.cells[j].node
                 && state.cells[j].node.made == state.cells[j].elem.value
      requires forall o :: o in owned && o != e && o.cb != null ==>
                 exists j :: 0 <= j < |state.cells| && state.cells[j].node == o.cb && state.cells[j].elem == Some(o)
      requires Counted(|state.cells|)
      modifies this`state
      ensures state == old(state).(cells := Emptied(old(state).cells, i))
      ensures Shape() && Counted(i) && RingNodes() == old(RingNodes())
    {
      hide Inv, Holders;
      ghost var cells := state.cells;
      ghost var less := Emptied(cells, i);
      forall o | o in owned && o.cb != null
        ensures exists j :: 0 <= j < |less| && less[j].node == o.cb && less[j].elem == Some(o)
      {
        var j :| 0 <= j < |cells| && cells[j].node == o.cb && cells[j].elem == Some(o);
        assert less[j] == cells[j];
      }
      state := state.(cells := less);
    }

    /** Links a new node for an element that has none. */
    method Insert(e: Element, front: bool)
      requires Valid() && e in owned && e.cb == null
      modifies this`state, base, RingNodes(), e
      ensures Valid() && e.cb != null && fresh(e.cb) && RingNodes() == old(RingNodes()) + {e.cb} && e.cb.made == e
      ensures Enabled(old(state), Pushed(e.cb, e, front)) && state == Next(old(state), Pushed(e.cb, e, front))
    {
      hide Inv, Holders, Ring, Closed, Live, CountedIn, Next, Enabled, Pushed, Inserted, Distinct;
      ghost var ring := Ring(base, state.cells);
      var n := new Node(e);
      assert New(state, n);
      HoldersNew(state.cursors, n);
      PushedIs(state, n, e, front);
      ghost var cells := if front then [Cell(n, Some(e))] + state.cells else state.cells + [Cell(n, Some(e))];
      AddStep(state, Pushed(n, e, front));
      RingMembers();
      RingEnds(front, n, e);
      n.element := e;
      n.refs := 1;
      e.cb := n;
      assert Linked(ring);
      if front {
        AddAfter(base, n, ring, 0);
      } else {
        AddBefore(base, n, ring, |ring| - 1);
      }
      Enter(n, e, cells, front);
    }

    lemma RingEnds(front: bool, n: Node, e: Element)
      ensures var ring := Ring(base, state.cells);
              && |ring| >= 2 && ring[0] == base && ring[|ring| - 1] == base
              && Inserted(ring, 1, n) == Ring(base, [Cell(n, Some(e))] + state.cells)
              && Inserted(ring, |ring| - 1, n) == Ring(base, state.cells + [Cell(n, Some(e))])
    {
    }

    /** The entries once the new node is listed. */
    lemma EntriesAdded(n: Node, e: Element, cells: seq<Cell<Node, Element>>, front: bool)
      requires cells == if front then [Cell(n, Some(e))] + state.cells else state.cells + [Cell(n, Some(e))]
      requires n.element == e && e.cb == n && e in owned && n.made == e
      requires forall j :: 0 <= j < |state.cells| ==>
                 && ElementOf(state.cells[j].node) == state.cells[j].elem
                 && (state.cells[j].elem.Some? ==>
                       state.cells[j].elem.value in owned && state.cells[j].elem.value.cb == state.cells[j].node
                       && state.cells[j].node.made == state.cells[j].elem.value)
      requires forall o :: o in owned && o != e && o.cb != null ==>
                 exists j :: 0 <= j < |state.cells| && state.cells[j].node == o.cb && state.cells[j].elem == Some(o)
      ensures EntriesIn(cells, owned)
    {
      var own := if front then 0 else |state.cells|;
      assert cells[own] == Cell(n, Some(e));
      forall o | o in owned && o.cb != null
        ensures exists j :: 0 <= j < |cells| && cells[j].node == o.cb && cells[j].elem == Some(o)
      {
        if o == e {
          assert cells[own].node == o.cb;
        } else {
          var j :| 0 <= j < |state.cells| && state.cells[j].node == o.cb && state.cells[j].elem == Some(o);
          assert cells[if front then j + 1 else j] == state.cells[j];
        }
      }
    }

    lemma CountedAdded(n: Node, e: Element, cells: seq<Cell<Node, Element>>, front: bool)
      requires cells == if front then [Cell(n, Some(e))] + state.cells else state.cells + [Cell(n, Some(e))]
      requires n.refs == 1 && Holders(state.cursors, n) == 0 && Counted(|state.cells|)
      ensures CountedIn(cells, state.cursors, |cells|)
    {
      hide Holders;
    }

    /** The ghost side of linking a node. */
    ghost method Enter(n: Node, e: Element, cells: seq<Cell<Node, Element>>, front: bool)
      requires cells == if front then [Cell(n, Some(e))] + state.cells else state.cells + [Cell(n, Some(e))]
      requires Inv(state.(cells := cells)) && Closed(Ring(base, cells)) && Linked(Ring(base, cells))
      requires n.element == e && n.refs == 1 && e.cb == n && e in owned && n.made == e
      requires Holders(state.cursors, n) == 0 && Counted(|state.cells|)
      requires forall j :: 0 <= j < |state.cells| ==>
                 && ElementOf(state.cells[j].node) == state.cells[j].elem
                 && (state.cells[j].elem.Some? ==>
                       state.cells[j].elem.value in owned && state.cells[j].elem.value.cb == state.cells[j].node
                       && state.cells[j].node.made == state.cells[j].elem.value)
      requires forall o :: o in owned && o != e && o.cb != null ==>
                 exists j :: 0 <= j < |state.cells| && state.cells[j].node == o.cb && state.cells[j].elem == Some(o)
      modifies this`state
      ensures state == old(state).(cells := cells)
      ensures Valid() && RingNodes() == old(RingNodes()) + {n}
    {
      hide Inv, Ring, Closed, Linked, Holders, CountedIn, EntriesIn;
      EntriesAdded(n, e, cells, front);
      CountedAdded(n, e, cells, front);
      NodesAdded(state.cells, n, e);
      state := state.(cells := cells);
    }

    /** Adds the element at the end; an element that is listed moves there. */
    method PushBack(e: Element)
      requires Valid() && e in owned
      modifies this`state, base, RingNodes(), e
      ensures Valid() && e.cb != null && fresh(e.cb) && fresh(RingNodes() - old(RingNodes()))
      ensures var s := if old(e.cb) == null then old(state) else old(Next(state, Op<Node, Element>.Release(Place(e))));
              Enabled(s, Op<Node, Element>.Append(e.cb, e)) && state == Next(s, Op<Node, Element>.Append(e.cb, e))
      ensures AddRun(old(Taken(state, e)), e, e.cb, false) == Some(state) && Listing(state.cells) == old(But(Listing(state.cells), e)) + [e]
    {
      hide Inv, Next, Enabled, List.Shape, List.Counted, Taken, Listing, But, AddRun;
      RemoveFromList(e);
      ghost var s := state;
      Insert(e, false);
      PushedLists(s, e.cb, e, false);
    }

    /** Adds the element at the front; an element that is listed moves there. */
    method PushFront(e: Element)
      requires Valid() && e in owned
      modifies this`state, base, RingNodes(), e
      ensures Valid() && e.cb != null && fresh(e.cb) && fresh(RingNodes() - old(RingNodes()))
      ensures var s := if old(e.cb) == null then old(state) else old(Next(state, Op<Node, Element>.Release(Place(e))));
              Enabled(s, Op<Node, Element>.Prepend(e.cb, e)) && state == Next(s, Op<Node, Element>.Prepend(e.cb, e))
      ensures AddRun(old(Taken(state, e)), e, e.cb, true) == Some(state) && Listing(state.cells) == [e] + old(But(Listing(state.cells), e))
    {
      hide Inv, Next, Enabled, List.Shape, List.Counted, Taken, Listing, But, AddRun;
      RemoveFromList(e);
      ghost var s := state;
      Insert(e, true);
      PushedLists(s, e.cb, e, true);
    }

    /** The nodes that the iterators stand on are in the ring. */
    ghost predicate AtTop(cur: Node?, i: nat)
      reads this
    {
      && state.cursors != []
      && if cur == null then Top(state).at.None?
         else i < |state.cells| && state.cells[i].node == cur && Top(state).at.Some? && Top(state).at.value == cur
    }

    lemma NextInRing(i: nat)
      requires Shape() && i < |state.cells|
      ensures state.cells[i].node.next == if i + 1 < |state.cells| then state.cells[i + 1].node else base
      ensures base.next == state.cells[0].node
      ensures i + 1 < |state.cells| ==> state.cells[i + 1].node != base
      ensures state.cells[0].node != base
    {
      var ring := Ring(base, state.cells);
      assert ring[0] == base && ring[1] == state.cells[0].node && ring[i + 1] == state.cells[i].node;
      assert ring[i + 2] == if i + 1 < |state.cells| then state.cells[i + 1].node else base;
    }

    lemma EmptyRing()
      requires Shape() && state.cells == []
      ensures base.next == base
    {
      assert Ring(base, state.cells) == [base, base];
    }

    /** Starts a traversal: takes a reference to the first node. */
    method Front() returns (cur: Node?)
      requires Valid()
      modifies this`state, RingNodes()`refs
      ensures Valid() && state == old(Next(state, Op<Node, Element>.Begin)) && AtTop(cur, 0)
      ensures RingNodes() == old(RingNodes())
    {
      hide Inv, Live, Closed, Linked, EntriesIn, Ring, Holders;
      BeginStep(state);
      ghost var before := state;
      ghost var c := Cursor(NodeAt(state.cells, 0), false, [], Live(state.cells));
      if |state.cells| > 0 {
        NextInRing(0);
        FirstApart(state);
      } else {
        EmptyRing();
      }
      cur := if base.next == base then null else base.next;
      if cur != null {
        cur.refs := cur.refs + 1;
      }
      forall i | 0 <= i < |state.cells|
        ensures state.cells[i].node.refs
                == Holders(state.cursors + [c], state.cells[i].node) + if state.cells[i].elem.Some? then 1 else 0
      {
        HoldersPush(state.cursors, c, state.cells[i].node);
      }
      state := state.(cursors := state.cursors + [c]);
    }

    /** The element of the node under the iterator, if it still has one. */
    method GetElement(cur: Node, ghost i: nat) returns (e: Element?)
      requires Valid() && AtTop(cur, i) && !Top(state).passed
      modifies this`state
      ensures Enabled(old(state), Op<Node, Element>.Visit(i)) && state == old(Next(state, Op<Node, Element>.Visit(i)))
      ensures Valid() && AtTop(cur, i) && RingNodes() == old(RingNodes())
      ensures (if e == null then None else Some(e)) == state.cells[i].elem
    {
      hide Inv, Live, Closed, Linked, Ring, Holders;
      VisitStep(state, i);
      e := cur.element;
      ghost var c := Visited(Top(state), state.cells[i]);
      forall j | 0 <= j < |state.cells|
        ensures Holders(WithTop(state, c), state.cells[j].node) == Holders(state.cursors, state.cells[j].node)
      {
        HoldersTop(state.cursors, c, state.cells[j].node);
      }
      state := state.(cursors := WithTop(state, c));
    }

    /** Moves on: takes a reference to the next node, then gives up the one to this. */
    method GetNext(cur: Node, ghost i: nat) returns (next: Node?)
      requires Valid() && AtTop(cur, i) && Top(state).passed
      modifies this`state, base, RingNodes()
      ensures Valid() && RingNodes() <= old(RingNodes())
      ensures Enabled(old(state), Op<Node, Element>.Advance(i)) && state == old(Next(state, Op<Node, Element>.Advance(i)))
      ensures state.cursors != [] && (next == null <==> Top(state).at.None?)
      ensures next != null ==> Top(state).at.Some? && Top(state).at.value == next
    {
      hide Inv, Live, Closed, EntriesIn, Ring, Holders, Sweep, Kept, AllOnTrack;
      AdvanceKeeps(state, i);
      NextInRing(i);
      Apart(state.cells, i);
      if i + 1 < |state.cells| {
        Apart(state.cells, i + 1);
      }
      ghost var c := Top(state).(at := NodeAt(state.cells, i + 1), passed := false);
      ghost var ring := Ring(base, state.cells);
      next := if cur.next == base then null else cur.next;
      if next != null {
        next.refs := next.refs + 1;
      }
      assert Linked(ring);
      forall j | 0 <= j < |state.cells|
        ensures state.cells[j].node.refs
                == Holders(WithTop(state, c), state.cells[j].node)
                   + (if state.cells[j].elem.Some? then 1 else 0) + if j == i then 1 else 0
      {
        HoldersTop(state.cursors, c, state.cells[j].node);
      }
      state := state.(cursors := WithTop(state, c));
      Drop(cur, i);
    }

    /** The traversal is over. */
    ghost method EndTraversal()
      requires Valid() && AtTop(null, 0)
      modifies this`state
      ensures Valid() && state == old(Next(state, Op<Node, Element>.End)) && RingNodes() == old(RingNodes())
    {
      hide Inv, Live, Closed, Linked, EntriesIn, Ring;
      EndStep(state);
      state := state.(cursors := state.cursors[..|state.cursors| - 1]);
    }
  }

  lemma FirstApart<N, E>(s: State<N, E>)
    requires Inv(s) && s.cells != []
    ensures forall j :: 0 < j < |s.cells| ==> s.cells[j].node != s.cells[0].node
  {
    Apart(s.cells, 0);
  }

  /** What `Drop` needs after the iterator moved on. */
  lemma AdvanceKeeps<N, E>(s: State<N, E>, i: nat)
    requires Inv(s) && Enabled(s, Op<N, E>.Advance(i))
    ensures var t := s.(cursors := WithTop(s, Top(s).(at := NodeAt(s.cells, i + 1), passed := false)));
            && Distinct(Nodes(s.cells)) && Kept(t, i) && AllOnTrack(t)
            && Next(s, Op<N, E>.Advance(i)) == t.(cells := Sweep(t.cells, t.cursors, i))
  {
    hide Tracked, Holders, Live;
    var c := Top(s).(at := NodeAt(s.cells, i + 1), passed := false);
    var p: nat :| Tracked(Top(s), s.cells, p);
    TrackAdvance(Top(s), s.cells, p, i);
    forall j | 0 <= j < |s.cells| && j != i
      ensures s.cells[j].elem.Some? || Holders(WithTop(s, c), s.cells[j].node) > 0
    {
      HoldersTop(s.cursors, c, s.cells[j].node);
      assert Nodes(s.cells)[j] != Nodes(s.cells)[i];
    }
  }

  ghost function Pushed(n: Node, e: Element, front: bool): Op<Node, Element> {
    if front then Prepend(n, e) else Append(n, e)
  }

  lemma PushedIs(s: State<Node, Element>, n: Node, e: Element, front: bool)
    requires New(s, n)
    ensures Enabled(s, Pushed(n, e, front)) && (Pushed(n, e, front).Append? || Pushed(n, e, front).Prepend?)
    ensures Next(s, Pushed(n, e, front))
            == s.(cells := if front then [Cell(n, Some(e))] + s.cells else s.cells + [Cell(n, Some(e))])
  {
  }

  lemma {:induction false} HoldersNew<N>(cursors: seq<Cursor<N>>, n: N)
    requires forall c :: c in cursors ==> c.at != Some(n)
    ensures Holders(cursors, n) == 0
  {
    if cursors != [] {
      HoldersNew(cursors[..|cursors| - 1], n);
    }
  }

  lemma NodesAdded<N, E>(cells: seq<Cell<N, E>>, n: N, e: E)
    ensures Nodes(cells + [Cell(n, Some(e))]) == Nodes(cells) + [n]
    ensures Nodes([Cell(n, Some(e))] + cells) == [n] + Nodes(cells)
  {
  }

  lemma Apart<N, E>(cells: seq<Cell<N, E>>, i: nat)
    requires Distinct(Nodes(cells)) && i < |cells|
    ensures forall j :: 0 <= j < |cells| && j != i ==> cells[j].node != cells[i].node
  {
    forall j | 0 <= j < |cells| && j != i
      ensures cells[j].node != cells[i].node
    {
      assert Nodes(cells)[j] != Nodes(cells)[i];
    }
  }

  /** What `Drop` needs after a release. */
  lemma ReleaseKeeps<N, E>(s: State<N, E>, i: nat)
    requires Inv(s) && i < |s.cells| && s.cells[i].elem.Some?
    ensures var t := s.(cells := Emptied(s.cells, i));
            && Distinct(Nodes(s.cells)) && Distinct(Nodes(t.cells)) && Kept(t, i) && AllOnTrack(t)
            && Enabled(s, Op<N, E>.Release(i)) && Next(s, Op<N, E>.Release(i)) == t.(cells := Sweep(t.cells, t.cursors, i))
  {
    hide Tracked, Holders, Live;
    var t := s.(cells := Emptied(s.cells, i));
    forall j | 0 <= j < |t.cursors|
      ensures OnTrack(t.cursors[j], t.cells)
    {
      var p: nat :| Tracked(s.cursors[j], s.cells, p);
      TrackEmptied(s.cursors[j], s.cells, p, i);
    }
  }

  // ----- The elements, in their order -------------------------------------------------

  ghost function Listing<N, E>(cells: seq<Cell<N, E>>): seq<E> {
    if cells == [] then []
    else Listing(cells[..|cells| - 1]) + if cells[|cells| - 1].elem.Some? then [cells[|cells| - 1].elem.value] else []
  }

  ghost function But<E>(xs: seq<E>, e: E): seq<E> {
    if xs == [] then [] else But(xs[..|xs| - 1], e) + if xs[|xs| - 1] != e then [xs[|xs| - 1]] else []
  }

  lemma {:induction false} ListingAppend<N, E>(a: seq<Cell<N, E>>, b: seq<Cell<N, E>>)
    ensures Listing(a + b) == Listing(a) + Listing(b)
  {
    if b == [] {
      assert a + b == a;
    } else {
      ListingAppend(a, b[..|b| - 1]);
      assert (a + b)[..|a + b| - 1] == a + b[..|b| - 1];
    }
  }

  lemma {:induction false} ListingHas<N, E>(cells: seq<Cell<N, E>>, e: E)
    ensures e in Listing(cells) <==> exists i: nat :: i < |cells| && cells[i].elem == Some(e)
  {
    if cells != [] {
      var init := cells[..|cells| - 1];
      ListingHas(init, e);
      if i: nat :| i < |init| && init[i].elem == Some(e) {
        assert cells[i].elem == Some(e);
      }
      if i: nat :| i < |cells| && cells[i].elem == Some(e) && i < |init| {
        assert init[i].elem == Some(e);
      }
    }
  }

  lemma ListingOne<N, E>(c: Cell<N, E>)
    ensures Listing([c]) == if c.elem.Some? then [c.elem.value] else []
  {
    assert [c][..0] == [];
  }

  lemma ListingWithout<N, E>(cells: seq<Cell<N, E>>, i: nat)
    requires i < |cells| && cells[i].elem.None?
    ensures Listing(Without(cells, i)) == Listing(cells)
  {
    hide Listing;
    var x, y := cells[..i], cells[i + 1..];
    assert cells == x + ([cells[i]] + y) && Without(cells, i) == x + y;
    ListingOne(cells[i]);
    ListingAppend(x, [cells[i]] + y);
    ListingAppend([cells[i]], y);
    ListingAppend(x, y);
  }

  lemma ButAppend<E>(xs: seq<E>, x: seq<E>, e: E)
    requires |x| <= 1
    ensures But(xs + x, e) == But(xs, e) + if x != [] && x[0] != e then x else []
  {
    if x == [] {
      assert xs + x == xs;
    } else {
      assert (xs + x)[..|xs|] == xs;
    }
  }

  lemma {:induction false} ButNone<N, E>(cells: seq<Cell<N, E>>, e: E)
    requires forall j :: 0 <= j < |cells| ==> cells[j].elem != Some(e)
    ensures But(Listing(cells), e) == Listing(cells)
  {
    if cells != [] {
      var init, last := cells[..|cells| - 1], cells[|cells| - 1];
      ButNone(init, e);
      ButAppend(Listing(init), if last.elem.Some? then [last.elem.value] else [], e);
    }
  }

  lemma {:induction false} ListingEmptied<N, E>(cells: seq<Cell<N, E>>, i: nat, e: E)
    requires i < |cells| && cells[i].elem == Some(e)
    requires forall j :: 0 <= j < |cells| && j != i ==> cells[j].elem != Some(e)
    ensures Listing(Emptied(cells, i)) == But(Listing(cells), e)
  {
    var init, last := cells[..|cells| - 1], cells[|cells| - 1];
    var x := if last.elem.Some? then [last.elem.value] else [];
    ButAppend(Listing(init), x, e);
    if i < |init| {
      ListingEmptied(init, i, e);
      assert Emptied(cells, i)[..|init|] == Emptied(init, i);
    } else {
      ButNone(init, e);
      assert Emptied(cells, i)[..|init|] == init;
    }
  }

  /** A release takes out the element and leaves the others in their order. */
  lemma ReleaseListing<N, E>(s: State<N, E>, i: nat, e: E)
    requires i < |s.cells| && s.cells[i].elem == Some(e)
    requires forall j :: 0 <= j < |s.cells| && j != i ==> s.cells[j].elem != Some(e)
    ensures Listing(Next(s, Op<N, E>.Release(i)).cells) == But(Listing(s.cells), e)
  {
    ListingEmptied(s.cells, i, e);
    if Next(s, Op<N, E>.Release(i)).cells != Emptied(s.cells, i) {
      ListingWithout(Emptied(s.cells, i), i);
    }
  }

  lemma PushedLists(s: State<Node, Element>, n: Node, e: Element, front: bool)
    requires New(s, n) && n.made == e
    ensures AddRun(s, e, n, front) == Some(Next(s, Pushed(n, e, front)))
    ensures Listing(Next(s, Pushed(n, e, front)).cells) == if front then [e] + Listing(s.cells) else Listing(s.cells) + [e]
  {
    ListingOne(Cell(n, Some(e)));
    if front {
      ListingAppend([Cell(n, Some(e))], s.cells);
    } else {
      ListingAppend(s.cells, [Cell(n, Some(e))]);
    }
  }

  // ----- Calling the handlers --------------------------------------------------------

  /** What the handlers do when they are invoked, one entry for each invocation: they
      remove elements, add them or move them, and start traversals of their own. */
  datatype Script = Quiet | React(acts: Acts, more: Script)
  datatype Acts = Rest | Then(act: Act, others: Acts)
  datatype Act = Remove(e: Element) | ToBack(b: Element) | ToFront(f: Element) | Call(script: Script)

  ghost predicate ScriptUses(s: Script, owned: set<Element>) {
    s.React? ==> ActsUse(s.acts, owned) && ScriptUses(s.more, owned)
  }

  ghost predicate ActsUse(a: Acts, owned: set<Element>) {
    a.Then? ==> ActUses(a.act, owned) && ActsUse(a.others, owned)
  }

  ghost predicate ActUses(a: Act, owned: set<Element>) {
    match a
    case Remove(e) => e in owned
    case ToBack(e) => e in owned
    case ToFront(e) => e in owned
    case Call(script) => ScriptUses(script, owned)
  }

  // ----- What a script does to the list, step by step --------------------------------

  /** What the run of a script leaves open: the nodes that additions made, and where the
      iterators stood. */
  datatype ActsTrace = RestT | ThenT(act: ActTrace, others: ActsTrace)
  datatype ActTrace = RemoveT | AddT(n: Node) | CallT(rounds: Rounds)
  datatype Rounds = Start | Round(before: Rounds, i: nat, acts: ActsTrace, k: nat)

  /** Where the element is listed, or the end of the list. */
  ghost function IndexOf(cells: seq<Cell<Node, Element>>, e: Element): (i: nat)
    ensures i <= |cells| && (i < |cells| ==> cells[i].elem == Some(e))
    ensures i == |cells| ==> forall j :: 0 <= j < |cells| ==> cells[j].elem != Some(e)
  {
    if cells == [] then 0
    else
      var init := cells[..|cells| - 1];
      var i := IndexOf(init, e);
      if i < |init| then i else if cells[|init|].elem == Some(e) then |init| else |cells|
  }

  /** The list without the element. */
  ghost function Taken(s: State<Node, Element>, e: Element): State<Node, Element> {
    var i := IndexOf(s.cells, e);
    if i < |s.cells| then Next(s, Op<Node, Element>.Release(i)) else s
  }

  ghost function ActsRun(s: State<Node, Element>, acts: Acts, tr: ActsTrace): Option<State<Node, Element>>
    decreases tr, 0
  {
    match (acts, tr)
    case (Rest, RestT) => Some(s)
    case (Then(act, others), ThenT(one, more)) =>
      var u := ActRun(s, act, one);
      if u.None? then None else ActsRun(u.value, others, more)
    case _ => None
  }

  ghost function ActRun(s: State<Node, Element>, act: Act, tr: ActTrace): Option<State<Node, Element>>
    decreases tr, 0
  {
    match (act, tr)
    case (Remove(e), RemoveT) => Some(Taken(s, e))
    case (ToBack(b), AddT(n)) => AddRun(Taken(s, b), b, n, false)
    case (ToFront(f), AddT(n)) => AddRun(Taken(s, f), f, n, true)
    case (Call(script), CallT(rounds)) =>
      var r := CallRun(s, script, rounds);
      if r.None? then None else Some(r.value.0)
    case _ => None
  }

  ghost function AddRun(s: State<Node, Element>, e: Element, n: Node, front: bool): Option<State<Node, Element>> {
    if n.made == e && New(s, n) then Some(Next(s, Pushed(n, e, front))) else None
  }

  /** One round of a traversal: visit the node, let its handler do what the next entry of the
      script says, and move on. */
  ghost function RoundRun(s: State<Node, Element>, script: Script, i: nat, tr: ActsTrace, k: nat)
    : Option<(State<Node, Element>, Script)>
    decreases tr, 1
  {
    if !Enabled(s, Op<Node, Element>.Visit(i)) then None
    else
      var v := Next(s, Op<Node, Element>.Visit(i));
      var acting := s.cells[i].elem.Some? && script.React?;
      var u := if acting then ActsRun(v, script.acts, tr) else Some(v);
      if u.None? || !Enabled(u.value, Op<Node, Element>.Advance(k)) then None
      else Some((Next(u.value, Op<Node, Element>.Advance(k)), if acting then script.more else script))
  }

  ghost function RoundsRun(s: State<Node, Element>, script: Script, rounds: Rounds): Option<(State<Node, Element>, Script)>
    decreases rounds, 0
  {
    match rounds
    case Start => Some((s, script))
    case Round(before, i, acts, k) =>
      var u := RoundsRun(s, script, before);
      if u.None? then None else RoundRun(u.value.0, u.value.1, i, acts, k)
  }

  /** A whole traversal, and whom it invoked. */
  ghost function CallRun(s: State<Node, Element>, script: Script, rounds: Rounds): Option<(State<Node, Element>, seq<Node>)>
    decreases rounds, 1
  {
    var u := RoundsRun(Next(s, Op<Node, Element>.Begin), script, rounds);
    if u.None? || !Enabled(u.value.0, Op<Node, Element>.End) then None
    else Some((Next(u.value.0, Op<Node, Element>.End), Top(u.value.0).done))
  }

  lemma TopIndex<N, E>(s: State<N, E>) returns (i: nat)
    requires Inv(s) && s.cursors != [] && Top(s).at.Some?
    ensures i < |s.cells| && s.cells[i].node == Top(s).at.value
    ensures Top(s).passed ==> Enabled(s, Op<N, E>.Advance(i))
  {
    var p: nat :| Tracked(Top(s), s.cells, p);
    i := if Top(s).passed then p - 1 else p;
  }

  ghost function Outer<N, E>(s: State<N, E>): seq<Cursor<N>>
    requires s.cursors != []
  {
    s.cursors[..|s.cursors| - 1]
  }

  /** What the start, a visit and the end of a traversal do to the stack. */
  lemma BeginTop<N, E>(s: State<N, E>)
    ensures var t := Next(s, Op<N, E>.Begin);
            && t.cursors != [] && Outer(t) == s.cursors && t.cells == s.cells
            && Top(t) == Cursor(NodeAt(s.cells, 0), false, [], Live(s.cells))
  {
  }

  lemma VisitTop<N, E>(s: State<N, E>, i: nat)
    requires Enabled(s, Op<N, E>.Visit(i))
    ensures var t := Next(s, Op<N, E>.Visit(i));
            && t.cursors != [] && Outer(t) == Outer(s) && t.cells == s.cells
            && Top(t).at == Top(s).at && Top(t).passed && Top(t).start == Top(s).start
            && Top(t).done == (if s.cells[i].elem.Some? then Top(s).done + [s.cells[i].node] else Top(s).done)
            && Enabled(t, Op<N, E>.Advance(i))
  {
  }

  /** The iterator comes closer to the end. */
  lemma AdvanceCloser<N, E>(s: State<N, E>, i: nat) returns (j: nat)
    requires Enabled(s, Op<N, E>.Advance(i))
    ensures var t := Next(s, Op<N, E>.Advance(i));
            && t.cursors != [] && Outer(t) == Outer(s)
            && !Top(t).passed && Top(t).start == Top(s).start && Top(t).done == Top(s).done
            && (if Top(t).at.Some? then j < |t.cells| && t.cells[j].node == Top(t).at.value else j == |t.cells|)
            && |t.cells| - j == |s.cells| - i - 1
  {
    var t := Next(s, Op<N, E>.Advance(i));
    j := if t.cells == s.cells then i + 1 else i;
  }

  lemma EndTop<N, E>(s: State<N, E>)
    requires Enabled(s, Op<N, E>.End)
    ensures Next(s, Op<N, E>.End) == s.(cursors := Outer(s))
  {
  }

  /** One handler at work: the list ends up as its acts say, and the traversals around it
      keep their places. */
  method Perform(list: List, acts: Acts) returns (ghost tr: ActsTrace)
    requires list.Valid() && ActsUse(acts, list.owned)
    modifies list`state, list.base, list.RingNodes(), list.owned
    ensures list.Valid() && list.state.cursors == old(list.state.cursors)
    ensures fresh(list.RingNodes() - old(list.RingNodes()))
    ensures ActsRun(old(list.state), acts, tr) == Some(list.state)
    decreases acts, 0
  {
    hide Inv, List.Shape, List.Counted, Listing, But, Taken, AddRun, CallRun, Next, Enabled;
    tr := RestT;
    if acts.Then? {
      var one := DoAct(list, acts.act);
      var more := Perform(list, acts.others);
      tr := ThenT(one, more);
    }
  }

  method DoAct(list: List, act: Act) returns (ghost tr: ActTrace)
    requires list.Valid() && ActUses(act, list.owned)
    modifies list`state, list.base, list.RingNodes(), list.owned
    ensures list.Valid() && list.state.cursors == old(list.state.cursors)
    ensures fresh(list.RingNodes() - old(list.RingNodes()))
    ensures ActRun(old(list.state), act, tr) == Some(list.state)
    decreases act, 0
  {
    hide Inv, List.Shape, List.Counted, Listing, But, Taken, AddRun, CallRun;
    match act {
      case Remove(e) =>
        list.RemoveFromList(e);
        tr := RemoveT;
      case ToBack(e) =>
        list.PushBack(e);
        tr := AddT(e.cb);
      case ToFront(e) =>
        list.PushFront(e);
        tr := AddT(e.cb);
      case Call(script) =>
        var _, _, rounds := CallHandlers(list, script);
        tr := CallT(rounds);
    }
  }

  /** Without live nodes nothing is visited, and moving on makes none. */
  lemma NoneLive<N, E>(s: State<N, E>, i: nat)
    requires Inv(s) && i < |s.cells| && Live(s.cells) == {}
    ensures s.cells[i].elem.None?
  {
    LiveAt(s.cells, i);
  }

  lemma AdvanceLive<N, E>(s: State<N, E>, i: nat)
    requires Enabled(s, Op<N, E>.Advance(i))
    ensures Live(Next(s, Op<N, E>.Advance(i)).cells) == Live(s.cells)
  {
    LiveSweep(s.cells, Next(s, Op<N, E>.Advance(i)).cursors, i);
  }

  /** The handler that the node was made for lets type handlers run as well. */
  ghost predicate LetsTypesRun(n: Node) {
    n.made != null && !n.made.skipTypeHandler
  }

  /** One round of the loop: invoke the handler of this node, if it still has one, and
      move on. */
  method CallOne(list: List, cur: Node, script: Script, ghost i: nat)
    returns (hit: bool, lets: bool, rest: Script, next: Node?, ghost j: nat, ghost tr: ActsTrace, ghost k: nat)
    requires list.Valid() && ScriptUses(script, list.owned)
    requires list.AtTop(cur, i) && !Top(list.state).passed
    modifies list`state, list.base, list.RingNodes(), list.owned
    ensures list.Valid() && fresh(list.RingNodes() - old(list.RingNodes()))
    ensures list.AtTop(next, j) && !Top(list.state).passed
    ensures Outer(list.state) == old(Outer(list.state)) && Top(list.state).start == old(Top(list.state).start)
    ensures Top(list.state).done == old(Top(list.state).done) + if hit then [cur] else []
    ensures lets <==> hit && LetsTypesRun(cur)
    ensures old(Live(list.state.cells)) == {} ==> !hit && Live(list.state.cells) == {}
    ensures RoundRun(old(list.state), script, i, tr, k) == Some((list.state, rest))
    ensures ScriptUses(rest, list.owned)
    ensures rest < script || (rest == script && |list.state.cells| - j < old(|list.state.cells|) - i)
    decreases script, 0
  {
    hide Inv, List.Shape, List.Counted, Live, Next, Enabled, Nodes, ActsRun;
    ghost var before := list.state;
    if Live(before.cells) == {} {
      NoneLive(before, i);
    }
    var e := list.GetElement(cur, i);
    VisitTop(before, i);
    k, tr := i, RestT;
    hit, rest := e != null, script;
    lets := false;
    if hit {
      ElementAt(list, e, i);
      lets := !e.skipTypeHandler;
    }
    if hit && script.React? {
      tr := Perform(list, script.acts);
      rest := script.more;
      k := TopIndex(list.state);
    }
    before := list.state;
    next := list.GetNext(cur, k);
    j := AdvanceCloser(before, k);
    AdvanceLive(before, k);
  }

  lemma ElementAt(list: List, e: Element, i: nat)
    requires list.Valid() && i < |list.state.cells| && list.state.cells[i].elem == Some(e)
    ensures e in list.owned && e.cb == list.state.cells[i].node && list.state.cells[i].node.made == e
  {
  }

  /** The traversal of a call. Of the handlers that are registered before and after it,
      in the same node, each was invoked once, and they were invoked in the order of the
      list; no node was visited twice. A list without handlers invokes none. */
  method CallHandlers(list: List, script: Script) returns (invoked: seq<Node>, lets: bool, ghost rounds: Rounds)
    requires list.Valid() && ScriptUses(script, list.owned)
    modifies list`state, list.base, list.RingNodes(), list.owned
    ensures list.Valid() && list.state.cursors == old(list.state.cursors)
    ensures fresh(list.RingNodes() - old(list.RingNodes()))
    ensures var lasting := old(Live(list.state.cells)) * Live(list.state.cells);
            && Keep(invoked, lasting) == Keep(Nodes(list.state.cells), lasting)
            && (forall n :: n in lasting ==> n in invoked) && Distinct(invoked)
    ensures lets <==> exists n :: n in invoked && LetsTypesRun(n)
    ensures lets <==> exists n :: n in invoked && n.made != null && !n.made.skipTypeHandler
    ensures old(Live(list.state.cells)) == {} ==> invoked == [] && Live(list.state.cells) == {}
    ensures CallRun(old(list.state), script, rounds) == Some((list.state, invoked))
    decreases script, 1
  {
    hide Inv, List.Shape, List.Counted, Keep, Live, Next, Enabled, Distinct, Nodes, LetsTypesRun, RoundRun;
    ghost var start, outer := Live(list.state.cells), list.state.cursors;
    BeginTop(list.state);
    var cur := list.Front();
    var rest := script;
    invoked, lets := [], false;
    ghost var i := 0;
    ghost var first := list.state;
    rounds := Start;
    while cur != null
      invariant list.Valid() && fresh(list.RingNodes() - old(list.RingNodes()))
      invariant list.AtTop(cur, i) && !Top(list.state).passed && Outer(list.state) == outer
      invariant RoundsRun(first, script, rounds) == Some((list.state, rest))
      invariant Top(list.state).done == invoked && Top(list.state).start == start
      invariant lets <==> exists n :: n in invoked && LetsTypesRun(n)
      invariant start == {} ==> invoked == [] && Live(list.state.cells) == {}
      invariant ScriptUses(rest, list.owned) && (rest == script || rest < script)
      decreases rest, |list.state.cells| - i
    {
      ghost var j, tr, k;
      var hit, one, next;
      hit, one, rest, next, j, tr, k := CallOne(list, cur, rest, i);
      rounds := Round(rounds, i, tr, k);
      LetsMore(invoked, cur, lets);
      invoked := invoked + if hit then [cur] else [];
      lets := lets || one;
      cur, i := next, j;
    }
    EndOfTraversal(list.state);
    ghost var last := list.state;
    EndTop(last);
    CallIs(old(list.state), script, rounds, last, rest);
    LetsMeans(invoked);
    list.EndTraversal();
  }

  lemma LetsMeans(invoked: seq<Node>)
    ensures (exists n :: n in invoked && LetsTypesRun(n)) <==> exists n :: n in invoked && n.made != null && !n.made.skipTypeHandler
  {
  }

  lemma CallIs(s: State<Node, Element>, script: Script, rounds: Rounds, u: State<Node, Element>, rest: Script)
    requires RoundsRun(Next(s, Op<Node, Element>.Begin), script, rounds) == Some((u, rest)) && Enabled(u, Op<Node, Element>.End)
    ensures CallRun(s, script, rounds) == Some((Next(u, Op<Node, Element>.End), Top(u).done))
  {
  }

  lemma LetsMore(invoked: seq<Node>, cur: Node, lets: bool)
    requires lets <==> exists n :: n in invoked && LetsTypesRun(n)
    ensures lets || LetsTypesRun(cur) <==> exists n :: n in invoked + [cur] && LetsTypesRun(n)
    ensures invoked + [] == invoked
  {
    hide LetsTypesRun;
    assert cur in invoked + [cur];
    assert forall n :: n in invoked ==> n in invoked + [cur];
  }

  /** The dispatch of a call: the handlers registered for its name, then those for its
      type. Handlers for the type run exactly when nothing is registered under the
      name or some handler of the name that was invoked does not skip them. An entry
      without handlers counts as registered, and keeps them from running. */
  method CallName(named: List?, typed: List?, script: Script, typeScript: Script)
    returns (byName: seq<Node>, byType: seq<Node>, typesRun: bool)
    requires named != null ==> named.Valid() && ScriptUses(script, named.owned)
    requires typed != null ==> typed.Valid() && ScriptUses(typeScript, typed.owned)
    requires named != null && typed != null ==> named.Footprint() !! typed.Footprint()
    modifies if named == null then {} else named.Footprint(), if typed == null then {} else typed.Footprint()
    ensures typesRun <==> typed != null && (named == null || exists n :: n in byName && n.made != null && !n.made.skipTypeHandler)
    ensures named == null ==> byName == []
    ensures named != null ==> Once(byName, old(Live(named.state.cells)), named)
    ensures typesRun ==> Once(byType, old(Live(typed.state.cells)), typed)
    ensures !typesRun ==> byType == []
    ensures named != null ==> named.Valid()
    ensures typed != null ==> typed.Valid()
    ensures named != null && old(Live(named.state.cells)) == {} ==>
              byName == [] && !typesRun && Live(named.state.cells) == {}
  {
    hide CallRun, Outer, Inv, List.Shape, List.Counted, Keep, Live, Distinct, Nodes, LetsTypesRun;
    byName, byType := [], [];
    var callTypeHandler := named == null;
    if named != null {
      var lets;
      ghost var rounds;
      byName, lets, rounds := CallHandlers(named, script);
      callTypeHandler := callTypeHandler || lets;
    }
    typesRun := callTypeHandler && typed != null;
    if typesRun {
      var letsMore;
      ghost var rounds;
      byType, letsMore, rounds := CallHandlers(typed, typeScript);
    }
  }

  /** Of the handlers of `start` that are still there, each was invoked once, in order. */
  ghost predicate Once(invoked: seq<Node>, start: set<Node>, list: List)
    reads list
  {
    var lasting := start * Live(list.state.cells);
    && Keep(invoked, lasting) == Keep(Nodes(list.state.cells), lasting)
    && (forall n :: n in lasting ==> n in invoked) && Distinct(invoked)
  }

  lemma TakenLists(s: State<Node, Element>, e: Element)
    requires forall i, j :: 0 <= i < j < |s.cells| && s.cells[i].elem == Some(e) ==> s.cells[j].elem != Some(e)
    ensures Listing(Taken(s, e).cells) == But(Listing(s.cells), e)
  {
    hide Listing, But;
    var i := IndexOf(s.cells, e);
    if i < |s.cells| {
      ReleaseListing(s, i, e);
    } else {
      ButNone(s.cells, e);
    }
  }

  /** What a handler does shows in the order of the elements. */
  lemma ActLists(s: State<Node, Element>, act: Act, tr: ActTrace, e: Element)
    requires act == Remove(e) || act == ToBack(e) || act == ToFront(e)
    requires forall i, j :: 0 <= i < j < |s.cells| && s.cells[i].elem == Some(e) ==> s.cells[j].elem != Some(e)
    requires ActRun(s, act, tr).Some?
    ensures var less := But(Listing(s.cells), e);
            Listing(ActRun(s, act, tr).value.cells) == match act
                                                       case Remove(_) => less
                                                       case ToBack(_) => less + [e]
                                                       case _ => [e] + less
  {
    hide Listing, But, Next;
    TakenLists(s, e);
    if tr.AddT? {
      PushedLists(Taken(s, e), tr.n, e, act.ToFront?);
    }
  }

  // ----- What handlers do to each other -----------------------------------------------

  /** The script adds the element somewhere. */
  ghost predicate ScriptAdds(s: Script, e: Element) {
    s.React? && (ActsAdd(s.acts, e) || ScriptAdds(s.more, e))
  }

  ghost predicate ActsAdd(a: Acts, e: Element) {
    a.Then? && (ActAdds(a.act, e) || ActsAdd(a.others, e))
  }

  ghost predicate ActAdds(a: Act, e: Element) {
    match a
    case Remove(_) => false
    case ToBack(b) => b == e
    case ToFront(f) => f == e
    case Call(script) => ScriptAdds(script, e)
  }

  /** The element is not listed, and the nodes hold the elements they were made for. */
  ghost predicate Unlisted(s: State<Node, Element>, e: Element) {
    forall c :: c in s.cells && c.elem.Some? ==> c.elem.value != e && c.node.made == c.elem.value
  }

  lemma TakenWithout(s: State<Node, Element>, e: Element, b: Element)
    requires Unlisted(s, e)
    ensures Unlisted(Taken(s, b), e) && Taken(s, b).cursors == s.cursors
  {
    var i := IndexOf(s.cells, b);
    if i < |s.cells| {
      var t := Taken(s, b);
      forall c | c in t.cells && c.elem.Some?
        ensures c in s.cells
      {
        assert c in Emptied(s.cells, i);
        var j :| 0 <= j < |s.cells| && Emptied(s.cells, i)[j] == c;
        assert s.cells[j] == c;
      }
    }
  }

  lemma {:induction false} ActsWithout(s: State<Node, Element>, acts: Acts, tr: ActsTrace, e: Element)
    requires Unlisted(s, e) && !ActsAdd(acts, e) && ActsRun(s, acts, tr).Some?
    ensures Unlisted(ActsRun(s, acts, tr).value, e) && ActsRun(s, acts, tr).value.cursors == s.cursors
    decreases tr, 0
  {
    if acts.Then? {
      ActWithout(s, acts.act, tr.act, e);
      ActsWithout(ActRun(s, acts.act, tr.act).value, acts.others, tr.others, e);
    }
  }

  lemma {:induction false} ActWithout(s: State<Node, Element>, act: Act, tr: ActTrace, e: Element)
    requires Unlisted(s, e) && !ActAdds(act, e) && ActRun(s, act, tr).Some?
    ensures Unlisted(ActRun(s, act, tr).value, e) && ActRun(s, act, tr).value.cursors == s.cursors
    decreases tr, 0
  {
    hide Taken, CallRun;
    match act {
      case Remove(b) => TakenWithout(s, e, b);
      case ToBack(b) => TakenWithout(s, e, b);
      case ToFront(b) => TakenWithout(s, e, b);
      case Call(script) => CallWithout(s, script, tr.rounds, e);
    }
  }

  lemma {:induction false} CallWithout(s: State<Node, Element>, script: Script, rounds: Rounds, e: Element)
    requires Unlisted(s, e) && !ScriptAdds(script, e) && CallRun(s, script, rounds).Some?
    ensures var (t, invoked) := CallRun(s, script, rounds).value;
            Unlisted(t, e) && t.cursors == s.cursors && forall n :: n in invoked ==> n.made != e
    decreases rounds, 1
  {
    var first := Next(s, Op<Node, Element>.Begin);
    RoundsWithout(first, script, rounds, e);
    hide RoundsRun;
  }

  /** What is not listed and not added is not invoked, and not listed afterwards. */
  lemma {:induction false} RoundsWithout(s: State<Node, Element>, script: Script, rounds: Rounds, e: Element)
    requires Unlisted(s, e) && !ScriptAdds(script, e) && s.cursors != [] && RoundsRun(s, script, rounds).Some?
    ensures var (t, rest) := RoundsRun(s, script, rounds).value;
            && Unlisted(t, e) && !ScriptAdds(rest, e) && t.cursors != [] && Outer(t) == Outer(s)
            && Top(s).done <= Top(t).done && forall n :: n in Top(t).done[|Top(s).done|..] ==> n.made != e
    decreases rounds, 0
  {
    if rounds.Round? {
      RoundsWithout(s, script, rounds.before, e);
      var (u, rest) := RoundsRun(s, script, rounds.before).value;
      RoundWithout(u, rest, rounds.i, rounds.acts, rounds.k, e);
      hide RoundRun, Unlisted;
    }
  }

  lemma {:induction false} RoundWithout(s: State<Node, Element>, script: Script, i: nat, tr: ActsTrace, k: nat, e: Element)
    requires Unlisted(s, e) && !ScriptAdds(script, e) && s.cursors != [] && RoundRun(s, script, i, tr, k).Some?
    ensures var (t, rest) := RoundRun(s, script, i, tr, k).value;
            && Unlisted(t, e) && !ScriptAdds(rest, e) && t.cursors != [] && Outer(t) == Outer(s)
            && (Top(t).done == Top(s).done || exists n: Node :: n.made != e && Top(t).done == Top(s).done + [n])
    decreases tr, 1
  {
    var v := Next(s, Op<Node, Element>.Visit(i));
    VisitTop(s, i);
    var u := v;
    if s.cells[i].elem.Some? {
      assert s.cells[i] in s.cells;
      if script.React? {
        ActsWithout(v, script.acts, tr, e);
        u := ActsRun(v, script.acts, tr).value;
      }
    }
    AdvanceWithout(u, k, e);
    hide ActsRun, Next, Enabled, Unlisted;
  }

  lemma AdvanceWithout(s: State<Node, Element>, k: nat, e: Element)
    requires Unlisted(s, e) && Enabled(s, Op<Node, Element>.Advance(k))
    ensures var t := Next(s, Op<Node, Element>.Advance(k));
            Unlisted(t, e) && t.cursors != [] && Outer(t) == Outer(s) && Top(t).done == Top(s).done
  {
  }

  function Joined(a: Rounds, b: Rounds): Rounds {
    match b
    case Start => a
    case Round(before, i, acts, k) => Round(Joined(a, before), i, acts, k)
  }

  lemma {:induction false} JoinedRun(s: State<Node, Element>, script: Script, a: Rounds, b: Rounds)
    requires RoundsRun(s, script, a).Some?
    ensures var (u, rest) := RoundsRun(s, script, a).value; RoundsRun(s, script, Joined(a, b)) == RoundsRun(u, rest, b)
  {
    hide RoundRun;
    if b.Round? {
      JoinedRun(s, script, a, b.before);
      assert Joined(a, b) == Round(Joined(a, b.before), b.i, b.acts, b.k);
    } else {
      var (u, rest) := RoundsRun(s, script, a).value;
      assert Joined(a, b) == a && RoundsRun(u, rest, b) == Some((u, rest));
    }
  }

  /** Once an element is not listed and what is left of the script does not add it again, the
      traversal does not invoke it any more, and it is not listed afterwards. */
  lemma RemovedStaysOut(s: State<Node, Element>, script: Script, before: Rounds, later: Rounds, e: Element)
    requires s.cursors != [] && RoundsRun(s, script, before).Some? && RoundsRun(s, script, Joined(before, later)).Some?
    requires var (u, rest) := RoundsRun(s, script, before).value; u.cursors != [] && Unlisted(u, e) && !ScriptAdds(rest, e)
    ensures var (u, t) := (RoundsRun(s, script, before).value.0, RoundsRun(s, script, Joined(before, later)).value.0);
            && t.cursors != [] && Top(u).done <= Top(t).done && (forall n :: n in Top(t).done[|Top(u).done|..] ==> n.made != e)
            && e !in Listing(t.cells)
  {
    var (u, rest) := RoundsRun(s, script, before).value;
    JoinedRun(s, script, before, later);
    RoundsWithout(u, rest, later, e);
    ListingHas(RoundsRun(u, rest, later).value.0.cells, e);
  }

  /** Two handlers, of which the first removes the second. */
  lemma FirstAlone(s: State<Node, Element>, x: Node, y: Node, a: Element, b: Element, rounds: Rounds)
    requires s == State([Cell(x, Some(a)), Cell(y, Some(b))], []) && x != y && a != b
    requires CallRun(s, React(Then(Remove(b), Rest), Quiet), rounds).Some?
    ensures var (t, invoked) := CallRun(s, React(Then(Remove(b), Rest), Quiet), rounds).value;
            invoked == [x] && t == State([Cell(x, Some(a))], [])
  {
    var script := React(Then(Remove(b), Rest), Quiet);
    var first := Next(s, Op<Node, Element>.Begin);
    FirstRounds(first, x, y, a, b, rounds);
  }

  lemma {:induction false} FirstRounds(s: State<Node, Element>, x: Node, y: Node, a: Element, b: Element, rounds: Rounds)
    requires s.cells == [Cell(x, Some(a)), Cell(y, Some(b))] && s.cursors != [] && Outer(s) == [] && x != y && a != b
    requires Top(s).at == Some(x) && !Top(s).passed && Top(s).done == []
    requires RoundsRun(s, React(Then(Remove(b), Rest), Quiet), rounds).Some?
    ensures var (t, rest) := RoundsRun(s, React(Then(Remove(b), Rest), Quiet), rounds).value;
            if rounds.Start? then t == s && rest.React?
            else t.cells == [Cell(x, Some(a))] && t.cursors != [] && Outer(t) == [] && Top(t).at.None? && Top(t).done == [x]
  {
    if rounds.Round? {
      FirstRounds(s, x, y, a, b, rounds.before);
      if rounds.before.Start? {
        FirstRound(s, x, y, a, b, rounds.i, rounds.acts, rounds.k);
      }
    }
  }

  lemma RemovalTrace(s: State<Node, Element>, b: Element, tr: ActsTrace)
    requires ActsRun(s, Then(Remove(b), Rest), tr).Some?
    ensures ActsRun(s, Then(Remove(b), Rest), tr) == Some(Taken(s, b))
  {
    hide Taken;
    assert tr.ThenT? && ActRun(s, Remove(b), tr.act).Some?;
    assert tr.act.RemoveT? && ActsRun(Taken(s, b), Rest, tr.others).Some?;
    assert tr.others.RestT?;
  }

  /** Without the second element the list ends after the first. */
  lemma SecondTaken(s: State<Node, Element>, x: Node, y: Node, a: Element, b: Element)
    requires s.cells == [Cell(x, Some(a)), Cell(y, Some(b))] && x != y && a != b
    requires s.cursors != [] && Outer(s) == [] && Top(s).at == Some(x)
    ensures Taken(s, b) == s.(cells := [Cell(x, Some(a))])
  {
    assert IndexOf(s.cells[..1][..0], b) == 0 && IndexOf(s.cells[..1], b) == 1 && IndexOf(s.cells, b) == 1;
    assert s.cursors == [Top(s)] && s.cursors[..0] == [] && Holders(s.cursors[..0], y) == 0 && Holders(s.cursors, y) == 0;
  }

  lemma LastLeft(s: State<Node, Element>, x: Node, a: Element, k: nat)
    requires s.cells == [Cell(x, Some(a))] && s.cursors != [] && Enabled(s, Op<Node, Element>.Advance(k))
    ensures var t := Next(s, Op<Node, Element>.Advance(k));
            t.cells == s.cells && t.cursors != [] && Outer(t) == Outer(s) && Top(t).at.None? && Top(t).done == Top(s).done
  {
    assert k == 0;
  }

  lemma FirstRound(s: State<Node, Element>, x: Node, y: Node, a: Element, b: Element, i: nat, tr: ActsTrace, k: nat)
    requires s.cells == [Cell(x, Some(a)), Cell(y, Some(b))] && s.cursors != [] && Outer(s) == [] && x != y && a != b
    requires Top(s).at == Some(x) && !Top(s).passed && Top(s).done == []
    requires RoundRun(s, React(Then(Remove(b), Rest), Quiet), i, tr, k).Some?
    ensures var (t, rest) := RoundRun(s, React(Then(Remove(b), Rest), Quiet), i, tr, k).value;
            t.cells == [Cell(x, Some(a))] && t.cursors != [] && Outer(t) == [] && Top(t).at.None? && Top(t).done == [x]
  {
    hide Taken, ActsRun, Holders, Sweep;
    var v := Next(s, Op<Node, Element>.Visit(i));
    assert i == 0;
    VisitTop(s, 0);
    assert [] + [x] == [x];
    RemovalTrace(v, b, tr);
    SecondTaken(v, x, y, a, b);
    var u := Taken(v, b);
    hide Next;
    assert Top(u) == Top(v) && Outer(u) == Outer(v);
    LastLeft(u, x, a, k);
  }

  lemma NotListed(list: List, e: Element)
    requires list.Valid() && e in list.owned && forall c :: c in list.state.cells ==> c.elem != Some(e)
    ensures e.cb == null
  {
  }

  /** On the heap: the first handler is invoked, the second neither invoked nor listed. */
  method FirstRemovesSecond() returns (list: List, a: Element, b: Element, invoked: seq<Node>)
    ensures list.Valid() && a.cb != null && invoked == [a.cb] && b.cb == null
    ensures Listing(list.state.cells) == [a]
  {
    hide Inv, List.Shape, List.Counted, Live, Nodes, Keep, Distinct, LetsTypesRun, CallRun, Taken, Listing, But;
    list := new List();
    a := list.NewElement(0, false);
    b := list.NewElement(0, false);
    list.PushBack(a);
    list.PushBack(b);
    ghost var x: Node, y: Node := a.cb, b.cb;
    ghost var s := list.state;
    assert s == State([Cell(x, Some(a)), Cell(y, Some(b))], []);
    var lets;
    ghost var rounds;
    assert ActUses(Remove(b), list.owned) && ActsUse(Then(Remove(b), Rest), list.owned);
    invoked, lets, rounds := CallHandlers(list, React(Then(Remove(b), Rest), Quiet));
    FirstAlone(s, x, y, a, b, rounds);
    ElementAt(list, a, 0);
    NotListed(list, b);
    ListingOne(list.state.cells[0]);
  }

  // ----- Removing by tag -------------------------------------------------------------

  ghost predicate Untagged(cells: seq<Cell<Node, Element>>, n: nat, tag: nat)
    requires n <= |cells|
  {
    forall k :: 0 <= k < n && cells[k].elem.Some? ==> cells[k].elem.value.tag != tag
  }

  /** The nodes whose handlers have another tag. */
  ghost function Others(cells: seq<Cell<Node, Element>>, tag: nat): set<Node> {
    set c | c in cells && c.elem.Some? && c.elem.value.tag != tag :: c.node
  }

  lemma OthersEmptied(cells: seq<Cell<Node, Element>>, i: nat, tag: nat)
    requires i < |cells| && cells[i].elem.Some? && cells[i].elem.value.tag == tag
    ensures Others(Emptied(cells, i), tag) == Others(cells, tag)
  {
    var less := Emptied(cells, i);
    forall c | c in cells && c.elem.Some? && c.elem.value.tag != tag
      ensures c in less
    {
      var j :| 0 <= j < |cells| && cells[j] == c;
      assert less[j] == c;
    }
    forall c | c in less && c.elem.Some? && c.elem.value.tag != tag
      ensures c in cells
    {
      var j :| 0 <= j < |less| && less[j] == c;
      assert cells[j] == c;
    }
  }

  lemma OthersWithout(cells: seq<Cell<Node, Element>>, i: nat, tag: nat)
    requires i < |cells| && cells[i].elem.None?
    ensures Others(Without(cells, i), tag) == Others(cells, tag)
  {
    var less := Without(cells, i);
    forall c | c in cells && c.elem.Some?
      ensures c in less
    {
      var j :| 0 <= j < |cells| && cells[j] == c;
      assert less[if j < i then j else j - 1] == c;
    }
    assert forall c :: c in less ==> c in cells;
  }

  lemma OthersAre(cells: seq<Cell<Node, Element>>, tag: nat)
    ensures Others(cells, tag) == set c | c in cells && c.elem.Some? && c.elem.value.tag != tag :: c.node
  {
  }

  lemma OthersAll(cells: seq<Cell<Node, Element>>, tag: nat)
    requires Untagged(cells, |cells|, tag)
    ensures Others(cells, tag) == Live(cells)
  {
  }

  /** A release under an iterator leaves the node where it is. */
  lemma ReleaseHeld<N, E>(s: State<N, E>, i: nat, l: nat)
    requires Inv(s) && s.cursors != [] && Top(s).at.Some?
    requires i < |s.cells| && s.cells[i].node == Top(s).at.value && s.cells[i].elem.Some?
    requires l < |s.cells| && s.cells[l].node == s.cells[i].node
    ensures l == i && Next(s, Op<N, E>.Release(l)) == s.(cells := Emptied(s.cells, i))
  {
    assert Nodes(s.cells)[l] == Nodes(s.cells)[i];
    HoldersIn(s.cursors, s.cells[i].node, |s.cursors| - 1);
  }

  /** What is behind the iterator stays, except for the node it left. */
  lemma AdvanceBehind<N, E>(s: State<N, E>, i: nat, j: nat)
    requires Enabled(s, Op<N, E>.Advance(i))
    requires |Next(s, Op<N, E>.Advance(i)).cells| - j == |s.cells| - i - 1
    ensures var t := Next(s, Op<N, E>.Advance(i));
            && 0 <= j <= |t.cells| && (t.cells == s.cells || (s.cells[i].elem.None? && t.cells == Without(s.cells, i)))
  {
  }

  /** What one handler's tag decides: it goes or it stays. */
  method Judge(list: List, cur: Node, tag: nat, ghost i: nat)
    requires list.Valid() && list.AtTop(cur, i) && !Top(list.state).passed && Untagged(list.state.cells, i, tag)
    modifies list`state, list.base, list.RingNodes(), list.owned
    ensures list.Valid() && list.RingNodes() <= old(list.RingNodes()) && list.AtTop(cur, i) && Top(list.state).passed
    ensures Outer(list.state) == old(Outer(list.state)) && |list.state.cells| == old(|list.state.cells|)
    ensures Untagged(list.state.cells, i + 1, tag)
    ensures Others(list.state.cells, tag) == old(Others(list.state.cells, tag))
  {
    hide Inv, List.Shape, List.Counted, Live, Next, Enabled, Nodes, Others;
    ghost var before := list.state;
    var e := list.GetElement(cur, i);
    VisitTop(before, i);
    ghost var seen := list.state;
    if e != null && e.tag == tag {
      ElementAt(list, e, i);
      ReleaseHeld(seen, i, list.Place(e));
      OthersEmptied(seen.cells, i, tag);
      list.RemoveFromList(e);
    }
  }

  /** One round of the removal: judge the handler and move on. */
  method RemoveOne(list: List, cur: Node, tag: nat, ghost i: nat) returns (next: Node?, ghost j: nat)
    requires list.Valid() && list.AtTop(cur, i) && !Top(list.state).passed && Untagged(list.state.cells, i, tag)
    modifies list`state, list.base, list.RingNodes(), list.owned
    ensures list.Valid() && list.RingNodes() <= old(list.RingNodes()) && list.AtTop(next, j) && !Top(list.state).passed
    ensures Outer(list.state) == old(Outer(list.state))
    ensures |list.state.cells| - j == old(|list.state.cells|) - i - 1
    ensures if next == null then j == |list.state.cells| else j < |list.state.cells|
    ensures Untagged(list.state.cells, j, tag)
    ensures Others(list.state.cells, tag) == old(Others(list.state.cells, tag))
  {
    hide Inv, List.Shape, List.Counted, Live, Next, Enabled, Nodes, Others;
    Judge(list, cur, tag, i);
    ghost var before := list.state;
    AdvanceReady(before, i);
    next := list.GetNext(cur, i);
    j := AdvanceCloser(before, i);
    AdvanceBehind(before, i, j);
    if list.state.cells != before.cells {
      OthersWithout(before.cells, i, tag);
    }
  }

  lemma AdvanceReady<N, E>(s: State<N, E>, i: nat)
    requires s.cursors != [] && i < |s.cells| && Top(s).at == Some(s.cells[i].node) && Top(s).passed
    ensures Enabled(s, Op<N, E>.Advance(i))
  {
  }

  /** Removes the handlers with the tag and keeps the others. The map's entry is given
      up exactly when all handlers had the tag and no traversal of the list is running:
      a running one stands on a node, and keeps it. */
  method RemoveTag(list: List, tag: nat) returns (empty: bool)
    requires list.Valid()
    modifies list`state, list.base, list.RingNodes(), list.owned
    ensures list.Valid() && list.state.cursors == old(list.state.cursors) && list.RingNodes() <= old(list.RingNodes())
    ensures Live(list.state.cells) == old(Others(list.state.cells, tag))
    ensures Live(list.state.cells)
            == set c | c in old(list.state.cells) && c.elem.Some? && c.elem.value.tag != tag :: c.node
    ensures Untagged(list.state.cells, |list.state.cells|, tag)
    ensures empty <==> old(Others(list.state.cells, tag)) == {} && Nobody(old(list.state.cursors))
    ensures empty <==> list.state.cells == []
  {
    hide Inv, List.Shape, List.Counted, Live, Next, Enabled, Distinct, Nodes, Others;
    ghost var outer := list.state.cursors;
    BeginTop(list.state);
    var cur := list.Front();
    ghost var i: nat := 0;
    while cur != null
      invariant list.Valid() && list.RingNodes() <= old(list.RingNodes())
      invariant list.AtTop(cur, i) && !Top(list.state).passed && Outer(list.state) == outer
      invariant if cur == null then i == |list.state.cells| else i < |list.state.cells|
      invariant Untagged(list.state.cells, i, tag)
      invariant Others(list.state.cells, tag) == old(Others(list.state.cells, tag))
      decreases |list.state.cells| - i
    {
      cur, i := RemoveOne(list, cur, tag, i);
    }
    OthersAll(list.state.cells, tag);
    ghost var last := list.state;
    EndTop(last);
    list.EndTraversal();
    EmptyExactly(list.state);
    OthersAre(old(list.state.cells), tag);
    empty := IsEmpty(list);
  }

  /** Whether there is no node, as a new iterator would find out. */
  method IsEmpty(list: List) returns (empty: bool)
    requires list.Valid()
    ensures empty <==> list.state.cells == []
  {
    hide Inv, List.Counted;
    ghost var none := list.state.cells == [];
    if none {
      list.EmptyRing();
    } else {
      list.NextInRing(0);
    }
    empty := list.base.next == list.base;
  }

  /** One handler, and an iterator that has just visited it. */
  lemma OneVisited(n: Node, e: Element, s: State<Node, Element>, t: State<Node, Element>)
    requires Enabled(State([], []), Op<Node, Element>.Append(n, e))
    requires s == Next(State([], []), Op<Node, Element>.Append(n, e))
    requires t == Next(s, Op<Node, Element>.Begin)
    ensures t.cells == [Cell(n, Some(e))] && t.cursors != [] && Top(t).at == Some(n) && !Top(t).passed
    ensures Enabled(t, Op<Node, Element>.Visit(0))
    ensures Next(t, Op<Node, Element>.Visit(0)).cells == t.cells && !Nobody(Next(t, Op<Node, Element>.Visit(0)).cursors)
  {
    var v := Next(t, Op<Node, Element>.Visit(0));
    assert v.cursors[|v.cursors| - 1] in v.cursors;
  }

  /** A list whose one handler is being invoked. */
  method DuringCall(tag: nat) returns (list: List)
    ensures fresh(list) && fresh(list.Footprint()) && list.Valid()
    ensures Others(list.state.cells, tag) == {} && !Nobody(list.state.cursors)
  {
    hide Inv, List.Shape, List.Counted, Next, Enabled, Live, Nodes, Nobody;
    list := new List();
    var e := list.NewElement(tag, false);
    list.PushBack(e);
    ghost var n: Node := e.cb;
    ghost var s := list.state;
    var cur := list.Front();
    ghost var t := list.state;
    OneVisited(n, e, s, t);
    var visited := list.GetElement(cur, 0);
  }

  /** The entry stays although its last handler is gone: a handler clears its own tag
      while it is being invoked. A call by name then runs no handler of the name, and
      none of the type either. */
  method StaleEntry(tag: nat, typed: List) returns (list: List, empty: bool, typesRun: bool)
    requires typed.Valid()
    modifies typed.Footprint()
    ensures list.Valid() && Live(list.state.cells) == {} && !empty && !typesRun
  {
    hide Inv, List.Shape, List.Counted, Live, Nodes, Others, Nobody, Untagged;
    list := DuringCall(tag);
    empty := RemoveTag(list, tag);
    var byName, byType;
    byName, byType, typesRun := CallName(list, typed, Quiet, Quiet);
  }
}
