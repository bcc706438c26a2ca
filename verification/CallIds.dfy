/** Call id allocation: a wrapping 32-bit counter that skips zero and every id
    whose response is still stored. */
module CallIds {
  import opened Packets

  /** The number of valid (nonzero) ids. */
  const ID_COUNT: nat := U32_MAX

  /** The id the next turn of the allocation loop looks at. */
  function Candidate0(counter: u32): (id: u32) {
    if counter == INVALID_ID then 1 else counter
  }

  /** The counter after one turn of the allocation loop. */
  function Bump(counter: u32): u32 {
    (Candidate0(counter) + 1) % U32_SIZE
  }

  /** The id that turn number `j` of the loop looks at. */
  function Candidate(counter: u32, j: nat): u32 {
    (Candidate0(counter) - 1 + j) % ID_COUNT + 1
  }

  ghost predicate HasFree(stored: set<u32>) {
    exists id: u32 :: id != INVALID_ID && id !in stored
  }

  ghost predicate FreeFrom(counter: u32, stored: set<u32>, j: nat) {
    exists i: nat :: j <= i < ID_COUNT && Candidate(counter, i) !in stored
  }

  /** The first turn, from turn `j` on, whose candidate is free. */
  ghost function FirstFree(counter: u32, stored: set<u32>, j: nat): (r: nat)
    requires FreeFrom(counter, stored, j)
    ensures j <= r < ID_COUNT && Candidate(counter, r) !in stored
    ensures forall i: nat :: j <= i < r ==> Candidate(counter, i) in stored
    decreases ID_COUNT - j
  {
    if Candidate(counter, j) !in stored then j
    else FirstFree(counter, stored, j + 1)
  }

  /** How many candidates the loop skips. */
  ghost function Skips(counter: u32, stored: set<u32>): (r: nat)
    requires HasFree(stored)
    ensures r < ID_COUNT && Candidate(counter, r) !in stored
    ensures forall i: nat :: i < r ==> Candidate(counter, i) in stored
  {
    FreeSomewhere(counter, stored);
    FirstFree(counter, stored, 0)
  }

  ghost function NewId(counter: u32, stored: set<u32>): (id: u32)
    requires HasFree(stored)
    ensures id != INVALID_ID && id !in stored
  {
    Candidate(counter, Skips(counter, stored))
  }

  ghost function NewCounter(counter: u32, stored: set<u32>): u32
    requires HasFree(stored)
  {
    (NewId(counter, stored) + 1) % U32_SIZE
  }

  /** Every nonzero id is looked at within one lap. */
  lemma CandidateHits(counter: u32, id: u32) returns (i: nat)
    requires id != INVALID_ID
    ensures i < ID_COUNT && Candidate(counter, i) == id
  {
    var c := Candidate0(counter);
    i := if id >= c then id - c else id + ID_COUNT - c;
    if id >= c {
      assert c - 1 + i == id - 1;
    } else {
      assert c - 1 + i == ID_COUNT + (id - 1);
    }
  }

  lemma FreeSomewhere(counter: u32, stored: set<u32>)
    requires HasFree(stored)
    ensures FreeFrom(counter, stored, 0)
  {
    var id: u32 :| id != INVALID_ID && id !in stored;
    var i := CandidateHits(counter, id);
    assert 0 <= i < ID_COUNT && Candidate(counter, i) !in stored;
  }

  /** Turn `j + 1` seen from `counter` is turn `j` seen from the bumped counter. */
  lemma CandidateShift(counter: u32, j: nat)
    ensures Candidate(Bump(counter), j) == Candidate(counter, j + 1)
    ensures Candidate(counter, 0) == Candidate0(counter)
  {
    var c := Candidate0(counter);
    if c == ID_COUNT {
      assert Bump(counter) == 0;
      assert c - 1 + (j + 1) == ID_COUNT + j;
      LapAway(j);
    } else {
      assert Bump(counter) == c + 1;
    }
  }

  lemma LapAway(j: nat)
    ensures (ID_COUNT + j) % ID_COUNT == j % ID_COUNT
  {
  }

  /** Different turns of one lap look at different ids. */
  lemma CandidatesDistinct(counter: u32, i: nat, j: nat)
    requires i < j < i + ID_COUNT
    ensures Candidate(counter, i) != Candidate(counter, j)
  {
    var a := Candidate0(counter) - 1 + i;
    var d := j - i;
    assert 0 < d < ID_COUNT;
    assert a + d == Candidate0(counter) - 1 + j;
  }

  /** One allocation of a run: what was stored when the id was taken. */
  type History = seq<set<u32>>

  ghost predicate Allocatable(h: History) {
    forall i :: 0 <= i < |h| ==> HasFree(h[i])
  }

  /** The counter after the allocations of `h`. */
  ghost function CounterAfter(counter: u32, h: History): u32
    requires Allocatable(h)
  {
    if h == [] then counter
    else NewCounter(CounterAfter(counter, h[..|h| - 1]), h[|h| - 1])
  }

  /** Ids issued plus ids skipped during `h`. */
  ghost function Advances(counter: u32, h: History): nat
    requires Allocatable(h)
  {
    if h == [] then 0
    else Advances(counter, h[..|h| - 1]) + Skips(CounterAfter(counter, h[..|h| - 1]), h[|h| - 1]) + 1
  }

  /** The id that allocation number `i` of the run `h` returns. */
  ghost function Issued(counter: u32, h: History, i: nat): u32
    requires Allocatable(h) && i < |h|
  {
    NewId(CounterAfter(counter, h[..i]), h[i])
  }

  lemma CandidateAdd(counter: u32, a: nat, j: nat, counter': u32)
    requires Candidate0(counter') == Candidate(counter, a)
    ensures Candidate(counter', j) == Candidate(counter, a + j)
  {
    var x := Candidate0(counter) - 1 + a;
    assert Candidate(counter', j) == (x % ID_COUNT + j) % ID_COUNT + 1;
    ModAdd(x, j);
  }

  lemma ModAdd(x: nat, j: nat)
    ensures (x % ID_COUNT + j) % ID_COUNT == (x + j) % ID_COUNT
  {
    var q := x / ID_COUNT;
    assert x + j == q * ID_COUNT + (x % ID_COUNT + j);
    ModLaps(x % ID_COUNT + j, q);
  }

  lemma {:induction false} ModLaps(y: nat, q: nat)
    ensures (q * ID_COUNT + y) % ID_COUNT == y % ID_COUNT
  {
    if q > 0 {
      ModLaps(y, q - 1);
      assert q * ID_COUNT + y == ID_COUNT + ((q - 1) * ID_COUNT + y);
      LapAway((q - 1) * ID_COUNT + y);
    }
  }

  /** The counter of a run depends only on how far it has advanced. */
  lemma {:induction false} CounterPosition(counter: u32, h: History)
    requires Allocatable(h)
    ensures Candidate0(CounterAfter(counter, h)) == Candidate(counter, Advances(counter, h))
    decreases |h|
  {
    if h == [] {
      CandidateShift(counter, 0);
    } else {
      var g := h[..|h| - 1];
      CounterPosition(counter, g);
      var c := CounterAfter(counter, g);
      var s := Skips(c, h[|h| - 1]);
      CandidateAdd(counter, Advances(counter, g), s, c);
      NextCandidate(counter, Advances(counter, g) + s);
    }
  }

  lemma NextCandidate(counter: u32, j: nat)
    ensures Candidate0((Candidate(counter, j) + 1) % U32_SIZE) == Candidate(counter, j + 1)
  {
    var x := Candidate0(counter) - 1 + j;
    ModAdd(x, 1);
    if x % ID_COUNT == ID_COUNT - 1 {
      assert (x % ID_COUNT + 1) % ID_COUNT == 0;
    } else {
      assert (x % ID_COUNT + 1) % ID_COUNT == x % ID_COUNT + 1;
    }
  }

  /** An issued id sits at its own place on the lap, before the end of the run. */
  lemma {:induction false} IssuedPosition(counter: u32, h: History, i: nat) returns (at: nat)
    requires Allocatable(h) && i < |h|
    ensures Advances(counter, h[..i]) <= at < Advances(counter, h[..i + 1])
    ensures Issued(counter, h, i) == Candidate(counter, at)
  {
    var g := h[..i];
    assert h[..i + 1][..i] == g && h[..i + 1][i] == h[i];
    CounterPosition(counter, g);
    var c := CounterAfter(counter, g);
    var s := Skips(c, h[i]);
    CandidateAdd(counter, Advances(counter, g), s, c);
    at := Advances(counter, g) + s;
  }

  lemma {:induction false} AdvancesMonotone(counter: u32, h: History, i: nat, j: nat)
    requires Allocatable(h) && i <= j <= |h|
    ensures Advances(counter, h[..i]) <= Advances(counter, h[..j])
    decreases j - i
  {
    if i < j {
      AdvancesMonotone(counter, h, i, j - 1);
      assert h[..j][..j - 1] == h[..j - 1];
    }
  }

  /** Over any run, from any counter value, whose advances (ids issued plus ids
      skipped) total at most the number of ids, no id is returned twice,
      wherever the counter wraps. */
  lemma IssuedDistinct(counter: u32, h: History, i: nat, j: nat)
    requires Allocatable(h) && i < j < |h|
    requires Advances(counter, h) <= ID_COUNT
    ensures Issued(counter, h, i) != Issued(counter, h, j)
    ensures Issued(counter, h, i) != INVALID_ID && Issued(counter, h, i) !in h[i]
  {
    var a := IssuedPosition(counter, h, i);
    var b := IssuedPosition(counter, h, j);
    AdvancesMonotone(counter, h, i + 1, j);
    AdvancesMonotone(counter, h, j + 1, |h|);
    assert h[..|h|] == h;
    CandidatesDistinct(counter, a, b);
  }

  /** The bound is tight: with nothing stored, a run of one lap and one more
      allocation returns its first id again. */
  lemma {:induction false} OneLapRepeats(counter: u32, h: History)
    requires |h| == ID_COUNT + 1 && forall i :: 0 <= i < |h| ==> h[i] == {}
    ensures HasFree({}) && Allocatable(h)
    ensures Issued(counter, h, ID_COUNT) == Issued(counter, h, 0)
  {
    var none: set<u32> := {};
    var one: u32 := 1;
    assert one != INVALID_ID && one !in none;
    assert HasFree(none);
    EmptyAdvances(counter, h, ID_COUNT);
    CounterPosition(counter, h[..ID_COUNT]);
    CounterPosition(counter, h[..0]);
    var c := CounterAfter(counter, h[..ID_COUNT]);
    CandidateShift(c, 0);
    CandidateShift(counter, 0);
    LapAway(Candidate0(counter) - 1);
  }

  lemma {:induction false} EmptyAdvances(counter: u32, h: History, n: nat)
    requires n <= |h| && Allocatable(h) && forall i :: 0 <= i < |h| ==> h[i] == {}
    ensures Advances(counter, h[..n]) == n
    decreases n
  {
    if n > 0 {
      EmptyAdvances(counter, h, n - 1);
      assert h[..n][..n - 1] == h[..n - 1];
    }
  }

  /** No id of the run is returned twice. */
  ghost predicate AllDistinct(counter: u32, h: History)
    requires Allocatable(h)
  {
    forall i, j :: 0 <= i < j < |h| ==> Issued(counter, h, i) != Issued(counter, h, j)
  }

  function Nothing(n: nat): (h: History)
    ensures |h| == n && forall i :: 0 <= i < n ==> h[i] == {}
  {
    seq(n, i => {})
  }

  lemma NothingAllocatable(h: History)
    requires forall i :: 0 <= i < |h| ==> h[i] == {}
    ensures Allocatable(h)
  {
    var none: set<u32>, one: u32 := {}, 1;
    assert one != INVALID_ID && one !in none;
    assert HasFree(none);
  }

  /** With nothing stored the ids of a run are distinct if and only if the run is no
      longer than one lap. */
  lemma DistinctExactly(counter: u32, h: History)
    requires forall i :: 0 <= i < |h| ==> h[i] == {}
    ensures Allocatable(h) && (AllDistinct(counter, h) <==> |h| <= ID_COUNT)
  {
    NothingAllocatable(h);
    if |h| <= ID_COUNT {
      EmptyAdvances(counter, h, |h|);
      assert h[..|h|] == h;
      forall i, j | 0 <= i < j < |h|
        ensures Issued(counter, h, i) != Issued(counter, h, j)
      {
        IssuedDistinct(counter, h, i, j);
      }
    } else {
      var g := h[..ID_COUNT + 1];
      NothingAllocatable(g);
      OneLapRepeats(counter, g);
      assert g[..0] == h[..0] && g[..ID_COUNT] == h[..ID_COUNT];
      assert Issued(counter, h, 0) == Issued(counter, h, ID_COUNT);
    }
  }

  /** Whatever is stored: a bound on the advances guarantees distinct ids in every run
      if and only if it is at most one lap. */
  lemma BoundIsExact(counter: u32, bound: nat)
    ensures (forall h: History :: Allocatable(h) && Advances(counter, h) <= bound ==> AllDistinct(counter, h))
            <==> bound <= ID_COUNT
  {
    if bound <= ID_COUNT {
      forall h: History | Allocatable(h) && Advances(counter, h) <= bound
        ensures AllDistinct(counter, h)
      {
        forall i, j | 0 <= i < j < |h|
          ensures Issued(counter, h, i) != Issued(counter, h, j)
        {
          IssuedDistinct(counter, h, i, j);
        }
      }
    } else {
      var h := Nothing(ID_COUNT + 1);
      DistinctExactly(counter, h);
      EmptyAdvances(counter, h, |h|);
      assert h[..|h|] == h;
    }
  }
}
