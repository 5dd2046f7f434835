/** The defragmentation sweep: what has been settled left of the cursor. */
module FmSweep {
  import opened FmHash
  import opened FmBlocks
  import opened FmSearch
  import opened FmJoin

  /** Two adjacent fragments are both free. */
  ghost predicate FreePair(b: seq<Block>) {
    exists i | 1 <= i < |b| :: b[i - 1].free && b[i].free
  }

  /** The last fragment is an empty one at `last`; it is free, and so is the one before it. */
  ghost predicate FreeAtLast(b: seq<Block>, last: int) {
    |b| > 1 && b[|b| - 1].addr >= last && b[|b| - 1].free && b[|b| - 2].free
  }

  ghost predicate NoJoinBelow(b0: seq<Block>, q: nat, last: int, size: nat) {
    forall i: nat, j: nat | j <= q :: !Joins(b0, i, j, last, size)
  }

  /** The fragments from `p` on are those of `b0` from `q` on; those before have been coalesced, none of them beyond
      `size`. */
  ghost predicate Swept(b0: seq<Block>, b: seq<Block>, p: nat, q: nat, last: int, size: nat) {
    p <= |b| && p <= q && q - p == |b0| - |b| && (q > 0 ==> p > 0)
    && (forall i | p <= i < |b| :: b[i] == b0[i + q - p])
    && (p > 0 ==> (b[p - 1].free <==> b0[q - 1].free) && b[p - 1].addr < last && b0[q - 1].addr < last)
    && NoPair(b, p, last) && (forall i | 0 <= i < p && b[i].free :: b[i].size <= size)
    && NoJoinBelow(b0, q, last, size)
  }

  lemma SweepStart(b0: seq<Block>, last: int, size: nat)
    ensures Swept(b0, b0, 0, 0, last, size)
  {
  }

  lemma SweptFacts(b0: seq<Block>, b: seq<Block>, p: nat, q: nat, last: int, size: nat)
    requires Swept(b0, b, p, q, last, size) && NoneFits(b0, size)
    ensures p <= |b|
    ensures forall i | p <= i < |b| && b[i].free :: b[i].size < size
  {
  }

  /** The cursor passes a fragment that does not join its right neighbour. */
  lemma SweepStep(b0: seq<Block>, b: seq<Block>, p: nat, q: nat, last: int, size: nat)
    requires Swept(b0, b, p, q, last, size) && p < |b| && b[p].addr < last && NoneFits(b0, size)
    requires p + 1 < |b| ==> !(b[p].free && b[p + 1].free && b[p + 1].addr < last)
    ensures Swept(b0, b, p + 1, q + 1, last, size)
  {
    hide Span;
    assert b[p] == b0[q];
    forall i: nat, j: nat | j <= q + 1 ensures !Joins(b0, i, j, last, size) {
      assert j <= q ==> !Joins(b0, i, j, last, size);
    }
  }

  /** The cursor passes a coalesced run. */
  lemma SweepJoin(b0: seq<Block>, b: seq<Block>, b1: seq<Block>, lo: int, hi: int, p: nat, q: nat, m: nat, last: int,
        size: nat)
    requires Swept(b0, b, p, q, last, size) && p < |b| && b[p].free && b[p].addr < last && Tiled(b0, lo, hi)
    requires CoalescedBy(Marked(b, p, false), b1, p, m) && m > 0 && b1[p].size <= size && b[p + m].addr < last
    requires p + 1 < |b1| ==> !b1[p + 1].free || b1[p + 1].addr >= last
    ensures Swept(b0, Marked(b1, p, true), p + 1, q + m + 1, last, size)
  {
    hide NoJoinBelow; hide Span; hide Tiled; hide NoneFits; hide FreeRun; hide NoPair;
    var b2, bm := Marked(b1, p, true), Marked(b, p, false);
    assert b0[q] == b[p] && b0[q + m] == b[p + m] == bm[p + m];
    JoinNoPair(b0, b, b1, p, q, m, last, size);
    SameSpan(b0, bm, p, q, m);
    JoinNoJoin(b0, b, lo, hi, p, q, m, last, size);
  }

  lemma SameSpan(b0: seq<Block>, b: seq<Block>, p: nat, q: nat, m: nat)
    requires p + m < |b| && q + m < |b0| && b0[q].addr == b[p].addr && b0[q + m].End() == b[p + m].End()
    ensures Span(b0, q, q + m + 1) == Span(b, p, p + m + 1)
  {
  }

  lemma JoinNoPair(b0: seq<Block>, b: seq<Block>, b1: seq<Block>, p: nat, q: nat, m: nat, last: int, size: nat)
    requires Swept(b0, b, p, q, last, size) && p < |b| && b[p].free && b[p].addr < last
    requires CoalescedBy(Marked(b, p, false), b1, p, m)
    requires p + 1 < |b1| ==> !b1[p + 1].free || b1[p + 1].addr >= last
    ensures NoPair(Marked(b1, p, true), p + 1, last)
  {
    hide NoJoinBelow; hide Span;
    var b2 := Marked(b1, p, true);
    forall i | 1 <= i < |b2| && i <= p + 1 ensures !(b2[i - 1].free && b2[i].free && b2[i].addr < last) {
      if i <= p {
        assert !(b[i - 1].free && b[i].free && b[i].addr < last);
        assert b2[i - 1] == b[i - 1] && b2[i].addr == b[i].addr;
      }
    }
  }

  lemma JoinNoJoin(b0: seq<Block>, b: seq<Block>, lo: int, hi: int, p: nat, q: nat, m: nat, last: int, size: nat)
    requires Swept(b0, b, p, q, last, size) && p < |b| && b[p].free && b[p].addr < last && Tiled(b0, lo, hi)
    requires q + m < |b0| && Span(b0, q, q + m + 1) <= size
    ensures NoJoinBelow(b0, q + m + 1, last, size)
  {
    hide Span; hide Tiled;
    assert b0[q] == b[p];
    forall i: nat, j: nat | j <= q + m + 1 ensures !Joins(b0, i, j, last, size) {
      if Joins(b0, i, j, last, size) {
        if i >= q {
          SpanWithin(b0, lo, hi, q, q + m + 1, i, j);
        }
      }
    }
  }

  /** At the end of the sweep no run is left that joining could have made big enough. */
  lemma SweepEnd(b0: seq<Block>, b: seq<Block>, lo: int, hi: int, p: nat, q: nat, last: int, size: nat)
    requires Swept(b0, b, p, q, last, size) && Tiled(b, lo, hi) && NoneFits(b0, size) && hi == last + OVERHEAD
    requires p < |b| ==> b[p].addr >= last
    ensures !Joinable(b0, last, size) && (FreePair(b) <==> FreeAtLast(b0, last))
    ensures forall i | 0 <= i < |b| && b[i].free :: b[i].size <= size
  {
    hide Tiled; hide Span;
    SweepPair(b0, b, lo, hi, p, q, last, size);
    if p < |b| {
      Inside(b, lo, hi, p);
      if p + 1 < |b| {
        Apart(b, lo, hi, p, p + 1);
        Inside(b, lo, hi, p + 1);
      }
      assert b[p] == b0[q];
    }
    forall i: nat, j: nat ensures !Joins(b0, i, j, last, size) {
    }
  }

  /** A free pair that is left is one at the very end, and it was there before. */
  lemma SweepPair(b0: seq<Block>, b: seq<Block>, lo: int, hi: int, p: nat, q: nat, last: int, size: nat)
    requires Swept(b0, b, p, q, last, size) && Tiled(b, lo, hi) && hi == last + OVERHEAD
             && (p < |b| ==> b[p].addr >= last)
    ensures FreePair(b) <==> FreeAtLast(b0, last)
  {
    hide Tiled; hide NoJoinBelow;
    if p < |b| {
      Inside(b, lo, hi, p);
      if p + 1 < |b| {
        Apart(b, lo, hi, p, p + 1);
        Inside(b, lo, hi, p + 1);
      }
      assert b[p] == b0[q];
      if p > 0 && b[p - 1].free && b[p].free {
        assert FreePair(b);
      }
    }
    forall i | 1 <= i < |b| && i < p ensures !(b[i - 1].free && b[i].free) {
      if i < p - 1 {
        Apart(b, lo, hi, i, p - 1);
      }
    }
  }

  /** The run whose joining exceeded `size`. */
  lemma SweepFound(b0: seq<Block>, b: seq<Block>, b1: seq<Block>, p: nat, q: nat, m: nat, last: int, size: nat)
    requires Swept(b0, b, p, q, last, size) && p < |b| && b[p].free
    requires CoalescedBy(Marked(b, p, false), b1, p, m) && m > 0 && b1[p].size > size && b[p + m].addr < last
    ensures Joinable(b0, last, size)
  {
    hide NoJoinBelow; hide Span; hide NoneFits; hide NoPair;
    var bm := Marked(b, p, false);
    forall t | q <= t < q + m + 1 ensures b0[t].free {
      assert b0[t] == b[t - q + p];
      if t != q {
        assert bm[t - q + p].free;
      }
    }
    assert b0[q] == b[p] && b0[q + m] == b[p + m] == bm[p + m];
    SameSpan(b0, bm, p, q, m);
    assert Joins(b0, q, q + m + 1, last, size);
  }

  /** No empty fragment, no free pair at the very end. */
  lemma NoFreeNeighbours(b: seq<Block>, lo: int, hi: int, last: int)
    requires Tiled(b, lo, hi) && hi == last + OVERHEAD && AllPositive(b)
    ensures !FreeAtLast(b, last)
  {
    if |b| > 0 {
      Inside(b, lo, hi, |b| - 1);
    }
  }

  /** An empty last fragment and a free neighbour: a request the sweep cannot serve, and it leaves the pair. */
  lemma LastPairStays(a: int)
    requires a > 0
    ensures var b := [Block(a, 0, true), Block(a + 24, 0, true)];
            Tiled(b, a, a + 48) && NoneFits(b, 8) && !Joinable(b, a + 24, 8) && FreeAtLast(b, a + 24) && FreePair(b)
  {
    var b, last := [Block(a, 0, true), Block(a + 24, 0, true)], a + 24;
    assert b[0].free && b[1].free;
    forall i: nat, j: nat ensures !Joins(b, i, j, last, 8) {
    }
  }

  /** The joined size must exceed the request: two free neighbours that together fit it exactly are passed over. */
  lemma ExactFitIsRefused(a: int)
    requires a > 0
    ensures var b := [Block(a, 40, true), Block(a + 64, 40, true), Block(a + 128, 72, false)];
            Tiled(b, a, a + 224) && Span(b, 0, 2) == 104 && NoneFits(b, 104) && !Joinable(b, a + 200, 104)
            && Joinable(b, a + 200, 96)
  {
    var b, last := [Block(a, 40, true), Block(a + 64, 40, true), Block(a + 128, 72, false)], a + 200;
    assert !b[2].free;
    forall i: nat, j: nat ensures !Joins(b, i, j, last, 104) {
    }
    assert Joins(b, 0, 2, a + 200, 96);
  }
}
