/** Splitting off a rest, absorbing a neighbour, and coalescing a run of free fragments. */
module FmJoin {
  import opened FmHash
  import opened FmBlocks
  import opened FmCount

  /** The busy fragment at `k` with its free right neighbour joined to it. */
  ghost function Absorbed(blocks: seq<Block>, k: nat): seq<Block>
    requires k + 1 < |blocks|
  {
    Merged(Marked(blocks, k + 1, false), k)
  }

  /** The busy fragment at `k` cut to `n` if the rest is worth a fragment of its own. */
  ghost function Split(blocks: seq<Block>, k: nat, n: nat): seq<Block>
    requires k < |blocks| && n <= blocks[k].size
  {
    var rest := blocks[k].size - n;
    if rest > OVERHEAD + OPTIMIZE || rest >= OVERHEAD + n then Marked(Cut(blocks, k, n), k + 1, true) else blocks
  }

  /** A fragment of size `s` serves a request for `n`, and wastes at most OPTIMIZE bytes and a header, and less than the
      request and a header. */
  predicate Tight(s: nat, n: nat) {
    n <= s < 2 * n + OVERHEAD && s <= n + OVERHEAD + OPTIMIZE
  }

  /** And what is split off is no crumb: it could serve the request again, or it is a large fragment. */
  lemma SplitWorth(blocks: seq<Block>, k: nat, n: nat)
    requires k < |blocks| && n <= blocks[k].size
    ensures |Split(blocks, k, n)| in {|blocks|, |blocks| + 1}
    ensures var b := Split(blocks, k, n);
            if |b| == |blocks| then b == blocks && Tight(blocks[k].size, n)
            else b[k].size == n && b[k + 1].free && (n <= b[k + 1].size || b[k + 1].size > OPTIMIZE)
  {
    hide Cut;
    if n + OVERHEAD <= blocks[k].size {
      CutAt(blocks, k, n, k);
      CutAt(blocks, k, n, k + 1);
    }
  }

  lemma AllKeptUnmarked(m: Bytes, m': Bytes, blocks: seq<Block>, k: nat, free: bool)
    requires k < |blocks| && AllKept(m, m', Marked(blocks, k, free))
    ensures AllKept(m, m', blocks)
  {
    forall i | 0 <= i < |blocks| ensures KeptIn(m, m', blocks[i]) {
      assert KeptIn(m, m', Marked(blocks, k, free)[i]);
    }
  }

  lemma AbsorbedAt(blocks: seq<Block>, k: nat, i: nat)
    requires k + 1 < |blocks| && i + 1 < |blocks|
    ensures |Absorbed(blocks, k)| == |blocks| - 1
    ensures Absorbed(blocks, k)[i] ==
            if i == k then Block(blocks[k].addr, blocks[k].size + OVERHEAD + blocks[k + 1].size, false)
            else blocks[if i < k then i else i + 1]
  {
    MergedAt(Marked(blocks, k + 1, false), k, i);
  }

  /** Nothing but the absorbing fragment changes among the live ones. */
  lemma AbsorbedLive(blocks: seq<Block>, lo: int, hi: int, k: nat)
    requires Tiled(blocks, lo, hi) && k + 1 < |blocks| && !blocks[k].free && blocks[k + 1].free
    ensures |Absorbed(blocks, k)| == |blocks| - 1
    ensures Live(Absorbed(blocks, k)) - {Absorbed(blocks, k)[k]} == Live(blocks) - {blocks[k]}
  {
    hide Absorbed; hide Tiled;
    var b := Absorbed(blocks, k);
    AbsorbedAt(blocks, k, k);
    forall x | x in Live(b) && x != b[k] ensures x in Live(blocks) && x != blocks[k] {
      var i :| 0 <= i < |b| && b[i] == x;
      AbsorbedAt(blocks, k, i);
      var o := if i < k then i else i + 1;
      if x == blocks[k] {
        SameAddr(blocks, lo, hi, o, k);
      }
    }
    forall x | x in Live(blocks) && x != blocks[k] ensures x in Live(b) && x != b[k] {
      var o :| 0 <= o < |blocks| && blocks[o] == x;
      AbsorbedAt(blocks, k, if o < k then o else o - 1);
      if x == b[k] {
        SameAddr(blocks, lo, hi, o, k);
      }
    }
  }

  /** A split keeps the fragment's place, gives it at least `n` bytes, and wastes less than `n + OVERHEAD`. */
  lemma SplitLive(blocks: seq<Block>, lo: int, hi: int, k: nat, n: nat)
    requires Tiled(blocks, lo, hi) && k < |blocks| && !blocks[k].free && n <= blocks[k].size && n % ROUNDTO == 0
    ensures var b := Split(blocks, k, n);
            |b| > k && b[k].addr == blocks[k].addr && !b[k].free && Tight(b[k].size, n)
            && b[k].size <= blocks[k].size && (b[k].size == n || b == blocks)
            && Live(b) - {b[k]} == Live(blocks) - {blocks[k]}
            && forall i | 0 <= i < k :: b[i] == blocks[i]
  {
    var rest := blocks[k].size - n;
    if rest > OVERHEAD + OPTIMIZE || rest >= OVERHEAD + n {
      SplitCutLive(blocks, lo, hi, k, n);
    }
  }

  lemma SplitCutLive(blocks: seq<Block>, lo: int, hi: int, k: nat, n: nat)
    requires Tiled(blocks, lo, hi) && k < |blocks| && !blocks[k].free && n + OVERHEAD <= blocks[k].size
             && n % ROUNDTO == 0
    ensures |Cut(blocks, k, n)| == |blocks| + 1
    ensures var b := Marked(Cut(blocks, k, n), k + 1, true);
            b[k] == Block(blocks[k].addr, n, false) && Live(b) - {b[k]} == Live(blocks) - {blocks[k]}
            && forall i | 0 <= i < k :: b[i] == blocks[i]
  {
    hide Cut; hide Tiled; hide Live;
    CutAt(blocks, k, n, k);
    CutAt(blocks, k, n, k + 1);
    var c := Cut(blocks, k, n);
    CutTiled(blocks, k, n, lo, hi);
    LiveCut(blocks, lo, hi, k, n);
    LiveMarked(c, lo, hi, k + 1, true);
    CutFresh(blocks, lo, hi, k, n);
    forall i | 0 <= i < k ensures c[i] == blocks[i] {
      CutAt(blocks, k, n, i);
    }
  }

  lemma CutFresh(blocks: seq<Block>, lo: int, hi: int, k: nat, n: nat)
    requires Tiled(blocks, lo, hi) && k < |blocks| && !blocks[k].free && n + OVERHEAD <= blocks[k].size
             && n % ROUNDTO == 0
    ensures Block(blocks[k].addr, n, false) !in Live(blocks) - {blocks[k]}
    ensures |Cut(blocks, k, n)| == |blocks| + 1 && Cut(blocks, k, n)[k + 1] !in Live(blocks)
  {
    hide Cut; hide Tiled;
    CutAt(blocks, k, n, k + 1);
    forall x | x in blocks ensures x.addr != RestAddr(blocks, k, n) && (x.addr == blocks[k].addr ==> x == blocks[k]) {
      var o :| 0 <= o < |blocks| && blocks[o] == x;
      NewAddr(blocks, lo, hi, k, n, o);
      if x.addr == blocks[k].addr {
        SameAddr(blocks, lo, hi, o, k);
      }
    }
  }

  /** Taking a free fragment makes it, and only it, live. */
  lemma TakenLive(blocks: seq<Block>, lo: int, hi: int, k: nat)
    requires Tiled(blocks, lo, hi) && k < |blocks| && blocks[k].free
    ensures var b := Marked(blocks, k, false); Live(b) - {b[k]} == Live(blocks)
  {
    hide Tiled;
    LiveMarked(blocks, lo, hi, k, false);
    forall x | x in Live(blocks) ensures x.addr != blocks[k].addr {
      var o :| 0 <= o < |blocks| && blocks[o] == x;
      if x.addr == blocks[k].addr {
        SameAddr(blocks, lo, hi, o, k);
      }
    }
  }

  /** No fragment is empty. */
  ghost predicate AllPositive(blocks: seq<Block>) {
    forall i | 0 <= i < |blocks| :: blocks[i].size > 0
  }

  lemma AbsorbedPositive(blocks: seq<Block>, k: nat)
    requires AllPositive(blocks) && k + 1 < |blocks|
    ensures AllPositive(Absorbed(blocks, k))
  {
    hide Absorbed;
    AbsorbedAt(blocks, k, k);
    forall i | 0 <= i < |Absorbed(blocks, k)| ensures Absorbed(blocks, k)[i].size > 0 {
      AbsorbedAt(blocks, k, i);
    }
  }

  lemma SplitPositive(blocks: seq<Block>, k: nat, n: nat)
    requires AllPositive(blocks) && k < |blocks| && 0 < n <= blocks[k].size
    ensures AllPositive(Split(blocks, k, n))
  {
    hide Cut;
    var b := Split(blocks, k, n);
    forall i | 0 <= i < |b| ensures b[i].size > 0 {
      if b != blocks {
        CutAt(blocks, k, n, 0);
        CutAt(blocks, k, n, i);
      }
    }
  }

  // ---------- runs of free fragments ----------

  ghost predicate FreeRun(blocks: seq<Block>, i: nat, j: nat) {
    i < j <= |blocks| && forall t | i <= t < j :: blocks[t].free
  }

  /** The payload the fragments of `[i, j)` have as one. */
  ghost function Span(blocks: seq<Block>, i: nat, j: nat): int
    requires i < j <= |blocks|
  {
    blocks[j - 1].End() - blocks[i].addr - OVERHEAD
  }

  lemma SpanWithin(blocks: seq<Block>, lo: int, hi: int, i: nat, j: nat, i': nat, j': nat)
    requires Tiled(blocks, lo, hi) && i <= i' < j' <= j <= |blocks|
    ensures Span(blocks, i', j') <= Span(blocks, i, j)
  {
    hide Tiled;
    if i < i' {
      Apart(blocks, lo, hi, i, i');
    }
    if j' < j {
      Apart(blocks, lo, hi, j' - 1, j - 1);
    }
  }

  /** Two or more adjacent free fragments that together exceed `size`, where a fragment at `last` never joins. */
  ghost predicate Joins(blocks: seq<Block>, i: nat, j: nat, last: int, size: nat) {
    i + 2 <= j && FreeRun(blocks, i, j) && blocks[j - 1].addr < last && Span(blocks, i, j) > size
  }

  ghost predicate Joinable(blocks: seq<Block>, last: int, size: nat) {
    exists i: nat, j: nat :: Joins(blocks, i, j, last, size)
  }

  /** No two adjacent fragments are free, up to position `p`, where a fragment at `last` never joins. */
  ghost predicate NoPair(blocks: seq<Block>, p: nat, last: int) {
    forall i | 1 <= i < |blocks| && i <= p :: !(blocks[i - 1].free && blocks[i].free && blocks[i].addr < last)
  }

  /** `b` is `b0` with the `m` free fragments behind the busy one at `p` joined to it. */
  ghost predicate CoalescedBy(b0: seq<Block>, b: seq<Block>, p: nat, m: nat) {
    p + m < |b0| && |b| == |b0| - m
    && b[p].addr == b0[p].addr && b[p].size == Span(b0, p, p + m + 1) && !b[p].free
    && (forall i | 0 <= i < p :: b[i] == b0[i])
    && (forall i | p < i < |b| :: b[i] == b0[i + m])
    && forall t | p < t <= p + m :: b0[t].free
  }

  /** The `m` fragments behind the one at `p` start below `last`. */
  ghost predicate RunBelow(b0: seq<Block>, p: nat, m: nat, last: int) {
    forall t | p < t <= p + m && t < |b0| :: b0[t].addr < last
  }

  lemma RunNone(b0: seq<Block>, p: nat, last: int)
    ensures RunBelow(b0, p, 0, last)
  {
  }

  lemma RunMore(b0: seq<Block>, b: seq<Block>, p: nat, m: nat, last: int)
    requires CoalescedBy(b0, b, p, m) && RunBelow(b0, p, m, last) && p + 1 < |b| && b[p + 1].addr < last
    ensures RunBelow(b0, p, m + 1, last)
  {
    assert b[p + 1] == b0[p + 1 + m];
  }

  lemma CoalesceMore(b0: seq<Block>, b: seq<Block>, lo: int, hi: int, p: nat, m: nat)
    requires Tiled(b0, lo, hi) && CoalescedBy(b0, b, p, m) && p + 1 < |b| && b[p + 1].free
    ensures CoalescedBy(b0, Absorbed(b, p), p, m + 1)
  {
    hide Absorbed; hide Tiled; hide FreeRun;
    var c := Absorbed(b, p);
    AbsorbedAt(b, p, p);
    EndsAtNext(b0, lo, hi, p + m);
    SpanWithin(b0, lo, hi, p, p + m + 1, p, p + 1);
    forall i | 0 <= i < |c| && i != p ensures c[i] == b0[if i < p then i else i + m + 1] {
      AbsorbedAt(b, p, i);
    }
  }

  lemma CoalesceNone(b0: seq<Block>, p: nat)
    requires p < |b0| && !b0[p].free
    ensures CoalescedBy(b0, b0, p, 0)
  {
  }

  lemma CoalescedFacts(b0: seq<Block>, b: seq<Block>, lo: int, hi: int, p: nat, m: nat)
    requires Tiled(b0, lo, hi) && CoalescedBy(b0, b, p, m)
    ensures p < |b0| && p < |b| && b[p].addr == b0[p].addr && b0[p].size <= b[p].size && !b[p].free
  {
    hide Tiled; hide Span;
    SpanWithin(b0, lo, hi, p, p + m + 1, p, p + 1);
    OneSpan(b0, p);
  }

  lemma OneSpan(b: seq<Block>, p: nat)
    requires p < |b|
    ensures Span(b, p, p + 1) == b[p].size
  {
  }

  lemma MarkedBack(b: seq<Block>, k: nat)
    requires k < |b| && !b[k].free
    ensures Marked(Marked(b, k, true), k, false) == b && |Marked(b, k, true)| == |b|
    ensures Marked(b, k, true)[k] == b[k].(free := true) && forall i | 0 <= i < |b|
            && i != k :: Marked(b, k, true)[i] == b[i]
  {
  }

  lemma KeptRefl(m: Bytes, s: set<Block>)
    ensures Kept(m, m, s)
  {
  }

  /** A change that spares every payload of the arena spares the chosen live ones. */
  lemma KeptStep(m0: Bytes, m1: Bytes, m2: Bytes, blocks: seq<Block>, s: set<Block>)
    requires Kept(m0, m1, s) && AllKept(m1, m2, blocks) && s <= Live(blocks)
    ensures Kept(m0, m2, s)
  {
    hide AllKept; hide KeptIn; hide Live;
    AllKeptLive(m1, m2, blocks);
    KeptChain(m0, m1, m2, s);
  }

  lemma KeptMarked(m0: Bytes, m1: Bytes, m2: Bytes, blocks: seq<Block>, k: nat, s: set<Block>)
    requires k < |blocks| && Kept(m0, m1, s) && AllKept(m1, m2, Marked(blocks, k, true)) && s <= Live(blocks)
    ensures Kept(m0, m2, s)
  {
    hide AllKept; hide Live; hide Kept;
    AllKeptUnmarked(m1, m2, blocks, k, true);
    KeptStep(m0, m1, m2, blocks, s);
  }

  lemma MarkedPositive(blocks: seq<Block>, k: nat, free: bool)
    requires k < |blocks| && AllPositive(blocks)
    ensures AllPositive(Marked(blocks, k, free))
  {
  }

  /** What keeps every payload after a split keeps those of the fragments that were there before, but for the one
      split. */
  lemma KeptSplit(m0: Bytes, m1: Bytes, m2: Bytes, blocks: seq<Block>, k: nat, n: nat, s: set<Block>)
    requires k < |blocks| && n <= blocks[k].size && Kept(m0, m1, s) && AllKept(m1, m2, Split(blocks, k, n))
    requires s <= Live(blocks) - {blocks[k]}
    ensures Kept(m0, m2, s)
  {
    hide Cut; hide KeptIn; hide Live; hide AllKept;
    var b := Split(blocks, k, n);
    forall x | x in s ensures KeptIn(m1, m2, x) {
      var o := IndexOf(blocks, x);
      if b != blocks {
        CutAt(blocks, k, n, if o < k then o else o + 1);
        AllKeptAt(m1, m2, b, if o < k then o else o + 1);
      } else {
        AllKeptAt(m1, m2, b, o);
      }
    }
    KeptChain(m0, m1, m2, s);
  }

  lemma IndexOf(blocks: seq<Block>, x: Block) returns (o: nat)
    requires x in Live(blocks)
    ensures o < |blocks| && blocks[o] == x
  {
    o :| 0 <= o < |blocks| && blocks[o] == x;
  }

  lemma AllKeptAt(m: Bytes, m': Bytes, blocks: seq<Block>, i: nat)
    requires AllKept(m, m', blocks) && i < |blocks|
    ensures KeptIn(m, m', blocks[i])
  {
  }

  lemma LiveAt(blocks: seq<Block>, b: Block) returns (k: nat)
    requires b in Live(blocks)
    ensures k < |blocks| && blocks[k] == b && !blocks[k].free
  {
    k := IndexOf(blocks, b);
  }

  lemma InsideRefl(m: Bytes, b: Block)
    ensures KeptIn(m, m, b)
  {
  }

  /** The payload of `b` is kept when that of a fragment that has grown from it is. */
  lemma KeptInGrows(m0: Bytes, m1: Bytes, m2: Bytes, b: Block, grown: Block)
    requires KeptIn(m0, m1, b) && KeptIn(m1, m2, grown) && grown.addr == b.addr && b.size <= grown.size
    ensures KeptIn(m0, m2, b)
  {
    forall x | b.addr + OVERHEAD <= x < b.End() ensures SameAt(m0, m2, x) {
      assert SameAt(m0, m1, x) && SameAt(m1, m2, x);
    }
  }

  lemma KeptAlso(m: Bytes, m': Bytes, s: set<Block>, b: Block)
    requires Kept(m, m', s - {b}) && KeptIn(m, m', b)
    ensures Kept(m, m', s)
  {
    hide KeptIn;
    forall x | x in s ensures KeptIn(m, m', x) {
      if x != b {
        assert x in s - {b};
      }
    }
  }

  /** Payloads kept while the fragment at `k` grew and then while it was put on its list. */
  lemma FreedKept(m0: Bytes, m1: Bytes, m2: Bytes, b0: seq<Block>, b1: seq<Block>, k: nat)
    requires k < |b0| && k < |b1| && b0[k].addr == b1[k].addr && b0[k].size <= b1[k].size && !b0[k].free
    requires Live(b1) - {b1[k]} == Live(b0) - {b0[k]}
    requires Kept(m0, m1, Live(b0)) && AllKept(m1, m2, b1)
    ensures Kept(m0, m2, Live(b0))
  {
    hide KeptIn; hide AllKept;
    AllKeptAt(m1, m2, b1, k);
    assert b0[k] in Live(b0);
    KeptInGrows(m0, m1, m2, b0[k], b1[k]);
    KeptStep(m0, m1, m2, b1, Live(b0) - {b0[k]});
    KeptAlso(m0, m2, Live(b0), b0[k]);
  }
}
