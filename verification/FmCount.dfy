/** What the elementary changes do to the byte counts, to the set of live fragments, and to the payload bytes. */
module FmCount {
  import opened FmHash
  import opened FmBlocks

  /** Free bytes. */
  ghost function FreeSum(blocks: seq<Block>): nat {
    if blocks == [] then 0
    else (if blocks[0].free then blocks[0].size else 0) + FreeSum(blocks[1..])
  }

  /** Free bytes in fragments above the large limit. */
  ghost function LargeSum(blocks: seq<Block>): nat {
    if blocks == [] then 0
    else (if blocks[0].free && blocks[0].size > LARGE_LIMIT then blocks[0].size else 0) + LargeSum(blocks[1..])
  }

  lemma {:induction false} SumsAppend(a: seq<Block>, b: seq<Block>)
    ensures FreeSum(a + b) == FreeSum(a) + FreeSum(b) && LargeSum(a + b) == LargeSum(a) + LargeSum(b)
  {
    if a == [] {
      assert a + b == b;
    } else {
      assert (a + b)[1..] == a[1..] + b;
      SumsAppend(a[1..], b);
    }
  }

  lemma SumsThree(a: seq<Block>, m: seq<Block>, b: seq<Block>)
    ensures FreeSum(a + m + b) == FreeSum(a) + FreeSum(m) + FreeSum(b)
    ensures LargeSum(a + m + b) == LargeSum(a) + LargeSum(m) + LargeSum(b)
  {
    SumsAppend(a + m, b);
    SumsAppend(a, m);
  }

  lemma SumsOne(b: Block)
    ensures FreeSum([b]) == if b.free then b.size else 0
    ensures LargeSum([b]) == if b.free && b.size > LARGE_LIMIT then b.size else 0
  {
  }

  lemma SumsMarked(blocks: seq<Block>, k: nat, free: bool)
    requires k < |blocks| && blocks[k].free != free
    ensures |Marked(blocks, k, free)| == |blocks|
    ensures var d := blocks[k].size; var large := if d > LARGE_LIMIT then d else 0;
            var b := Marked(blocks, k, free);
            if free then FreeSum(b) == FreeSum(blocks) + d && LargeSum(b) == LargeSum(blocks) + large
            else FreeSum(blocks) == FreeSum(b) + d && LargeSum(blocks) == LargeSum(b) + large
  {
    hide FreeSum; hide LargeSum;
    var a, m, b := blocks[..k], blocks[k], blocks[k + 1..];
    assert blocks == a + [m] + b;
    assert Marked(blocks, k, free) == a + [m.(free := free)] + b;
    SumsThree(a, [m], b);
    SumsThree(a, [m.(free := free)], b);
    SumsOne(m);
    SumsOne(m.(free := free));
  }

  lemma SumsMerged(blocks: seq<Block>, k: nat)
    requires k + 1 < |blocks| && !blocks[k].free && !blocks[k + 1].free
    ensures FreeSum(Merged(blocks, k)) == FreeSum(blocks) && LargeSum(Merged(blocks, k)) == LargeSum(blocks)
    ensures |Merged(blocks, k)| == |blocks| - 1
  {
    hide FreeSum; hide LargeSum;
    var a, m, n, b := blocks[..k], blocks[k], blocks[k + 1], blocks[k + 2..];
    assert blocks == a + [m, n] + b;
    SumsThree(a, [m, n], b);
    assert [m, n] == [m] + [n];
    SumsAppend([m], [n]);
    SumsOne(m);
    SumsOne(n);
    MergedAt(blocks, k, k);
    SumsThree(a, [Merged(blocks, k)[k]], b);
    SumsOne(Merged(blocks, k)[k]);
  }

  lemma SumsCut(blocks: seq<Block>, k: nat, size: nat)
    requires k < |blocks| && !blocks[k].free && size + OVERHEAD <= blocks[k].size
    ensures FreeSum(Cut(blocks, k, size)) == FreeSum(blocks) && LargeSum(Cut(blocks, k, size)) == LargeSum(blocks)
    ensures |Cut(blocks, k, size)| == |blocks| + 1
  {
    hide FreeSum; hide LargeSum;
    var a, m, b := blocks[..k], blocks[k], blocks[k + 1..];
    CutAt(blocks, k, size, k);
    CutAt(blocks, k, size, k + 1);
    var x, y := Cut(blocks, k, size)[k], Cut(blocks, k, size)[k + 1];
    assert blocks == a + [m] + b;
    assert Cut(blocks, k, size) == a + [x, y] + b;
    SumsThree(a, [m], b);
    SumsThree(a, [x, y], b);
    assert [x, y] == [x] + [y];
    SumsAppend([x], [y]);
    SumsOne(m);
    SumsOne(x);
    SumsOne(y);
  }

  lemma {:induction false} SumAtLeast(blocks: seq<Block>, k: nat)
    requires k < |blocks| && blocks[k].free
    ensures FreeSum(blocks) >= blocks[k].size
    ensures blocks[k].size > LARGE_LIMIT ==> LargeSum(blocks) >= blocks[k].size
  {
    if k > 0 {
      SumAtLeast(blocks[1..], k - 1);
    }
  }

  /** Live bytes. */
  ghost function LiveSum(blocks: seq<Block>): nat {
    if blocks == [] then 0
    else (if blocks[0].free then 0 else blocks[0].size) + LiveSum(blocks[1..])
  }

  /** Payload bytes and headers make up the whole arena. */
  lemma {:induction false} TotalBytes(blocks: seq<Block>, lo: int, hi: int)
    requires Tiled(blocks, lo, hi)
    ensures FreeSum(blocks) + LiveSum(blocks) + |blocks| * OVERHEAD == hi - lo
  {
    assert blocks[0].End() == NextAddr(blocks, 0, hi);
    if |blocks| > 1 {
      var rest := blocks[1..];
      forall i | 0 <= i < |rest| ensures rest[i].End() == NextAddr(rest, i, hi) && rest[i].size % ROUNDTO == 0 {
        assert blocks[i + 1].End() == NextAddr(blocks, i + 1, hi);
      }
      assert rest[0].addr > lo;
      TotalBytes(rest, rest[0].addr, hi);
    }
  }

  // ---------- live fragments ----------

  lemma LiveMarked(blocks: seq<Block>, lo: int, hi: int, k: nat, free: bool)
    requires Tiled(blocks, lo, hi) && k < |blocks| && blocks[k].free != free
    ensures Live(Marked(blocks, k, free)) == if free then Live(blocks) - {blocks[k]}
              else Live(blocks) + {blocks[k].(free := false)}
  {
    var b := Marked(blocks, k, free);
    forall x ensures x in Live(b) <==> x in (if free then Live(blocks) - {blocks[k]}
      else Live(blocks) + {blocks[k].(free := false)}) {
      if x in Live(b) {
        var i :| 0 <= i < |b| && b[i] == x;
        if i != k {
          assert blocks[i] == x;
          if x == blocks[k] {
            SameAddr(blocks, lo, hi, i, k);
          }
        }
      }
      if x in Live(blocks) {
        var i :| 0 <= i < |blocks| && blocks[i] == x;
        if i != k {
          assert b[i] == x;
        }
      }
      assert b[k] in b;
    }
  }

  lemma LiveCut(blocks: seq<Block>, lo: int, hi: int, k: nat, size: nat)
    requires Tiled(blocks, lo, hi) && k < |blocks| && !blocks[k].free && size + OVERHEAD <= blocks[k].size
    ensures Live(Cut(blocks, k, size)) ==
            Live(blocks) - {blocks[k]} + {Block(blocks[k].addr, size, false), Cut(blocks, k, size)[k + 1]}
  {
    hide Cut; hide Tiled;
    var b := Cut(blocks, k, size);
    CutAt(blocks, k, size, k);
    CutAt(blocks, k, size, k + 1);
    assert b[k] in b && b[k + 1] in b;
    forall x | x in Live(b) && x != b[k] && x != b[k + 1] ensures x in Live(blocks) && x != blocks[k] {
      var i :| 0 <= i < |b| && b[i] == x;
      CutKeeps(blocks, lo, hi, k, size, i);
    }
    forall x | x in Live(blocks) && x != blocks[k] ensures x in Live(b) {
      var o :| 0 <= o < |blocks| && blocks[o] == x;
      CutAt(blocks, k, size, if o < k then o else o + 1);
    }
  }

  lemma CutKeeps(blocks: seq<Block>, lo: int, hi: int, k: nat, size: nat, i: nat)
    requires Tiled(blocks, lo, hi) && k < |blocks| && size + OVERHEAD <= blocks[k].size && i <= |blocks| && i != k
             && i != k + 1
    ensures |Cut(blocks, k, size)| == |blocks| + 1
    ensures var x := Cut(blocks, k, size)[i]; x in blocks && x != blocks[k]
  {
    hide Cut; hide Tiled;
    CutAt(blocks, k, size, i);
    var o := if i < k then i else i - 1;
    if blocks[o].addr == blocks[k].addr {
      SameAddr(blocks, lo, hi, o, k);
    }
  }

  /** The payloads of two live fragments are disjoint, inside the arena, and clear of every header. */
  lemma LiveDisjoint(blocks: seq<Block>, lo: int, hi: int, x: Block, y: Block)
    requires Tiled(blocks, lo, hi) && x in Live(blocks) && y in blocks && x != y
    ensures x.End() <= y.addr || y.End() <= x.addr
    ensures lo <= x.addr && x.End() <= hi
  {
    hide Tiled;
    var i :| 0 <= i < |blocks| && blocks[i] == x;
    var j :| 0 <= j < |blocks| && blocks[j] == y;
    Inside(blocks, lo, hi, i);
    if i < j {
      Apart(blocks, lo, hi, i, j);
    } else {
      Apart(blocks, lo, hi, j, i);
    }
  }

  // ---------- payload bytes ----------

  type Bytes = map<int, int>

  /** Writing a header destroys the bytes it covers. */
  function Clobber(m: Bytes, a: int): Bytes {
    map x | x in m && !(a <= x < a + OVERHEAD) :: m[x]
  }

  ghost predicate SameAt(m: Bytes, m': Bytes, x: int) {
    (x in m <==> x in m') && (x in m ==> m[x] == m'[x])
  }

  ghost predicate SameRange(m: Bytes, m': Bytes, lo: int, hi: int) {
    forall x | lo <= x < hi :: SameAt(m, m', x)
  }

  /** The payload of a fragment is untouched. */
  ghost predicate KeptIn(m: Bytes, m': Bytes, b: Block) {
    SameRange(m, m', b.addr + OVERHEAD, b.End())
  }

  ghost predicate AllKept(m: Bytes, m': Bytes, blocks: seq<Block>) {
    forall i | 0 <= i < |blocks| :: KeptIn(m, m', blocks[i])
  }

  ghost predicate Kept(m: Bytes, m': Bytes, s: set<Block>) {
    forall b | b in s :: KeptIn(m, m', b)
  }

  /** A header write at a fragment of the arena spares every payload of the arena. */
  lemma ClobberSpares(m: Bytes, blocks: seq<Block>, lo: int, hi: int, k: nat)
    requires Tiled(blocks, lo, hi) && k < |blocks|
    ensures AllKept(m, Clobber(m, blocks[k].addr), blocks)
  {
    forall i | 0 <= i < |blocks| ensures KeptIn(m, Clobber(m, blocks[k].addr), blocks[i]) {
      if i < k {
        Apart(blocks, lo, hi, i, k);
      } else if k < i {
        Apart(blocks, lo, hi, k, i);
      }
    }
  }

  lemma AllKeptChain(m0: Bytes, m1: Bytes, m2: Bytes, blocks: seq<Block>)
    requires AllKept(m0, m1, blocks) && AllKept(m1, m2, blocks)
    ensures AllKept(m0, m2, blocks)
  {
    forall i | 0 <= i < |blocks| ensures KeptIn(m0, m2, blocks[i]) {
      assert KeptIn(m0, m1, blocks[i]) && KeptIn(m1, m2, blocks[i]);
      forall x | blocks[i].addr + OVERHEAD <= x < blocks[i].End() ensures SameAt(m0, m2, x) {
        assert SameAt(m0, m1, x) && SameAt(m1, m2, x);
      }
    }
  }

  lemma KeptChain(m0: Bytes, m1: Bytes, m2: Bytes, s: set<Block>)
    requires Kept(m0, m1, s) && Kept(m1, m2, s)
    ensures Kept(m0, m2, s)
  {
    forall b | b in s ensures KeptIn(m0, m2, b) {
      assert KeptIn(m0, m1, b) && KeptIn(m1, m2, b);
      forall x | b.addr + OVERHEAD <= x < b.End() ensures SameAt(m0, m2, x) {
        assert SameAt(m0, m1, x) && SameAt(m1, m2, x);
      }
    }
  }

  lemma AllKeptLive(m: Bytes, m': Bytes, blocks: seq<Block>)
    requires AllKept(m, m', blocks)
    ensures Kept(m, m', Live(blocks))
  {
    forall b | b in Live(blocks) ensures KeptIn(m, m', b) {
      var i :| 0 <= i < |blocks| && blocks[i] == b;
      assert KeptIn(m, m', blocks[i]);
    }
  }

  lemma AllKeptMarked(m: Bytes, m': Bytes, blocks: seq<Block>, k: nat, free: bool)
    requires k < |blocks| && AllKept(m, m', blocks)
    ensures AllKept(m, m', Marked(blocks, k, free))
  {
    forall i | 0 <= i < |blocks| ensures KeptIn(m, m', Marked(blocks, k, free)[i]) {
      assert KeptIn(m, m', blocks[i]);
    }
  }

  lemma ClobberAt(m0: Bytes, m: Bytes, blocks: seq<Block>, lo: int, hi: int, a: int)
    requires Tiled(blocks, lo, hi) && a in Addrs(blocks) && AllKept(m0, m, blocks)
    ensures AllKept(m0, Clobber(m, a), blocks)
  {
    hide Clobber; hide AllKept; hide Tiled;
    var b :| b in blocks && b.addr == a;
    var k :| 0 <= k < |blocks| && blocks[k] == b;
    ClobberSpares(m, blocks, lo, hi, k);
    AllKeptChain(m0, m, Clobber(m, a), blocks);
  }

  lemma AllKeptRefl(m: Bytes, blocks: seq<Block>)
    ensures AllKept(m, m, blocks)
  {
  }
}
