/** Arenas on which the defragmentation disappoints, reached from a fresh one by requests. */
module FmReached {
  import opened FmHash
  import opened FmBlocks
  import opened FmCount
  import opened FmJoin
  import opened FmSearch
  import opened FmSweep
  import opened FMalloc

  // ---------- one request ----------

  /** The last fragment, the only free one, serves `n` bytes. */
  ghost function TakenOff(pre: seq<Block>, x: Block, n: nat): seq<Block> {
    if x.size - n >= OVERHEAD + n then pre
      + [Block(x.addr, n, false), Block(x.addr + OVERHEAD + n, x.size - n - OVERHEAD, true)]
    else pre + [Block(x.addr, x.size, false)]
  }

  lemma TakesLast(pre: seq<Block>, x: Block, n: nat)
    requires (forall b | b in pre :: !b.free) && x.free && n <= x.size <= OPTIMIZE
    ensures !NoneFits(pre + [x], n) && forall k: nat | BestFit(pre + [x], k, n) :: k == |pre|
    ensures Split(Marked(pre + [x], |pre|, false), |pre|, n) == TakenOff(pre, x, n)
  {
    var b := pre + [x];
    assert b[|pre|] == x && x in b;
    assert forall k: nat | k < |pre| :: b[k] in pre;
  }

  method Request(qm: Arena, n: Word, ghost pre: seq<Block>, ghost x: Block) returns (p: int)
    requires qm.Valid() && qm.blocks == pre + [x] && n % 8 == 0
    requires (forall b | b in pre :: !b.free) && x.free && n <= x.size <= OPTIMIZE
    modifies qm`hdr, qm`mem, qm`largeSpace, qm`realUsed, qm`used, qm`maxRealUsed, qm`blocks, qm`lists, qm.freeHash
    ensures qm.Valid() && qm.blocks == TakenOff(pre, x, n) && p == x.addr + OVERHEAD
  {
    hide NoneFits; hide BestFit; hide Split; hide Marked; hide Served; hide Servable; hide Exhausted; hide Live;
    hide Kept; hide RoundUp;
    hide AllPositive;
    RoundedTwice(n);
    TakesLast(pre, x, n);
    ghost var k;
    p, k := qm.Malloc(n);
  }

  // ---------- one release ----------

  /** Nothing is joined where the right neighbour is in use or empty and last. */
  lemma FreedAlone(b0: seq<Block>, lo: int, hi: int, b: seq<Block>, k: nat, j: nat, last: int)
    requires Tiled(b0, lo, hi) && FreedAt(b0, b, k, last) && j < |b0| && b[k].addr == b0[j].addr
    requires j + 1 < |b0| ==> !b0[j + 1].free || b0[j + 1].addr >= last
    ensures k == j && (!b0[j].free ==> b == Marked(b0, j, true))
  {
    hide Tiled;
    var m: nat :| CoalescedBy(b0, Marked(b, k, false), k, m) && RunBelow(b0, k, m, last);
    assert Marked(b, k, false)[k].addr == b0[k].addr;
    SameAddr(b0, lo, hi, k, j);
    assert m == 0;
    forall i | 0 <= i < |b| && i != k ensures b[i] == b0[i] {
      assert Marked(b, k, false)[i] == b0[i + m];
    }
  }

  method Release(qm: Arena, p: int, ghost j: nat)
    requires qm.Valid() && j < |qm.blocks| && !qm.blocks[j].free && p == qm.blocks[j].addr + OVERHEAD
    requires j + 1 < |qm.blocks| ==> !qm.blocks[j + 1].free || qm.blocks[j + 1].addr >= qm.lastFrag
    modifies qm`hdr, qm`mem, qm`largeSpace, qm`realUsed, qm`used, qm`blocks, qm`lists, qm.freeHash
    ensures qm.Valid() && qm.blocks == Marked(old(qm.blocks), j, true)
  {
    hide Marked; hide Live; hide Kept; hide AllPositive; hide FreedAt;
    qm.FirstIs();
    qm.NextIs(p - OVERHEAD, j);
    ServedFresh(qm.blocks, j);
    ghost var b0 := qm.blocks;
    ghost var k := qm.Free(p, b0[j]);
    FreedAlone(b0, qm.firstFrag, qm.End(), qm.blocks, k, j, qm.lastFrag);
  }

  /** A request that neither a free fragment nor joined ones can serve. */
  method Refuse(qm: Arena, n: Word) returns (p: int)
    requires qm.Valid() && n % 8 == 0 && NoneFits(qm.blocks, n) && !Joinable(qm.blocks, qm.lastFrag, n)
    modifies qm`hdr, qm`mem, qm`largeSpace, qm`realUsed, qm`used, qm`maxRealUsed, qm`blocks, qm`lists, qm.freeHash
    ensures qm.Valid() && p == 0 && (FreePair(qm.blocks) <==> FreeAtLast(old(qm.blocks), qm.lastFrag))
  {
    hide NoneFits; hide BestFit; hide Joinable; hide Split; hide Marked; hide Served; hide Live; hide Kept;
    hide RoundUp; hide AllPositive;
    hide FreePair; hide FreeAtLast;
    RoundedTwice(n);
    ghost var k;
    p, k := qm.Malloc(n);
  }

  // ---------- the arenas ----------

  /** `malloc(0)`, `free`, `malloc(8)` on an arena of 24 bytes: the last request fails and leaves
      two free neighbours. */
  method LastPairReached() returns (qm: Arena, p: int)
    ensures fresh(qm) && qm.Valid() && p == 0 && FreePair(qm.blocks)
  {
    hide NoneFits; hide Joinable; hide FreePair; hide FreeAtLast; hide Sound; hide Tiled; hide FreeSum; hide LargeSum;
    hide Live;
    qm := new Arena.Layout(8, INIT_OVERHEAD + 24);
    ghost var a := qm.firstFrag;
    assert qm.blocks == [] + [Block(a, 24, true)];
    p := Request(qm, 0, [], Block(a, 24, true));
    assert qm.blocks == [Block(a, 0, false), Block(a + 24, 0, true)];
    Release(qm, p, 0);
    assert qm.blocks == [Block(a, 0, true), Block(a + 24, 0, true)];
    LastPairStays(a);
    p := Refuse(qm, 8);
  }

  /** Two freed blocks of 40 bytes side by side make room for 104, and a request for 104 is refused. */
  method ExactFitReached() returns (qm: Arena, p: int)
    ensures fresh(qm) && qm.Valid() && p == 0
  {
    hide NoneFits; hide Joinable; hide FreePair; hide FreeAtLast; hide Sound; hide Tiled; hide FreeSum; hide LargeSum;
    hide Live;
    qm := new Arena.Layout(8, INIT_OVERHEAD + 200);
    ghost var a := qm.firstFrag;
    ghost var u, v := Block(a, 40, false), Block(a + 64, 40, false);
    assert qm.blocks == [] + [Block(a, 200, true)];
    var x := Request(qm, 40, [], Block(a, 200, true));
    assert qm.blocks == [u] + [Block(a + 64, 136, true)];
    var y := Request(qm, 40, [u], Block(a + 64, 136, true));
    assert qm.blocks == [u, v] + [Block(a + 128, 72, true)];
    var z := Request(qm, 72, [u, v], Block(a + 128, 72, true));
    assert qm.blocks == [u, v, Block(a + 128, 72, false)];
    Release(qm, x, 0);
    assert qm.blocks == [Block(a, 40, true), v, Block(a + 128, 72, false)];
    Release(qm, y, 1);
    assert qm.blocks == [Block(a, 40, true), Block(a + 64, 40, true), Block(a + 128, 72, false)];
    ExactFitIsRefused(a);
    p := Refuse(qm, 104);
  }
}
