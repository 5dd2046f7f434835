/** Payload bytes of the boundary-tag allocator, free and live, and neighbours that are both free. */
module QmCount {
  import FmCount
  import opened FmBlocks
  import opened QmBlocks

  /** Payload of the free, or of the live, fragments. */
  ghost function Payloads(blocks: seq<Block>, free: bool): nat {
    if blocks == [] then 0
    else (if blocks[0].free == free then Payload(blocks[0]) else 0) + Payloads(blocks[1..], free)
  }

  lemma {:induction false} PayloadsAppend(a: seq<Block>, b: seq<Block>, free: bool)
    ensures Payloads(a + b, free) == Payloads(a, free) + Payloads(b, free)
  {
    if a == [] {
      assert a + b == b;
    } else {
      assert (a + b)[1..] == a[1..] + b;
      PayloadsAppend(a[1..], b, free);
    }
  }

  lemma PayloadsThree(a: seq<Block>, m: seq<Block>, b: seq<Block>, free: bool)
    ensures Payloads(a + m + b, free) == Payloads(a, free) + Payloads(m, free) + Payloads(b, free)
  {
    PayloadsAppend(a + m, b, free);
    PayloadsAppend(a, m, free);
  }

  ghost function Part(b: Block, free: bool): nat {
    if b.free == free then Payload(b) else 0
  }

  lemma PayloadsOne(b: Block, free: bool)
    ensures Payloads([b], free) == Part(b, free)
  {
  }

  lemma PayloadsTwo(b: Block, c: Block, free: bool)
    ensures Payloads([b, c], free) == Part(b, free) + Part(c, free)
  {
    assert [b, c][1..] == [c];
    PayloadsOne(c, free);
  }

  lemma PayloadsMarked(blocks: seq<Block>, k: nat, mark: bool, free: bool)
    requires k < |blocks| && blocks[k].free != mark
    ensures Payloads(Marked(blocks, k, mark), free) == Payloads(blocks, free)
              + (if mark == free then 1 else -1) * Payload(blocks[k])
  {
    hide Payloads;
    var a, m, b := blocks[..k], blocks[k], blocks[k + 1..];
    assert blocks == a + [m] + b;
    assert Marked(blocks, k, mark) == a + [m.(free := mark)] + b;
    PayloadsThree(a, [m], b, free);
    PayloadsThree(a, [m.(free := mark)], b, free);
    PayloadsOne(m, free);
    PayloadsOne(m.(free := mark), free);
  }

  lemma PayloadsMerged(blocks: seq<Block>, k: nat, free: bool)
    requires k + 1 < |blocks| && !blocks[k].free && !blocks[k + 1].free && blocks[k].size >= EXTRA
             && blocks[k + 1].size >= EXTRA
    ensures Payloads(Merged(blocks, k), free) == Payloads(blocks, free) + if free then 0 else QM_OVERHEAD
  {
    hide Payloads;
    var a, m, n, b := blocks[..k], blocks[k], blocks[k + 1], blocks[k + 2..];
    assert blocks == a + [m, n] + b;
    PayloadsThree(a, [m, n], b, free);
    PayloadsTwo(m, n, free);
    MergedAt(blocks, k, k);
    PayloadsThree(a, [Merged(blocks, k)[k]], b, free);
    PayloadsOne(Merged(blocks, k)[k], free);
  }

  lemma PayloadsCut(blocks: seq<Block>, k: nat, size: nat, free: bool)
    requires k < |blocks| && !blocks[k].free && size + QM_OVERHEAD <= Payload(blocks[k])
    ensures Payloads(Cut(blocks, k, size + EXTRA), free) == Payloads(blocks, free) - if free then 0 else QM_OVERHEAD
  {
    hide Payloads;
    var a, m, b := blocks[..k], blocks[k], blocks[k + 1..];
    CutAt(blocks, k, size + EXTRA, k);
    CutAt(blocks, k, size + EXTRA, k + 1);
    var x, y := Cut(blocks, k, size + EXTRA)[k], Cut(blocks, k, size + EXTRA)[k + 1];
    assert blocks == a + [m] + b;
    assert Cut(blocks, k, size + EXTRA) == a + [x, y] + b;
    PayloadsThree(a, [m], b, free);
    PayloadsThree(a, [x, y], b, free);
    PayloadsOne(m, free);
    PayloadsTwo(x, y, free);
  }

  /** A free fragment is counted. */
  lemma {:induction false} PayloadsAtLeast(blocks: seq<Block>, k: nat)
    requires k < |blocks| && blocks[k].free
    ensures Payloads(blocks, true) >= Payload(blocks[k])
  {
    if k > 0 {
      PayloadsAtLeast(blocks[1..], k - 1);
    }
  }

  /** Payloads take no more room than the fragments they are in. */
  lemma {:induction false} PayloadsWithin(blocks: seq<Block>)
    ensures Payloads(blocks, true) <= FmCount.FreeSum(blocks)
  {
    if blocks != [] {
      PayloadsWithin(blocks[1..]);
    }
  }

  lemma PayloadsFit(blocks: seq<Block>, lo: int, hi: int)
    requires Tiled(blocks, lo, hi)
    ensures 0 <= Payloads(blocks, true) < hi
  {
    hide Payloads; hide FmCount.FreeSum; hide FmCount.LiveSum;
    PayloadsWithin(blocks);
    FmCount.TotalBytes(blocks, lo, hi);
  }

  // ---------- neighbours ----------

  ghost predicate NoFreePair(blocks: seq<Block>) {
    forall i | 1 <= i < |blocks| :: !(blocks[i - 1].free && blocks[i].free)
  }

  /** Taking a fragment makes no pair. */
  lemma PairTaken(blocks: seq<Block>, k: nat)
    requires NoFreePair(blocks) && k < |blocks|
    ensures NoFreePair(Marked(blocks, k, false))
  {
  }

  /** The fragment at `k` cut, the rest free: its right neighbour must be busy. */
  ghost function SplitOff(blocks: seq<Block>, k: nat, size: nat): seq<Block>
    requires k < |blocks| && size + QM_OVERHEAD <= Payload(blocks[k])
  {
    Marked(Cut(blocks, k, size + EXTRA), k + 1, true)
  }

  lemma PairSplit(blocks: seq<Block>, k: nat, size: nat)
    requires NoFreePair(blocks) && k < |blocks| && !blocks[k].free && size + QM_OVERHEAD <= Payload(blocks[k])
    requires k + 1 < |blocks| ==> !blocks[k + 1].free
    ensures NoFreePair(SplitOff(blocks, k, size))
  {
    hide Cut;
    var c := SplitOff(blocks, k, size);
    CutAt(blocks, k, size + EXTRA, k);
    forall i | 1 <= i < |c| ensures !(c[i - 1].free && c[i].free) {
      CutAt(blocks, k, size + EXTRA, i - 1);
      CutAt(blocks, k, size + EXTRA, i);
      if i < k {
        assert !(blocks[i - 1].free && blocks[i].free);
      } else if i > k + 2 {
        var o := i - 1;
        assert !(blocks[o - 1].free && blocks[o].free);
      }
    }
  }

  /** Merging busy fragments makes no pair. */
  lemma PairMerged(blocks: seq<Block>, k: nat)
    requires NoFreePair(blocks) && k + 1 < |blocks|
    ensures NoFreePair(Merged(blocks, k))
  {
    hide Merged;
    var c := Merged(blocks, k);
    MergedAt(blocks, k, k);
    forall i | 1 <= i < |c| ensures !(c[i - 1].free && c[i].free) {
      MergedAt(blocks, k, i - 1);
      MergedAt(blocks, k, i);
      if i < k {
        assert !(blocks[i - 1].free && blocks[i].free);
      } else if i > k + 1 {
        var o := i + 1;
        assert !(blocks[o - 1].free && blocks[o].free);
      }
    }
  }

  /** A fragment with busy neighbours can be freed. */
  lemma PairFreed(blocks: seq<Block>, k: nat)
    requires NoFreePair(blocks) && k < |blocks| && (k > 0 ==> !blocks[k - 1].free)
             && (k + 1 < |blocks| ==> !blocks[k + 1].free)
    ensures NoFreePair(Marked(blocks, k, true))
  {
  }
}
