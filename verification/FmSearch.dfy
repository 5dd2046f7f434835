/** Searching the free lists: what a failed search rules out, and why the first hit is a best fit. */
module FmSearch {
  import opened FmHash
  import opened FmLists
  import opened FmBlocks

  /** No free fragment serves a request of this size. */
  ghost predicate NoneFits(blocks: seq<Block>, size: nat) {
    forall b | b in blocks && b.free :: b.size < size
  }

  /** The fragment at `k` is a smallest free one that serves the request. */
  ghost predicate BestFit(blocks: seq<Block>, k: nat, size: nat) {
    k < |blocks| && blocks[k].free && size <= blocks[k].size
    && forall b | b in blocks && b.free && size <= b.size :: blocks[k].size <= b.size
  }

  ghost predicate NoneBelow(blocks: seq<Block>, h: nat, size: nat) {
    forall b | b in blocks && b.free && Hash(b.size) < h :: b.size < size
  }

  /** Buckets below the bucket of the request hold only smaller fragments. */
  lemma NoneBelowStart(blocks: seq<Block>, size: nat)
    ensures NoneBelow(blocks, Hash(size), size)
  {
    forall b | b in blocks && b.free && Hash(b.size) < Hash(size) ensures b.size < size {
      if size <= b.size {
        HashMonotone(size, b.size);
      }
    }
  }

  lemma NoneBelowNext(hdr: Headers, bk: seq<Bucket>, blocks: seq<Block>, lists: seq<seq<int>>, lo: int, hi: int,
        h: nat, size: nat)
    requires Sound(hdr, bk, blocks, lists, lo, hi, 0) && h < HASH_SIZE && NoneBelow(blocks, h, size)
    requires forall a | a in lists[h] :: Hd(hdr, a).size < size
    ensures NoneBelow(blocks, h + 1, size)
  {
    hide Hash; hide ListsOk; hide Tiled;
    forall b | b in blocks && b.free && Hash(b.size) < h + 1 ensures b.size < size {
      var i :| 0 <= i < |blocks| && blocks[i] == b;
      assert HeaderOk(hdr, blocks[i], 0);
    }
  }

  lemma NoneBelowAll(blocks: seq<Block>, lo: int, hi: int, size: nat)
    requires Tiled(blocks, lo, hi) && hi <= WORD && NoneBelow(blocks, HASH_SIZE, size)
    ensures NoneFits(blocks, size)
  {
    hide Hash; hide Tiled;
    forall b | b in blocks && b.free ensures b.size < size {
      var i :| 0 <= i < |blocks| && blocks[i] == b;
      FirstPositive(blocks, lo, hi);
      Inside(blocks, lo, hi, i);
      HashRange(b.size);
    }
  }

  lemma FirstPositive(blocks: seq<Block>, lo: int, hi: int)
    requires Tiled(blocks, lo, hi)
    ensures lo > 0
  {
  }

  /** Within one bucket no later fragment is smaller: small buckets hold one size, big ones ascend. */
  lemma LaterNoSmaller(hdr: Headers, b: Bucket, l: seq<int>, h: nat, j: nat, p: nat)
    requires BucketOk(hdr, b, l, h) && j <= p < |l| && h < HASH_SIZE
    requires Hd(hdr, l[j]).size % 8 == 0 && Hd(hdr, l[p]).size % 8 == 0 && Hd(hdr, l[j]).size < WORD
             && Hd(hdr, l[p]).size < WORD
    ensures Hd(hdr, l[j]).size <= Hd(hdr, l[p]).size
  {
    hide Hash;
    assert NodeOk(hdr, l, j, h) && NodeOk(hdr, l, p, h);
    var s, t := Hd(hdr, l[j]).size, Hd(hdr, l[p]).size;
    HashRange(s);
    if h > OPTIMIZE / ROUNDTO {
      if j < p {
        assert SortedBySize(hdr, l);
      }
    } else {
      SmallBucket(s, t);
    }
  }

  /** What a list entry is. */
  lemma EntryFacts(hdr: Headers, bk: seq<Bucket>, blocks: seq<Block>, lists: seq<seq<int>>, lo: int, hi: int, h: nat,
        j: nat) returns (k: nat)
    requires Sound(hdr, bk, blocks, lists, lo, hi, 0) && h < HASH_SIZE && j < |lists[h]| && hi <= WORD
    ensures k < |blocks| && blocks[k].addr == lists[h][j] != 0 && blocks[k].free && Hash(blocks[k].size) == h
    ensures Hd(hdr, lists[h][j]).size == blocks[k].size < WORD && blocks[k].size % 8 == 0
    ensures Hd(hdr, lists[h][j]).nxt == At(lists[h], j + 1)
  {
    hide Hash;
    k := ListedIsFree(hdr, bk, blocks, lists, lo, hi, 0, h, lists[h][j]);
    assert HeaderOk(hdr, blocks[k], 0);
    Inside(blocks, lo, hi, k);
    assert BucketOk(hdr, bk[h], lists[h], h);
    assert NodeOk(hdr, lists[h], j, h);
    assert blocks[k].End() == NextAddr(blocks, k, hi);
  }

  /** The first entry that is big enough, in the first bucket that has one, is a best fit. */
  lemma FirstIsBest(hdr: Headers, bk: seq<Bucket>, blocks: seq<Block>, lists: seq<seq<int>>, lo: int, hi: int, h: nat,
        j: nat, k: nat, size: nat)
    requires Sound(hdr, bk, blocks, lists, lo, hi, 0) && h < HASH_SIZE && j < |lists[h]| && hi <= WORD
    requires k < |blocks| && blocks[k].addr == lists[h][j] && Hash(blocks[k].size) == h && blocks[k].free
             && size <= blocks[k].size
    requires NoneBelow(blocks, h, size) && forall i | 0 <= i < j :: Hd(hdr, lists[h][i]).size < size
    ensures BestFit(blocks, k, size)
  {
    hide Hash; hide Tiled; hide ListsOk; hide BucketOk;
    var l := lists[h];
    forall b | b in blocks && b.free && size <= b.size ensures blocks[k].size <= b.size {
      var i :| 0 <= i < |blocks| && blocks[i] == b;
      if b.size < blocks[k].size {
        HashMonotone(b.size, blocks[k].size);
        assert Hash(b.size) == h;
        var p := Position(hdr, bk, blocks, lists, lo, hi, i);
        var x := EntryFacts(hdr, bk, blocks, lists, lo, hi, h, p);
        SameAddr(blocks, lo, hi, x, i);
        var y := EntryFacts(hdr, bk, blocks, lists, lo, hi, h, j);
        SameAddr(blocks, lo, hi, y, k);
        if p >= j {
          OneOk(hdr, bk, lists, h);
          LaterNoSmaller(hdr, bk[h], l, h, j, p);
        }
      }
    }
  }

  lemma OneOk(hdr: Headers, bk: seq<Bucket>, lists: seq<seq<int>>, h: nat)
    requires ListsOk(hdr, bk, lists) && h < HASH_SIZE
    ensures |bk| == |lists| == HASH_SIZE && BucketOk(hdr, bk[h], lists[h], h)
  {
  }
}
