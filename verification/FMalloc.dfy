/** The fragment allocator `f_malloc`: one arena, size-hashed free lists, splitting, joining and defragmentation. */
module FMalloc {
  import opened FmHash
  import opened FmLists
  import opened FmBlocks
  import opened FmCount
  import opened FmJoin
  import opened FmPayload
  import opened FmSearch
  import opened FmSweep

  class Arena {
    /** `struct fm_block`. */
    var size: int
    var largeSpace: int
    var largeLimit: int
    var used: int
    var realUsed: int
    var maxRealUsed: int
    var firstFrag: int
    var lastFrag: int
    const freeHash: array<Bucket>

    /** Memory: the fragment headers, and the bytes not known to have been overwritten by one. */
    var hdr: Headers
    var mem: Bytes

    ghost var blocks: seq<Block>
    ghost var lists: seq<seq<int>>

    ghost function End(): int
      reads this
    {
      lastFrag + OVERHEAD
    }

    /** The byte counters agree with the fragments. */
    ghost predicate Counted()
      reads this
    {
      used + FreeSum(blocks) == size && largeSpace == LargeSum(blocks)
      && realUsed == used + INIT_OVERHEAD + (|blocks| - 1) * OVERHEAD
    }

    ghost predicate ValidBut(x: int)
      reads this, freeHash
    {
      freeHash.Length == HASH_SIZE && End() <= WORD && firstFrag + size == End() + BLOCK_SIZE
      && Sound(hdr, freeHash[..], blocks, lists, firstFrag, End(), x) && Counted()
    }

    ghost predicate Valid()
      reads this, freeHash
    {
      ValidBut(0)
    }

    // ---------- memory access ----------

    method Store(a: int, f: Frag)
      modifies this`hdr, this`mem
      ensures hdr == old(hdr)[a := f] && mem == Clobber(old(mem), a)
    {
      hdr := hdr[a := f];
      mem := Clobber(mem, a);
    }

    /** A header write at a fragment of the arena: no payload notices. */
    method StoreAt(a: int, f: Frag, ghost m0: Bytes)
      requires Tiled(blocks, firstFrag, End()) && a in Addrs(blocks) && AllKept(m0, mem, blocks)
      modifies this`hdr, this`mem
      ensures hdr == old(hdr)[a := f] && AllKept(m0, mem, blocks)
    {
      ClobberAt(m0, mem, blocks, firstFrag, End(), a);
      Store(a, f);
    }

    /** `*f`. */
    function Deref(f: Slot): int
      reads this, freeHash
    {
      match f
      case Null => 0
      case Head(h) => if h < freeHash.Length then freeHash[h].first else 0
      case Nxt(a) => Hd(hdr, a).nxt
    }

    // ---------- counters ----------

    method FreeMinus(n: nat)
      modifies this`largeSpace, this`realUsed, this`used
      ensures largeSpace == old(largeSpace) - (if n > LARGE_LIMIT then n else 0)
      ensures realUsed == old(realUsed) + n && used == old(used) + n
    {
      if n > LARGE_LIMIT {
        largeSpace := largeSpace - n;
      }
      realUsed := realUsed + n;
      used := used + n;
    }

    method FreePlus(n: nat)
      modifies this`largeSpace, this`realUsed, this`used
      ensures largeSpace == old(largeSpace) + (if n > LARGE_LIMIT then n else 0)
      ensures realUsed == old(realUsed) - n && used == old(used) - n
    {
      if n > LARGE_LIMIT {
        largeSpace := largeSpace + n;
      }
      realUsed := realUsed - n;
      used := used - n;
    }

    // ---------- fm_insert_free ----------

    /** The slot where a fragment of size `n` goes: the head of a small bucket, the sorted place in a big one. */
    method FindSlot(n: Word, hash: nat, ghost l: seq<int>) returns (f: Slot, ghost j: nat)
      requires hash == Hash(n) < freeHash.Length && BucketOk(hdr, freeHash[hash], l, hash)
      ensures j <= |l| && f == SlotOf(l, j, hash) && Deref(f) == At(l, j) && FitsAt(hdr, l, j, n, hash)
    {
      f, j := Head(hash), 0;
      HashRange(n);
      if n > OPTIMIZE {
        while Deref(f) != 0
          invariant j <= |l| && f == SlotOf(l, j, hash) && Deref(f) == At(l, j)
          invariant forall i | 0 <= i < j :: Hd(hdr, l[i]).size <= n
          decreases |l| - j
        {
          var g := Deref(f);
          assert NodeOk(hdr, l, j, hash);
          if n <= Hd(hdr, g).size {
            break;
          }
          f, j := Nxt(g), j + 1;
        }
        if j < |l| {
          assert NodeOk(hdr, l, j, hash);
        }
      }
    }

    /** The links of `fm_insert_free`. */
    method LinkAt(frag: int, f: Slot, hash: nat, ghost l: seq<int>, ghost j: nat)
      requires hash < freeHash.Length && BucketOk(hdr, freeHash[hash], l, hash) && j <= |l| && f == SlotOf(l, j, hash)
      requires frag != 0 && frag !in l && Deref(f) == At(l, j)
      requires Tiled(blocks, firstFrag, End()) && frag in Addrs(blocks) && forall a | a in l :: a in Addrs(blocks)
      modifies this`hdr, this`mem, freeHash
      ensures hdr == LinkIn(old(hdr), l, j, frag, hash) && AllKept(old(mem), mem, blocks)
      ensures freeHash[..] == old(freeHash[..])[hash := Bucket(if j == 0 then frag
                else old(freeHash[hash]).first, old(freeHash[hash]).no + 1)]
    {
      hide AllKept; hide Tiled; hide Addrs;
      AllKeptRefl(mem, blocks);
      var next := Deref(f);
      StoreAt(frag, Frag(Hd(hdr, frag).size, next, f), old(mem));
      if next != 0 {
        StoreAt(next, Hd(hdr, next).(prev := Nxt(frag)), old(mem));
      }
      match f {
        case Head(h) => freeHash[h] := freeHash[h].(first := frag);
        case Nxt(a) =>
          StoreAt(a, Hd(hdr, a).(nxt := frag), old(mem));
      }
      freeHash[hash] := freeHash[hash].(no := freeHash[hash].no + 1);
      if j < |l| {
        assert NodeOk(old(hdr), l, j, hash);
      }
    }

    /** `fm_insert_free`, for the fragment at `k`. */
    method InsertFree(frag: int, ghost k: nat)
      requires k < |blocks| && blocks[k].addr == frag && !blocks[k].free && ValidBut(frag)
      modifies this`hdr, this`mem, this`largeSpace, this`realUsed, this`used, this`blocks, this`lists, freeHash
      ensures Valid() && blocks == Marked(old(blocks), k, true) && AllKept(old(mem), mem, blocks)
      ensures realUsed == old(realUsed) - old(blocks)[k].size && largeSpace >= old(largeSpace)
    {
      hide Sound; hide AllKept; hide Hash; hide FreeSum; hide LargeSum; hide Marked; hide BucketOk; hide ListsOk;
      hide Tiled;
      BlockFacts(hdr, freeHash[..], blocks, lists, firstFrag, End(), frag, k);
      var n := Hd(hdr, frag).size;
      HashRange(n);
      var hash := GetHash(n);
      ghost var l := lists[hash];
      BucketAt(hdr, freeHash[..], lists, hash);
      var f;
      ghost var j;
      f, j := FindSlot(n, hash, l);
      AttachStep(hdr, freeHash[..], blocks, lists, firstFrag, End(), k, j);
      SumsMarked(blocks, k, true);
      LinkAt(frag, f, hash, l, j);
      FreePlus(n);
      AllKeptMarked(old(mem), mem, blocks, k, true);
      lists := lists[hash := Inserted(l, j, frag)];
      blocks := Marked(blocks, k, true);
    }

    // ---------- fm_remove_free ----------

    method LinkOff(n: int, hash: nat, ghost l: seq<int>, ghost j: nat)
      requires hash < freeHash.Length && BucketOk(hdr, freeHash[hash], l, hash) && j < |l| && l[j] == n
      requires Tiled(blocks, firstFrag, End()) && forall a | a in l :: a in Addrs(blocks)
      modifies this`hdr, this`mem, freeHash
      ensures hdr == LinkOut(old(hdr), l, j) && AllKept(old(mem), mem, blocks)
      ensures freeHash[..] == old(freeHash[..])[hash := Bucket(if j == 0 then At(l, 1)
                else old(freeHash[hash]).first, old(freeHash[hash]).no - 1)]
    {
      hide AllKept; hide Tiled; hide Addrs; hide Hash;
      AllKeptRefl(mem, blocks);
      assert NodeOk(hdr, l, j, hash);
      var pf := Hd(hdr, n).prev;
      var next := Hd(hdr, n).nxt;
      match pf {
        case Head(h) => freeHash[h] := freeHash[h].(first := next);
        case Nxt(a) =>
          StoreAt(a, Hd(hdr, a).(nxt := next), old(mem));
      }
      if next != 0 {
        StoreAt(next, Hd(hdr, next).(prev := pf), old(mem));
      }
      freeHash[hash] := freeHash[hash].(no := freeHash[hash].no - 1);
      StoreAt(n, Hd(hdr, n).(prev := Null), old(mem));
      if j + 1 < |l| {
        assert NodeOk(old(hdr), l, j + 1, hash);
      }
    }

    /** `fm_remove_free`, for the free fragment at `k`. */
    method RemoveFree(n: int, ghost k: nat)
      requires k < |blocks| && blocks[k].addr == n && blocks[k].free && Valid()
      modifies this`hdr, this`mem, this`largeSpace, this`realUsed, this`used, this`blocks, this`lists, freeHash
      ensures Valid() && blocks == Marked(old(blocks), k, false) && AllKept(old(mem), mem, blocks)
      ensures realUsed == old(realUsed) + old(blocks)[k].size
    {
      hide Sound; hide AllKept; hide Hash; hide FreeSum; hide LargeSum; hide Marked; hide BucketOk; hide ListsOk;
      hide Tiled;
      BlockFacts(hdr, freeHash[..], blocks, lists, firstFrag, End(), 0, k);
      var size := Hd(hdr, n).size;
      var hash := GetHash(size);
      ghost var j := Position(hdr, freeHash[..], blocks, lists, firstFrag, End(), k);
      ghost var l := lists[hash];
      BucketAt(hdr, freeHash[..], lists, hash);
      DetachStep(hdr, freeHash[..], blocks, lists, firstFrag, End(), k, j);
      SumsMarked(blocks, k, false);
      LinkOff(n, hash, l, j);
      FreeMinus(size);
      AllKeptMarked(old(mem), mem, blocks, k, false);
      lists := lists[hash := Dropped(l, j)];
      blocks := Marked(blocks, k, false);
    }

    // ---------- joining and splitting ----------

    /** `f->size += n->size + FRAG_OVERHEAD`, for two neighbours that are on no list. */
    method Join(f: int, n: int, ghost k: nat)
      requires Valid() && k + 1 < |blocks| && blocks[k].addr == f && blocks[k + 1].addr == n
      requires !blocks[k].free && !blocks[k + 1].free
      modifies this`hdr, this`mem, this`realUsed, this`blocks
      ensures Valid() && blocks == Merged(old(blocks), k) && AllKept(old(mem), mem, old(blocks))
      ensures realUsed == old(realUsed) - OVERHEAD
    {
      hide Sound; hide AllKept; hide Hash; hide FreeSum; hide LargeSum; hide Merged; hide Tiled;
      BlockFacts(hdr, freeHash[..], blocks, lists, firstFrag, End(), 0, k);
      BlockFacts(hdr, freeHash[..], blocks, lists, firstFrag, End(), 0, k + 1);
      MergeStep(hdr, freeHash[..], blocks, lists, firstFrag, End(), k);
      SumsMerged(blocks, k);
      AllKeptRefl(mem, blocks);
      StoreAt(f, Hd(hdr, f).(size := Hd(hdr, f).size + Hd(hdr, n).size + OVERHEAD), mem);
      realUsed := realUsed - OVERHEAD;
      blocks := Merged(blocks, k);
    }

    /** The free neighbour `n` of the busy fragment `f` is taken off its list and joined to it. */
    method Absorb(f: int, n: int, ghost k: nat)
      requires Valid() && k + 1 < |blocks| && blocks[k].addr == f && blocks[k + 1].addr == n
      requires !blocks[k].free && blocks[k + 1].free
      modifies this`hdr, this`mem, this`largeSpace, this`realUsed, this`used, this`blocks, this`lists, freeHash
      ensures Valid() && blocks == Absorbed(old(blocks), k) && AllKept(old(mem), mem, old(blocks))
      ensures realUsed == old(realUsed) + old(blocks[k + 1].size) - OVERHEAD
    {
      hide Sound; hide AllKept; hide Counted;
      RemoveFree(n, k + 1);
      AllKeptUnmarked(old(mem), mem, old(blocks), k + 1, false);
      label joined:
      Join(f, n, k);
      AllKeptUnmarked(old@joined(mem), mem, old(blocks), k + 1, false);
      AllKeptChain(old(mem), old@joined(mem), mem, old(blocks));
    }

    /** `fm_split_frag`: a rest that is big enough becomes a free fragment. */
    method SplitFrag(frag: int, n: Word, ghost k: nat)
      requires Valid() && k < |blocks| && blocks[k].addr == frag && !blocks[k].free
      requires n % ROUNDTO == 0 && n <= blocks[k].size
      modifies this`hdr, this`mem, this`largeSpace, this`realUsed, this`used, this`blocks, this`lists, freeHash
      ensures Valid() && blocks == Split(old(blocks), k, n) && AllKept(old(mem), mem, blocks)
    {
      hide Sound; hide AllKept; hide Hash; hide FreeSum; hide LargeSum; hide Cut; hide Tiled; hide Marked;
      BlockFacts(hdr, freeHash[..], blocks, lists, firstFrag, End(), 0, k);
      AllKeptRefl(mem, blocks);
      var rest := Hd(hdr, frag).size - n;
      if rest > OVERHEAD + OPTIMIZE || rest >= OVERHEAD + n {
        ghost var b := Cut(blocks, k, n);
        CutAt(blocks, k, n, k);
        CutAt(blocks, k, n, k + 1);
        CutTiled(blocks, k, n, firstFrag, End());
        SumsCut(blocks, k, n);
        var next := frag + OVERHEAD + n;
        NewAddr(blocks, firstFrag, End(), k, n, k);
        var garbage: int, link: Slot := *, *;
        CutStep(hdr, hdr[frag := Hd(hdr, frag).(size := n)][next := Frag(rest - OVERHEAD, garbage, link)],
                freeHash[..], blocks, lists, firstFrag, End(), k, n);
        assert b[k] in b && b[k + 1] in b;
        AllKeptRefl(mem, b);
        blocks := b;
        StoreAt(frag, Hd(hdr, frag).(size := n), old(mem));
        StoreAt(next, Frag(rest - OVERHEAD, garbage, link), old(mem));
        realUsed := realUsed + OVERHEAD;
        label cut:
        InsertFree(next, k + 1);
        AllKeptMarked(old(mem), old@cut(mem), b, k + 1, true);
        AllKeptChain(old(mem), old@cut(mem), mem, blocks);
      }
    }

    // ---------- fm_malloc ----------

    /** The search of `fm_malloc` through the buckets. */
    method FindFree(size: Word) returns (frag: int, ghost k: nat)
      requires Valid() && size % 8 == 0
      ensures frag == 0 ==> NoneFits(blocks, size)
      ensures frag != 0 ==> BestFit(blocks, k, size) && blocks[k].addr == frag
    {
      hide Hash; hide Tiled; hide Headed; hide ListsOk; hide Members; hide Counted; hide NoneBelow;
      var hash := GetHash(size);
      k := 0;
      NoneBelowStart(blocks, size);
      HashRange(size);
      while hash < HASH_SIZE
        invariant hash <= HASH_SIZE && NoneBelow(blocks, hash, size)
      {
        OneOk(hdr, freeHash[..], lists, hash);
        ghost var l, j := lists[hash], 0;
        frag := freeHash[hash].first;
        while frag != 0
          invariant j <= |l| && frag == At(l, j)
          invariant forall i | 0 <= i < j :: Hd(hdr, l[i]).size < size
          decreases |l| - j
        {
          k := EntryFacts(hdr, freeHash[..], blocks, lists, firstFrag, End(), hash, j);
          if Hd(hdr, frag).size >= size {
            FirstIsBest(hdr, freeHash[..], blocks, lists, firstFrag, End(), hash, j, k, size);
            return;
          }
          frag, j := Hd(hdr, frag).nxt, j + 1;
        }
        if j < |l| {
          k := EntryFacts(hdr, freeHash[..], blocks, lists, firstFrag, End(), hash, j);
        }
        NoneBelowNext(hdr, freeHash[..], blocks, lists, firstFrag, End(), hash, size);
        hash := hash + 1;
      }
      NoneBelowAll(blocks, firstFrag, End(), size);
      frag := 0;
    }

    /** `FRAG_NEXT`. */
    function Next(f: int): int
      reads this
    {
      f + OVERHEAD + Hd(hdr, f).size
    }

    /** What the headers say about the fragment at `k` and its right neighbour. */
    lemma NextIs(f: int, k: nat)
      requires Valid() && k < |blocks| && blocks[k].addr == f
      ensures Hd(hdr, f).size == blocks[k].size < WORD && blocks[k].size % 8 == 0
      ensures blocks[k].free <==> Hd(hdr, f).prev != Null
      ensures Next(f) == blocks[k].End() == NextAddr(blocks, k, End()) && firstFrag <= f < Next(f) <= End()
      ensures k + 1 < |blocks| <==> Next(f) < End()
      ensures k + 1 < |blocks| ==> (blocks[k + 1].free <==> Hd(hdr, Next(f)).prev != Null)
                                   && Hd(hdr, Next(f)).size == blocks[k + 1].size < WORD
      ensures Tiled(blocks, firstFrag, End())
    {
      hide ListsOk; hide Members; hide Counted;
      assert HeaderOk(hdr, blocks[k], 0);
      assert blocks[k].End() == NextAddr(blocks, k, End());
      Inside(blocks, firstFrag, End(), k);
      if k + 1 < |blocks| {
        Inside(blocks, firstFrag, End(), k + 1);
        assert HeaderOk(hdr, blocks[k + 1], 0);
      }
    }

    /** The inner loop of the defragmentation: free neighbours are joined to `frag` until it exceeds `size`. */
    method Coalesce(frag: int, n0: int, size: Word, ghost p: nat) returns (solved: bool, n: int, ghost m: nat)
      requires Valid() && p + 1 < |blocks| && blocks[p].addr == frag && !blocks[p].free && blocks[p].size < size
      requires n0 == blocks[p + 1].addr < lastFrag && blocks[p + 1].free
      requires forall i | p < i < |blocks| && blocks[i].free :: blocks[i].size < size
      modifies this`hdr, this`mem, this`largeSpace, this`realUsed, this`used, this`blocks, this`lists, freeHash
      ensures Valid() && m > 0 && CoalescedBy(old(blocks), blocks, p, m) && old(blocks)[p + m].addr < lastFrag
      ensures solved ==> size < blocks[p].size < 2 * size + OVERHEAD
      ensures !solved ==> blocks[p].size <= size && n == blocks[p].End()
      ensures !solved && p + 1 < |blocks| ==> !blocks[p + 1].free || blocks[p + 1].addr >= lastFrag
      ensures Live(blocks) - {blocks[p]} == Live(old(blocks)) - {old(blocks)[p]}
      ensures Kept(old(mem), mem, Live(old(blocks)) - {old(blocks)[p]})
      ensures realUsed - blocks[p].size <= old(realUsed) - old(blocks)[p].size
      ensures AllPositive(old(blocks)) ==> AllPositive(blocks)
    {
      hide ValidBut; hide Absorbed; hide Tiled; hide Live; hide AllKept; hide Kept; hide AllPositive;
      ghost var b0, rest := blocks, Live(blocks) - {blocks[p]};
      n, m := n0, 0;
      KeptRefl(mem, rest);
      NextIs(frag, p);
      CoalesceNone(b0, p);
      while true
        invariant Valid() && CoalescedBy(b0, blocks, p, m) && blocks[p].size <= size
        invariant p + 1 < |blocks| && blocks[p + 1].free && n == blocks[p + 1].addr < lastFrag
        invariant Live(blocks) - {blocks[p]} == rest && Kept(old(mem), mem, rest)
        invariant realUsed - blocks[p].size <= old(realUsed) - old(blocks)[p].size
        invariant AllPositive(b0) ==> AllPositive(blocks)
        decreases |blocks|
      {
        label before:
        NextIs(frag, p);
        CoalesceMore(b0, blocks, firstFrag, End(), p, m);
        AbsorbedAt(blocks, p, p);
        AbsorbedLive(blocks, firstFrag, End(), p);
        if AllPositive(b0) {
          AbsorbedPositive(blocks, p);
        }
        Absorb(frag, n, p);
        KeptStep(old(mem), old@before(mem), mem, old@before(blocks), rest);
        m := m + 1;
        NextIs(frag, p);
        if Hd(hdr, frag).size > size {
          solved := true;
          return;
        }
        n := Next(frag);
        if !(n < lastFrag && Hd(hdr, n).prev != Null) {
          solved := false;
          return;
        }
      }
    }

    /** One turn of the defragmentation: the free fragment `frag` and its free neighbour become one, and then some. */
    method CoalesceFree(frag: int, n0: int, size: Word, ghost p: nat) returns (solved: bool, n: int, ghost m: nat)
      requires Valid() && p + 1 < |blocks| && blocks[p].addr == frag && blocks[p].free
      requires n0 == blocks[p + 1].addr < lastFrag && blocks[p + 1].free
      requires forall i | p <= i < |blocks| && blocks[i].free :: blocks[i].size < size
      modifies this`hdr, this`mem, this`largeSpace, this`realUsed, this`used, this`blocks, this`lists, freeHash
      ensures Valid() && m > 0 && p + m < |old(blocks)| && |blocks| == |old(blocks)| - m
              && old(blocks)[p + m].addr < lastFrag
      ensures var b1 := Marked(blocks, p, false); CoalescedBy(Marked(old(blocks), p, false), b1, p, m)
      ensures blocks[p].addr == frag && (blocks[p].free <==> !solved)
      ensures solved ==> size < blocks[p].size < 2 * size + OVERHEAD && Live(blocks) - {blocks[p]} == Live(old(blocks))
      ensures !solved ==> blocks[p].size <= size && n == blocks[p].End() && Live(blocks) == Live(old(blocks))
      ensures !solved && p + 1 < |blocks| ==> !blocks[p + 1].free || blocks[p + 1].addr >= lastFrag
      ensures Kept(old(mem), mem, Live(old(blocks)))
      ensures !solved ==> realUsed <= old(realUsed)
      ensures AllPositive(old(blocks)) ==> AllPositive(blocks)
    {
      hide ValidBut; hide Tiled; hide Live; hide AllKept; hide Kept;
      NextIs(frag, p);
      TakenLive(blocks, firstFrag, End(), p);
      KeptRefl(mem, Live(blocks));
      RemoveFree(frag, p);
      AllKeptUnmarked(old(mem), mem, old(blocks), p, false);
      KeptStep(old(mem), old(mem), mem, old(blocks), Live(old(blocks)));
      label taken:
      solved, n, m := Coalesce(frag, n0, size, p);
      KeptChain(old(mem), old@taken(mem), mem, Live(old(blocks)));
      assert Marked(blocks, p, false) == blocks;
      if !solved {
        label coalesced:
        NextIs(frag, p);
        LiveMarked(blocks, firstFrag, End(), p, true);
        Unsettled(frag);
        InsertFree(frag, p);
        KeptMarked(old(mem), old@coalesced(mem), mem, old@coalesced(blocks), p, Live(old(blocks)));
        assert Marked(blocks, p, false) == old@coalesced(blocks);
      }
    }

    /** The defragmentation of `fm_malloc`: it succeeds exactly if joining adjacent free fragments gives one that
        exceeds `size`. */
    method Defrag(size: Word) returns (frag: int, ghost k: nat)
      requires Valid() && NoneFits(blocks, size)
      modifies this`hdr, this`mem, this`largeSpace, this`realUsed, this`used, this`blocks, this`lists, freeHash
      ensures Valid()
      ensures frag != 0 <==> Joinable(old(blocks), lastFrag, size)
      ensures frag == 0 ==>
                Live(blocks) == Live(old(blocks)) && (FreePair(blocks) <==> FreeAtLast(old(blocks), lastFrag))
      ensures frag == 0 ==> forall i | 0 <= i < |blocks| && blocks[i].free :: blocks[i].size <= size
      ensures frag == 0 ==> realUsed <= old(realUsed)
      ensures frag != 0 ==>
                k < |blocks| && blocks[k].addr == frag && !blocks[k].free
                && Live(blocks) - {blocks[k]} == Live(old(blocks))
      ensures frag != 0 ==> size < blocks[k].size < 2 * size + OVERHEAD
      ensures Kept(old(mem), mem, Live(old(blocks)))
      ensures AllPositive(old(blocks)) ==> AllPositive(blocks)
    {
      hide ValidBut; hide Tiled; hide Live; hide AllKept; hide Kept; hide NoPair; hide Joinable; hide Swept;
      hide CoalescedBy; hide NoneFits;
      hide AllPositive; hide FreePair; hide FreeAtLast;
      ghost var b0, p, q := blocks, 0, 0;
      KeptRefl(mem, Live(blocks));
      SweepStart(b0, lastFrag, size);
      FirstIs();
      frag := firstFrag;
      while frag < lastFrag
        invariant Valid() && Swept(b0, blocks, p, q, lastFrag, size)
        invariant frag == if p < |blocks| then blocks[p].addr else End()
        invariant Live(blocks) == Live(b0) && Kept(old(mem), mem, Live(b0)) && realUsed <= old(realUsed)
        invariant AllPositive(b0) ==> AllPositive(blocks)
        decreases |blocks| - p
      {
        label turn:
        NextIs(frag, p);
        SweptFacts(b0, blocks, p, q, lastFrag, size);
        var n := Next(frag);
        if n < lastFrag && Hd(hdr, n).prev != Null && Hd(hdr, frag).prev != Null {
          ghost var b := blocks;
          var solved;
          ghost var m;
          solved, n, m := CoalesceFree(frag, n, size, p);
          KeptChain(old(mem), old@turn(mem), mem, Live(b0));
          if solved {
            k := p;
            SweepFound(b0, b, Marked(blocks, p, false), p, q, m, lastFrag, size);
            return;
          }
          SweepJoin(b0, b, Marked(blocks, p, false), firstFrag, End(), p, q, m, lastFrag, size);
          assert Marked(Marked(blocks, p, false), p, true) == blocks;
          q := q + m;
        } else {
          SweepStep(b0, blocks, p, q, lastFrag, size);
        }
        NextIs(frag, p);
        frag, p, q := n, p + 1, q + 1;
      }
      FirstIs();
      SweepEnd(b0, blocks, firstFrag, End(), p, q, lastFrag, size);
      frag, k := 0, 0;
    }

    lemma Unsettled(x: int)
      requires Valid()
      ensures ValidBut(x)
    {
      hide Tiled; hide ListsOk; hide Members; hide Counted;
      forall i | 0 <= i < |blocks| ensures HeaderOk(hdr, blocks[i], x) {
        assert HeaderOk(hdr, blocks[i], 0);
        Inside(blocks, firstFrag, End(), i);
        FirstPositive(blocks, firstFrag, End());
      }
    }

    lemma FirstIs()
      requires Valid()
      ensures |blocks| > 0 && blocks[0].addr == firstFrag > 0 && Tiled(blocks, firstFrag, End())
    {
    }

    method RaiseMax()
      requires Valid()
      modifies this`maxRealUsed
      ensures Valid()
      ensures maxRealUsed == if old(maxRealUsed) < realUsed then realUsed else old(maxRealUsed)
    {
      if maxRealUsed < realUsed {
        maxRealUsed := realUsed;
      }
    }

    /** The `found` path: the fragment at `k` is taken and cut to size. */
    method Take(frag: int, size: Word, ghost k: nat)
      requires Valid() && k < |blocks| && blocks[k].addr == frag && blocks[k].free && size <= blocks[k].size
               && size % ROUNDTO == 0
      modifies this`hdr, this`mem, this`largeSpace, this`realUsed, this`used, this`blocks, this`lists, freeHash
      ensures Valid() && blocks == Split(Marked(old(blocks), k, false), k, size)
      ensures k < |blocks| && blocks[k].addr == frag && !blocks[k].free && Tight(blocks[k].size, size)
      ensures Live(blocks) - {blocks[k]} == Live(old(blocks)) && Kept(old(mem), mem, Live(old(blocks)))
      ensures AllPositive(old(blocks)) && size > 0 ==> AllPositive(blocks)
    {
      hide ValidBut; hide Tiled; hide Live; hide AllKept; hide Kept; hide Split; hide AllPositive;
      NextIs(frag, k);
      TakenLive(blocks, firstFrag, End(), k);
      KeptRefl(mem, Live(blocks));
      RemoveFree(frag, k);
      AllKeptUnmarked(old(mem), mem, old(blocks), k, false);
      KeptStep(old(mem), old(mem), mem, old(blocks), Live(old(blocks)));
      label taken:
      NextIs(frag, k);
      SplitLive(blocks, firstFrag, End(), k, size);
      if AllPositive(old(blocks)) && size > 0 {
        MarkedPositive(old(blocks), k, false);
        SplitPositive(blocks, k, size);
      }
      SplitFrag(frag, size, k);
      KeptSplit(old(mem), old@taken(mem), mem, old@taken(blocks), k, size, Live(old(blocks)));
    }

    /** `fm_malloc`. */
    method Malloc(size0: Word) returns (p: int, ghost k: nat)
      requires Valid()
      modifies this`hdr, this`mem, this`largeSpace, this`realUsed, this`used, this`maxRealUsed, this`blocks
      modifies this`lists, freeHash
      ensures Valid()
      ensures p != 0 <==> Servable(old(blocks), lastFrag, RoundUp(size0))
      ensures p != 0 ==> Served(old(blocks), blocks, k, p, RoundUp(size0))
      ensures p == 0 ==> Live(blocks) == Live(old(blocks)) && Exhausted(old(blocks), blocks, lastFrag, RoundUp(size0))
      ensures !NoneFits(old(blocks), RoundUp(size0)) ==>
                BestFit(old(blocks), k, RoundUp(size0)) && p == old(blocks)[k].addr + OVERHEAD
      ensures !NoneFits(old(blocks), RoundUp(size0)) ==>
                blocks == Split(Marked(old(blocks), k, false), k, RoundUp(size0))
                && k < |blocks| && Tight(blocks[k].size, RoundUp(size0))
      ensures Kept(old(mem), mem, Live(old(blocks)))
      ensures maxRealUsed == if p != 0 && old(maxRealUsed) < realUsed then realUsed else old(maxRealUsed)
      ensures p == 0 ==> realUsed <= old(realUsed)
      ensures AllPositive(old(blocks)) && RoundUp(size0) > 0 ==> AllPositive(blocks)
    {
      hide ValidBut; hide Tiled; hide Live; hide Kept; hide Split; hide AllPositive; hide NoneFits; hide Joinable;
      hide NoPair;
      var size: Word := RoundUp(size0);
      RoundUpExact(size0);
      var frag;
      frag, k := FindFree(size);
      if frag == 0 {
        frag, k := Defrag(size);
        if frag == 0 {
          return 0, 0;
        }
      } else {
        BestNotNone(blocks, k, size);
        NextIs(frag, k);
        Take(frag, size, k);
      }
      RaiseMax();
      NextIs(frag, k);
      FirstIs();
      p := frag + OVERHEAD;
    }

    // ---------- fm_free ----------

    /** The join loop of `fm_free`: right neighbours are joined to `f` as long as little large space is free. */
    method JoinRight(f: int, ghost k: nat) returns (ghost m: nat)
      requires Valid() && k < |blocks| && blocks[k].addr == f && !blocks[k].free
      modifies this`hdr, this`mem, this`largeSpace, this`realUsed, this`used, this`blocks, this`lists, freeHash
      ensures Valid() && CoalescedBy(old(blocks), blocks, k, m)
      ensures largeLimit < largeSpace || k + 1 == |blocks| || !blocks[k + 1].free || blocks[k + 1].addr >= lastFrag
      ensures largeLimit < old(largeSpace) ==> blocks == old(blocks)
      ensures RunBelow(old(blocks), k, m, lastFrag)
      ensures Live(blocks) - {blocks[k]} == Live(old(blocks)) - {old(blocks)[k]}
      ensures Kept(old(mem), mem, Live(old(blocks)))
      ensures realUsed - blocks[k].size <= old(realUsed) - old(blocks)[k].size
      ensures AllPositive(old(blocks)) ==> AllPositive(blocks)
    {
      hide ValidBut; hide Absorbed; hide Tiled; hide Live; hide AllKept; hide Kept; hide AllPositive; hide KeptIn;
      hide RunBelow;
      ghost var b0, rest := blocks, Live(blocks) - {blocks[k]};
      m := 0;
      KeptRefl(mem, rest);
      InsideRefl(mem, blocks[k]);
      CoalesceNone(b0, k);
      RunNone(b0, k, lastFrag);
      NextIs(f, k);
      while true
        invariant Valid() && CoalescedBy(b0, blocks, k, m)
        invariant Live(blocks) - {blocks[k]} == rest && Kept(old(mem), mem, rest)
        invariant KeptIn(old(mem), mem, b0[k]) && b0[k].size <= blocks[k].size
        invariant realUsed - blocks[k].size <= old(realUsed) - old(blocks)[k].size
        invariant AllPositive(b0) ==> AllPositive(blocks)
        invariant largeLimit < old(largeSpace) ==> blocks == b0 && largeSpace == old(largeSpace)
        invariant RunBelow(b0, k, m, lastFrag)
        decreases |blocks|
      {
        NextIs(f, k);
        if largeLimit < largeSpace {
          break;
        }
        var n := Next(f);
        if !(n < lastFrag && Hd(hdr, n).prev != Null) {
          break;
        }
        label before:
        RunMore(b0, blocks, k, m, lastFrag);
        CoalesceMore(b0, blocks, firstFrag, End(), k, m);
        AbsorbedAt(blocks, k, k);
        AbsorbedLive(blocks, firstFrag, End(), k);
        if AllPositive(b0) {
          AbsorbedPositive(blocks, k);
        }
        Absorb(f, n, k);
        KeptStep(old(mem), old@before(mem), mem, old@before(blocks), rest);
        AllKeptAt(old@before(mem), mem, old@before(blocks), k);
        KeptInGrows(old(mem), old@before(mem), mem, b0[k], old@before(blocks)[k]);
        m := m + 1;
      }
      KeptAlso(old(mem), mem, Live(b0), b0[k]);
    }

    /** `fm_free`. */
    method Free(p: int, ghost b: Block) returns (ghost k: nat)
      requires Valid() && (p != 0 ==> b in Live(blocks) && p == b.addr + OVERHEAD)
      modifies this`hdr, this`mem, this`largeSpace, this`realUsed, this`used, this`blocks, this`lists, freeHash
      ensures Valid()
      ensures p == 0 ==>
                blocks == old(blocks) && hdr == old(hdr) && mem == old(mem) && realUsed == old(realUsed)
                && lists == old(lists)
      ensures p != 0 ==> Live(blocks) == Live(old(blocks)) - {b}
      ensures p != 0 ==> k < |blocks| && blocks[k].free && blocks[k].addr == b.addr && b.size <= blocks[k].size
      ensures p != 0 ==> FreedAt(old(blocks), blocks, k, lastFrag)
      ensures p != 0 && largeLimit < old(largeSpace) ==>
                k < |old(blocks)| && old(blocks)[k] == b && blocks == Marked(old(blocks), k, true)
      ensures p != 0 && largeSpace <= largeLimit ==>
                k + 1 == |blocks| || !blocks[k + 1].free || blocks[k + 1].addr >= lastFrag
      ensures Kept(old(mem), mem, Live(old(blocks)))
      ensures realUsed <= old(realUsed)
      ensures AllPositive(old(blocks)) ==> AllPositive(blocks)
    {
      hide ValidBut; hide Tiled; hide Live; hide AllKept; hide Kept; hide KeptIn; hide CoalescedBy; hide RunBelow;
      hide Marked; hide AllPositive;
      KeptRefl(mem, Live(blocks));
      k := 0;
      if p == 0 {
        return;
      }
      var f := p - OVERHEAD;
      k := LiveAt(blocks, b);
      FirstIs();
      ghost var m := JoinRight(f, k);
      label joined:
      CoalescedFacts(old(blocks), blocks, firstFrag, End(), k, m);
      NextIs(f, k);
      MarkedBack(blocks, k);
      if AllPositive(blocks) {
        MarkedPositive(blocks, k, true);
      }
      LiveMarked(blocks, firstFrag, End(), k, true);
      Unsettled(f);
      InsertFree(f, k);
      AllKeptUnmarked(old@joined(mem), mem, old@joined(blocks), k, true);
      FreedKept(old(mem), old@joined(mem), mem, old(blocks), old@joined(blocks), k);
    }

    // ---------- fm_realloc ----------

    method MemCpy(dst: int, src: int, n: nat)
      requires Valid()
      modifies this`mem
      ensures Valid() && mem == Copied(old(mem), dst, src, n)
    {
      mem := Copied(mem, dst, src, n);
    }

    /** Shrinking: the tail is split off. */
    method Shrink(f: int, size: Word, ghost b: Block, ghost k0: nat) returns (ghost k: nat)
      requires Valid() && k0 < |blocks| && blocks[k0] == b && !b.free && f == b.addr && size <= b.size
               && size % ROUNDTO == 0
      modifies this`hdr, this`mem, this`largeSpace, this`realUsed, this`used, this`blocks, this`lists, freeHash
      ensures Valid() && Resized(old(blocks), blocks, k, b, f + OVERHEAD, size) && blocks[k].size <= b.size
      ensures SamePayload(old(mem), f + OVERHEAD, mem, f + OVERHEAD, blocks[k].size)
      ensures Kept(old(mem), mem, Live(old(blocks)) - {b})
      ensures AllPositive(old(blocks)) && size > 0 ==> AllPositive(blocks)
    {
      hide ValidBut; hide Tiled; hide Live; hide AllKept; hide Kept; hide KeptIn; hide Split; hide AllPositive;
      k := k0;
      NextIs(f, k);
      SplitLive(blocks, firstFrag, End(), k, size);
      if AllPositive(blocks) && size > 0 {
        SplitPositive(blocks, k, size);
      }
      KeptRefl(mem, Live(blocks) - {b});
      SplitFrag(f, size, k);
      AllKeptAt(old(mem), mem, blocks, k);
      KeptPayload(old(mem), mem, blocks[k], blocks[k].size);
      KeptSplit(old(mem), old(mem), mem, old(blocks), k, size, Live(old(blocks)) - {b});
    }

    /** Growing into a free right neighbour that is big enough. */
    method GrowInPlace(f: int, n: int, size: Word, ghost b: Block, ghost k0: nat) returns (ghost k: nat)
      requires Valid() && k0 + 1 < |blocks| && blocks[k0] == b && !b.free && f == b.addr && n == blocks[k0 + 1].addr
               && blocks[k0 + 1].free
      requires b.size < size <= b.size + OVERHEAD + blocks[k0 + 1].size && size % ROUNDTO == 0
      modifies this`hdr, this`mem, this`largeSpace, this`realUsed, this`used, this`blocks, this`lists, freeHash
      ensures Valid() && Resized(old(blocks), blocks, k, b, f + OVERHEAD, size)
      ensures SamePayload(old(mem), f + OVERHEAD, mem, f + OVERHEAD, b.size)
      ensures Kept(old(mem), mem, Live(old(blocks)) - {b})
      ensures AllPositive(old(blocks)) ==> AllPositive(blocks)
    {
      hide ValidBut; hide Tiled; hide Live; hide AllKept; hide Kept; hide KeptIn; hide Absorbed; hide AllPositive;
      hide SamePayload;
      k := k0;
      ghost var rest := Live(blocks) - {b};
      NextIs(f, k);
      AbsorbedAt(blocks, k, k);
      AbsorbedLive(blocks, firstFrag, End(), k);
      if AllPositive(blocks) {
        AbsorbedPositive(blocks, k);
      }
      KeptRefl(mem, rest);
      Absorb(f, n, k);
      AllKeptAt(old(mem), mem, old(blocks), k);
      KeptStep(old(mem), old(mem), mem, old(blocks), rest);
      NextIs(f, k);
      if Hd(hdr, f).size > size {
        label joined:
        k := Shrink(f, size, blocks[k], k);
        KeptChain(old(mem), old@joined(mem), mem, rest);
        ArrivedInPlace(old(mem), old@joined(mem), mem, b, blocks[k].size);
      } else {
        KeptPayload(old(mem), mem, b, b.size);
      }
    }

    /** Moving to a fragment elsewhere. */
    method Move(p: int, size: Word, ghost b: Block) returns (q: int, ghost k: nat)
      requires Valid() && b in Live(blocks) && p == b.addr + OVERHEAD && b.size < size && size % ROUNDTO == 0
      modifies this`hdr, this`mem, this`largeSpace, this`realUsed, this`used, this`maxRealUsed, this`blocks
      modifies this`lists, freeHash
      ensures Valid()
      ensures q != 0 <==> Servable(old(blocks), lastFrag, size)
      ensures q != 0 ==> Resized(old(blocks), blocks, k, b, q, size) && SamePayload(old(mem), p, mem, q, b.size)
      ensures q == 0 ==> Live(blocks) == Live(old(blocks)) && Kept(old(mem), mem, Live(blocks))
      ensures Kept(old(mem), mem, Live(old(blocks)) - {b})
      ensures old(realUsed <= maxRealUsed) ==> realUsed <= maxRealUsed
      ensures AllPositive(old(blocks)) && size > 0 ==> AllPositive(blocks)
    {
      hide ValidBut; hide Tiled; hide Live; hide Kept; hide KeptIn; hide AllPositive; hide NoneFits; hide SamePayload;
      hide Servable; hide Exhausted; hide BestFit; hide Copied;
      FirstIs();
      ghost var k0 := LiveAt(blocks, b);
      var origSize := Hd(hdr, p - OVERHEAD).size;
      NextIs(p - OVERHEAD, k0);
      ghost var rest := Live(blocks) - {b};
      q, k := Malloc(size);
      RoundedTwice(size);
      KeptSubset(old(mem), mem, Live(old(blocks)), rest);
      if q != 0 {
        label grown:
        ghost var c := blocks[k];
        KeptOne(old(mem), mem, Live(old(blocks)), b);
        FirstIs();
        ServedFresh(blocks, k);
        CopyStep(mem, blocks, firstFrag, End(), b, c);
        MemCpy(q, p, origSize);
        label copied:
        KeptSubset(old@grown(mem), mem, Live(blocks) - {c}, rest);
        ghost var i := Free(p, b);
        KeptOne(old@copied(mem), mem, Live(old@copied(blocks)), c);
        KeptSubset(old@copied(mem), mem, Live(old@copied(blocks)), rest);
        Carried(old(mem), old@grown(mem), old@copied(mem), mem, b, c);
        KeptChain(old(mem), old@grown(mem), old@copied(mem), rest);
        KeptChain(old(mem), old@copied(mem), mem, rest);
        k := LiveAt(blocks, c);
      }
    }

    /** `fm_realloc`. */
    method Realloc(p: int, size0: Word, ghost b: Block) returns (q: int, ghost k: nat)
      requires Valid() && (p != 0 ==> b in Live(blocks) && p == b.addr + OVERHEAD)
      modifies this`hdr, this`mem, this`largeSpace, this`realUsed, this`used, this`maxRealUsed, this`blocks
      modifies this`lists, freeHash
      ensures Valid()
      ensures size0 == 0 ==> q == 0 && Live(blocks) == if p != 0 then Live(old(blocks)) - {b} else Live(old(blocks))
      ensures size0 > 0 && p == 0 ==> (q != 0 <==> Servable(old(blocks), lastFrag, RoundUp(size0)))
      ensures size0 > 0 && p == 0 && q != 0 ==> Served(old(blocks), blocks, k, q, RoundUp(size0))
      ensures size0 > 0 && p != 0 && q != 0 ==> Resized(old(blocks), blocks, k, b, q, RoundUp(size0))
      ensures size0 > 0 && p != 0 && q != 0 ==>
                SamePayload(old(mem), p, mem, q, if b.size < blocks[k].size then b.size else blocks[k].size)
      ensures size0 > 0 && q == 0 ==> Live(blocks) == Live(old(blocks)) && Kept(old(mem), mem, Live(blocks))
      ensures size0 > 0 && p != 0 &&
              (RoundUp(size0) <= b.size || RoomBehind(old(blocks), lastFrag, b, RoundUp(size0))) ==>
                q == p
      ensures size0 > 0 && p != 0 && q == 0 ==>
                RoundUp(size0) > b.size && !Servable(old(blocks), lastFrag, RoundUp(size0))
      ensures Kept(old(mem), mem, if p != 0 then Live(old(blocks)) - {b} else Live(old(blocks)))
      ensures old(realUsed <= maxRealUsed) ==> realUsed <= maxRealUsed
      ensures AllPositive(old(blocks)) && RoundUp(size0) > 0 ==> AllPositive(blocks)
    {
      hide ValidBut; hide Tiled; hide Live; hide Kept; hide KeptIn; hide AllPositive; hide NoneFits; hide SamePayload;
      hide Servable; hide Exhausted; hide BestFit; hide Copied; hide RoundUp;
      k := 0;
      ghost var rest := if p != 0 then Live(blocks) - {b} else Live(blocks);
      if size0 == 0 {
        if p != 0 {
          k := Free(p, b);
          KeptSubset(old(mem), mem, Live(old(blocks)), rest);
        } else {
          KeptRefl(mem, rest);
        }
        return 0, 0;
      }
      if p == 0 {
        q, k := Malloc(size0);
        return;
      }
      var f := p - OVERHEAD;
      var size := RoundUp(size0);
      RoundUpExact(size0);
      k := LiveAt(blocks, b);
      NextIs(f, k);
      if Hd(hdr, f).size > size {
        k := Shrink(f, size, b, k);
        q := p;
      } else if Hd(hdr, f).size < size {
        var diff := size - Hd(hdr, f).size;
        var n := Next(f);
        if n < lastFrag && Hd(hdr, n).prev != Null && Hd(hdr, n).size + OVERHEAD >= diff {
          k := GrowInPlace(f, n, size, b, k);
          q := p;
        } else {
          NoRoom(blocks, firstFrag, End(), k, size, lastFrag);
          q, k := Move(p, size, b);
        }
      } else {
        KeptRefl(mem, rest);
        InsideRefl(mem, b);
        KeptPayload(mem, mem, b, b.size);
        q := p;
      }
      RaiseMax();
    }

    // ---------- fm_malloc_init ----------

    /** The part of `fm_malloc_init` that lays out the arena. */
    constructor Layout(start: int, size0: Word)
      requires start > 0 && start + size0 <= WORD && size0 % 8 == 0 && size0 >= INIT_OVERHEAD
      ensures Valid() && fresh(freeHash) && blocks == [Block(start + BLOCK_SIZE, size0 - INIT_OVERHEAD, true)]
      ensures size == size0 && End() == start + size0 && maxRealUsed == INIT_OVERHEAD && realUsed == 2 * INIT_OVERHEAD
      ensures largeLimit == if size0 / 100 * DEFRAG_PERCENT < DEFRAG_LIMIT then DEFRAG_LIMIT
                else size0 / 100 * DEFRAG_PERCENT
    {
      hide Sound; hide FreeSum; hide LargeSum; hide Hash; hide AllKept; hide Tiled;
      size := size0;
      used := size0;
      realUsed := size0 + INIT_OVERHEAD;
      maxRealUsed := INIT_OVERHEAD;
      var first, last := start + BLOCK_SIZE, start + size0 - OVERHEAD;
      firstFrag := first;
      lastFrag := last;
      hdr := map[first := Frag(size0 - INIT_OVERHEAD, 0, Null)][last := Frag(0, 0, Null)];
      mem := map[];
      largeSpace := 0;
      var limit := size0 / 100 * DEFRAG_PERCENT;
      largeLimit := if limit < DEFRAG_LIMIT then DEFRAG_LIMIT else limit;
      freeHash := new Bucket[HASH_SIZE](_ => Bucket(0, 0));
      blocks := [Block(first, size0 - INIT_OVERHEAD, false)];
      lists := seq(HASH_SIZE, _ => []);
      new;
      Bare(hdr, freeHash[..], blocks, lists, firstFrag, End());
      InsertFree(firstFrag, 0);
    }

    /** `fm_malloc_init`: the region is refused exactly if what its alignment leaves cannot hold the control
        structures. */
    static method Init(address: Word, size0: Word) returns (qm: Arena?)
      requires 0 < address && address + size0 <= WORD
      ensures qm == null <==> size0 < Padding(address) || RoundDown(size0 - Padding(address)) < INIT_OVERHEAD
      ensures qm != null ==> fresh(qm) && fresh(qm.freeHash) && qm.Valid() && Live(qm.blocks) == {}
      ensures qm != null ==> 0 <= qm.firstFrag - BLOCK_SIZE - address < 8 && 0 <= address + size0 - qm.End() < 8
      ensures qm != null ==>
                |qm.blocks| == 1 && qm.blocks[0].free
                && qm.blocks[0].addr == qm.firstFrag && qm.blocks[0].End() == qm.End()
                && qm.size == qm.End() - (qm.firstFrag - BLOCK_SIZE)
      ensures qm != null && size0 - Padding(address) >= INIT_OVERHEAD + 8 ==> AllPositive(qm.blocks)
    {
      var start := RoundUp(address);
      RoundUpExact(address);
      var size := size0;
      if size < (start - address) % WORD {
        return null;
      }
      size := size - (start - address) % WORD;
      if size < MIN_FRAG_SIZE + OVERHEAD {
        return null;
      }
      size := RoundDown(size);
      if size < INIT_OVERHEAD {
        return null;
      }
      hide Hash; hide Sound; hide RoundUp; hide RoundDown; hide Padding;
      qm := new Arena.Layout(start, size);
    }

    /** `used` already counts every header, so `real_used`, which adds the headers once more, counts them twice. */
    lemma HeadersCountedTwice()
      requires Valid()
      ensures used == LiveSum(blocks) + INIT_OVERHEAD + (|blocks| - 1) * OVERHEAD
      ensures realUsed == LiveSum(blocks) + 2 * (INIT_OVERHEAD + (|blocks| - 1) * OVERHEAD)
    {
      TotalBytes(blocks, firstFrag, End());
    }

    // ---------- runs ----------

    /** Any sequence of requests, where only pointers that are held are freed or resized: each is answered as `Answers`
        says, from one arena to the next. */
    method Run(ops: seq<Op>) returns (held: set<int>, replies: seq<int>, ghost trace: seq<seq<Block>>)
      requires Valid() && Live(blocks) == {}
      modifies this`hdr, this`mem, this`largeSpace, this`realUsed, this`used, this`maxRealUsed, this`blocks
      modifies this`lists, freeHash
      ensures Valid() && held == Pointers(Live(blocks))
      ensures |replies| == |ops| && |trace| == |ops| + 1 && trace[0] == old(blocks) && trace[|ops|] == blocks
      ensures forall i | 0 <= i < |ops| :: Answers(ops[i], trace[i], trace[i + 1], lastFrag, replies[i])
      ensures old(AllPositive(blocks)) && (forall i | 0 <= i < |ops| :: Proper(ops[i])) ==> AllPositive(blocks)
    {
      hide ValidBut; hide AllPositive; hide Live; hide Kept; hide SamePayload; hide Servable; hide Exhausted;
      hide BestFit; hide RoundUp; hide Tiled; hide Answers; hide Served; hide Resized;
      held, replies, trace := {}, [], [blocks];
      for i := 0 to |ops|
        invariant Valid() && held == Pointers(Live(blocks))
        invariant |replies| == i && |trace| == i + 1 && trace[0] == old(blocks) && trace[i] == blocks
        invariant forall j | 0 <= j < i :: Answers(ops[j], trace[j], trace[j + 1], lastFrag, replies[j])
        invariant old(AllPositive(blocks)) && (forall i | 0 <= i < |ops| :: Proper(ops[i])) ==> AllPositive(blocks)
      {
        var r;
        held, r := Perform(ops[i], held);
        replies, trace := replies + [r], trace + [blocks];
      }
    }

    /** One request of a run. */
    method Perform(op: Op, held0: set<int>) returns (held: set<int>, r: int)
      requires Valid() && held0 == Pointers(Live(blocks))
      modifies this`hdr, this`mem, this`largeSpace, this`realUsed, this`used, this`maxRealUsed, this`blocks
      modifies this`lists, freeHash
      ensures Valid() && held == Pointers(Live(blocks)) && Answers(op, old(blocks), blocks, lastFrag, r)
      ensures old(AllPositive(blocks)) && Proper(op) ==> AllPositive(blocks)
    {
      hide ValidBut; hide AllPositive; hide Live; hide Kept; hide SamePayload; hide Servable; hide Exhausted;
      hide BestFit; hide RoundUp; hide Tiled; hide FreedAt; hide Tight;
      held, r := held0, 0;
      FirstIs();
      match op
      case AllocOp(size) =>
        ProperSize(size);
        ghost var k;
        r, k := Malloc(size);
        if r != 0 {
          ServedFresh(blocks, k);
          PointersGain(Live(blocks), blocks[k]);
          held := held + {r};
        }
      case FreeOp(p) =>
        if p in held {
          ghost var b := Owner(blocks, firstFrag, End(), p);
          ghost var k := Free(p, b);
          held := held - {p};
        }
      case ReallocOp(p, size) =>
        ProperSize(size);
        if p in held {
          ghost var b := Owner(blocks, firstFrag, End(), p);
          ghost var k;
          r, k := Realloc(p, size, b);
          if r != 0 {
            ServedFresh(blocks, k);
            PointersGain(Live(blocks), blocks[k]);
            held := held - {p} + {r};
          } else if size == 0 {
            held := held - {p};
          }
        }
    }
  }

  /** What the request does to the fragments, and what it returns. Only pointers to live fragments are freed or
      resized. */
  ghost predicate Answers(op: Op, b0: seq<Block>, b: seq<Block>, last: int, r: int) {
    match op
    case AllocOp(size) =>
      if Servable(b0, last, RoundUp(size)) then r != 0 && exists k: nat :: Served(b0, b, k, r, RoundUp(size))
      else r == 0 && Live(b) == Live(b0) && Exhausted(b0, b, last, RoundUp(size))
    case FreeOp(p) =>
      r == 0 && if p in Pointers(Live(b0)) then Releases(b0, b, p) else b == b0
    case ReallocOp(p, size) =>
      if p !in Pointers(Live(b0)) then r == 0 && b == b0
      else if size == 0 then r == 0 && Releases(b0, b, p)
      else if r == 0 then Live(b) == Live(b0) && !Servable(b0, last, RoundUp(size))
      else exists x, k: nat :: x in Live(b0) && p == x.addr + OVERHEAD && Resized(b0, b, k, x, r, RoundUp(size))
  }

  ghost predicate Releases(b0: seq<Block>, b: seq<Block>, p: int) {
    exists x :: x in Live(b0) && p == x.addr + OVERHEAD && Live(b) == Live(b0) - {x}
  }

  /** A request of this rounded size succeeds: a free fragment serves it as it is, or joining free neighbours yields one
      that is strictly bigger. */
  ghost predicate Servable(blocks: seq<Block>, last: int, size: nat) {
    !NoneFits(blocks, size) || Joinable(blocks, last, size)
  }

  /** The request got the fragment at `k` and no other live fragment changed. */
  ghost predicate Served(b0: seq<Block>, b: seq<Block>, k: nat, p: int, size: nat) {
    k < |b| && !b[k].free && p == b[k].addr + OVERHEAD && size <= b[k].size < 2 * size + OVERHEAD
    && Live(b) - {b[k]} == Live(b0)
  }

  /** The live fragment at `k`, with some free fragments right of it joined to it, is free now, and the others are as
      they were. */
  ghost predicate FreedAt(b0: seq<Block>, b: seq<Block>, k: nat, last: int) {
    k < |b| && b[k].free
    && exists m: nat :: CoalescedBy(b0, Marked(b, k, false), k, m) && RunBelow(b0, k, m, last)
  }

  /** After a failed request: no two free neighbours, unless the arena ended in an empty free fragment behind another
      free one, and no free fragment exceeds the request. */
  ghost predicate Exhausted(b0: seq<Block>, blocks: seq<Block>, last: int, size: nat) {
    (FreePair(blocks) <==> FreeAtLast(b0, last)) && forall i | 0 <= i < |blocks| && blocks[i].free ::
      blocks[i].size <= size
  }

  /** The live fragment `b` has a free right neighbour that makes up for what is missing. */
  ghost predicate RoomBehind(blocks: seq<Block>, last: int, b: Block, size: nat) {
    exists i | 0 <= i < |blocks| - 1 ::
      blocks[i] == b && blocks[i + 1].free && blocks[i + 1].addr < last
      && size <= b.size + OVERHEAD + blocks[i + 1].size
  }

  /** The live fragment `b` has become the one at `k`, of a size that serves `size` and wastes little, and no other
      live fragment changed. */
  ghost predicate Resized(b0: seq<Block>, blocks: seq<Block>, k: nat, b: Block, q: int, size: nat) {
    k < |blocks| && !blocks[k].free && q == blocks[k].addr + OVERHEAD && size <= blocks[k].size < 2 * size + OVERHEAD
    && Live(blocks) - {blocks[k]} == Live(b0) - {b}
  }

  lemma NoRoom(blocks: seq<Block>, lo: int, hi: int, k: nat, size: nat, last: int)
    requires Tiled(blocks, lo, hi) && k < |blocks|
    requires k + 1 < |blocks| ==>
               !(blocks[k + 1].free && blocks[k + 1].addr < last
                 && size <= blocks[k].size + OVERHEAD + blocks[k + 1].size)
    ensures !RoomBehind(blocks, last, blocks[k], size)
  {
    hide Tiled;
    forall i | 0 <= i < |blocks| && i != k ensures blocks[i].addr != blocks[k].addr {
      if blocks[i].addr == blocks[k].addr {
        SameAddr(blocks, lo, hi, i, k);
      }
    }
  }

  lemma RoundedTwice(size: Word)
    requires size % ROUNDTO == 0
    ensures RoundUp(size) == size
  {
    RoundUpExact(size);
  }

  lemma ServedFresh(blocks: seq<Block>, k: nat)
    requires k < |blocks| && !blocks[k].free
    ensures blocks[k] in Live(blocks)
  {
  }

  lemma ArrivedInPlace(m0: Bytes, m1: Bytes, m2: Bytes, b: Block, n: nat)
    requires KeptIn(m0, m1, b) && SamePayload(m1, b.addr + OVERHEAD, m2, b.addr + OVERHEAD, n) && b.size <= n
    ensures SamePayload(m0, b.addr + OVERHEAD, m2, b.addr + OVERHEAD, b.size)
  {
    var p := b.addr + OVERHEAD;
    forall i | 0 <= i < b.size ensures SameByte(m0, p, m2, p, i) {
      assert SameAt(m0, m1, p + i) && SameByte(m1, p, m2, p, i);
    }
  }

  datatype Op = AllocOp(size: Word) | FreeOp(p: int) | ReallocOp(p: int, size: Word)

  /** The size of the request is one that rounding does not turn into 0. */
  predicate Proper(op: Op) {
    op.FreeOp? || 0 < op.size <= WORD - 8
  }

  lemma ProperSize(size: Word)
    ensures 0 < size <= WORD - 8 ==> RoundUp(size) > 0
  {
    RoundUpExact(size);
  }

  /** The payload addresses of the fragments. */
  ghost function Pointers(s: set<Block>): set<int> {
    set b | b in s :: b.addr + OVERHEAD
  }

  lemma PointersGain(s: set<Block>, c: Block)
    requires c in s
    ensures Pointers(s) == Pointers(s - {c}) + {c.addr + OVERHEAD}
  {
    assert s == s - {c} + {c};
  }

  /** The one live fragment with this payload address. */
  lemma Owner(blocks: seq<Block>, lo: int, hi: int, p: int) returns (b: Block)
    requires Tiled(blocks, lo, hi) && p in Pointers(Live(blocks))
    ensures b in Live(blocks) && p == b.addr + OVERHEAD && p != 0
    ensures Pointers(Live(blocks) - {b}) == Pointers(Live(blocks)) - {p}
  {
    hide Tiled; hide Live;
    b :| b in Live(blocks) && b.addr + OVERHEAD == p;
    var i := IndexOf(blocks, b);
    Inside(blocks, lo, hi, i);
    FirstPositive(blocks, lo, hi);
    forall x | x in Live(blocks) && x.addr == b.addr ensures x == b {
      var o := IndexOf(blocks, x);
      SameAddr(blocks, lo, hi, o, i);
    }
  }

  /** Bytes lost to the alignment of the region. */
  function Padding(address: Word): int {
    (RoundUp(address) - address) % WORD
  }

  /** An arena with one fragment that is on no list yet. */
  lemma Bare(hdr: Headers, bk: seq<Bucket>, blocks: seq<Block>, lists: seq<seq<int>>, lo: int, hi: int)
    requires |blocks| == 1 && blocks[0].addr == lo > 0 && blocks[0].End() == hi <= WORD && !blocks[0].free
    requires blocks[0].size % 8 == 0 && Hd(hdr, lo).size == blocks[0].size
    requires |bk| == |lists| == HASH_SIZE && forall h | 0 <= h < HASH_SIZE :: bk[h] == Bucket(0, 0) && lists[h] == []
    ensures Sound(hdr, bk, blocks, lists, lo, hi, lo) && FreeSum(blocks) == 0 && LargeSum(blocks) == 0
  {
    hide Hash;
    HashRange(blocks[0].size);
  }

  lemma BestNotNone(blocks: seq<Block>, k: nat, size: nat)
    requires BestFit(blocks, k, size)
    ensures !NoneFits(blocks, size)
  {
    assert blocks[k] in blocks;
  }

  lemma BucketAt(hdr: Headers, bk: seq<Bucket>, lists: seq<seq<int>>, h: nat)
    requires ListsOk(hdr, bk, lists) && h < HASH_SIZE
    ensures |bk| == |lists| == HASH_SIZE && BucketOk(hdr, bk[h], lists[h], h)
  {
  }

  /** What soundness says about one fragment. */
  lemma BlockFacts(hdr: Headers, bk: seq<Bucket>, blocks: seq<Block>, lists: seq<seq<int>>, lo: int, hi: int, x: int,
        k: nat)
    requires k < |blocks| && Sound(hdr, bk, blocks, lists, lo, hi, x) && hi <= WORD
    ensures Tiled(blocks, lo, hi) && ListsOk(hdr, bk, lists) && |lists| == HASH_SIZE && HeaderOk(hdr, blocks[k], x)
    ensures 0 < lo <= blocks[k].addr && blocks[k].End() <= hi && blocks[k].size < WORD
            && blocks[k].addr in Addrs(blocks)
    ensures forall h | 0 <= h < HASH_SIZE :: forall a | a in lists[h] :: a in Addrs(blocks)
    ensures !blocks[k].free ==> forall h | 0 <= h < HASH_SIZE :: blocks[k].addr !in lists[h]
  {
    hide Hash;
    Inside(blocks, lo, hi, k);
    if !blocks[k].free {
      BusyUnlisted(hdr, bk, blocks, lists, lo, hi, x, k);
    }
    assert blocks[k] in blocks;
  }
}
