/** The boundary-tag allocator `q_malloc`, with QM_JOIN_FREE: malloc, free and the growing branch of realloc. */
module QMalloc {
  import opened FmHash
  import L = FmLists
  import opened FmBlocks
  import opened QmLists
  import opened QmBlocks
  import opened QmCount
  import opened QmJoin
  import opened QmPayload
  import opened FmCount
  import opened FmPayload
  import FmJoin

  /** `sizeof(struct qm_block)`, rounded up. */
  const QM_BLOCK_SIZE: nat := (6 * 8 + 40 * QM_HASH_SIZE + 15) / 16 * 16
  const QM_INIT_OVERHEAD: nat := QM_BLOCK_SIZE + QM_OVERHEAD

  class Arena {
    /** `struct qm_block`. */
    var size: int
    var used: int
    var realUsed: int
    var maxRealUsed: int
    var firstFrag: int
    var lastFragEnd: int
    const freeHash: array<Lnk>

    /** Memory: heads, end tags, and the bytes not known to have been overwritten by one. */
    var heads: map<int, Head>
    var tails: map<int, Tail>
    var mem: Bytes

    ghost var blocks: seq<Block>
    ghost var lists: seq<seq<int>>

    ghost function End(): int
      reads this
    {
      lastFragEnd + TAIL
    }

    function View(): Mem
      reads this, freeHash
    {
      Mem(heads, tails, freeHash[..])
    }

    /** The structure, but for the links of the fragments in `stale`. */
    ghost predicate Shape(stale: set<int>)
      reads this, freeHash
    {
      End() <= WORD && QSound(View(), blocks, lists, firstFrag, End(), stale)
    }

    /** How far `real_used` is above what the free payload leaves of the size. */
    ghost function RealDrift(): int
      reads this`realUsed, this`blocks, this`size
    {
      realUsed + Payloads(blocks, true) - size
    }

    /** How far `used` is above the live payload. */
    ghost function UsedDrift(): int
      reads this`used, this`blocks
    {
      used - Payloads(blocks, false)
    }

    /** The counters are as far off as given, and no two free neighbours have come about if there were none. */
    ghost predicate Steady(drift: int, liveDrift: int, noPair: bool)
      reads this`realUsed, this`used, this`blocks, this`size
    {
      RealDrift() == drift && UsedDrift() == liveDrift && (noPair ==> NoFreePair(blocks))
    }

    /** The structure is whole, the counters are right, and free neighbours have been joined. */
    ghost predicate Valid()
      reads this, freeHash
    {
      Shape({}) && Steady(0, 0, true)
    }

    // ---------- memory access ----------

    method WriteNxt(r: Ref, x: Ref)
      modifies this`heads, this`mem, freeHash
      ensures View() == SetNxt(old(View()), r, x) && mem == WipeHead(old(mem), r)
    {
      match r
      case Null =>
      case Bkt(h) => if h < freeHash.Length { freeHash[h] := freeHash[h].(first := x); }
      case At(a) =>
        heads := heads[a := Hd(View(), a).(nxt := x)];
        mem := Wipe(mem, a);
    }

    method WritePrv(r: Ref, x: Ref)
      modifies this`tails, this`mem, freeHash
      ensures View() == SetPrv(old(View()), r, x) && mem == WipeTail(old(mem), old(View()), r)
    {
      match r
      case Null =>
      case Bkt(h) => if h < freeHash.Length { freeHash[h] := freeHash[h].(last := x); }
      case At(a) =>
        mem := Wipe(mem, TailLoc(View(), a));
        tails := tails[TailLoc(View(), a) := Tl(View(), TailLoc(View(), a)).(prev := x)];
    }

    method WriteSize(a: int, n: nat)
      modifies this`heads, this`tails, this`mem
      ensures View() == SetSize(old(View()), a, n) && mem == Wipe(Wipe(old(mem), a), a + HEAD + n)
    {
      var m := View();
      heads := heads[a := Hd(m, a).(size := n)];
      tails := tails[a + HEAD + n := Tl(m, a + HEAD + n).(size := n)];
      mem := Wipe(Wipe(mem, a), a + HEAD + n);
    }

    /** A link write while the arena is as in `v0` but for links: no payload is touched. */
    method LinkNxt(r: Ref, x: Ref, ghost v0: Mem, ghost m0: Bytes, ghost stale: set<int>)
      requires QSound(v0, blocks, lists, firstFrag, End(), stale) && End() <= WORD && SameTags(v0, View())
      requires (r.At? ==> r.a in Addrs(blocks)) && QAll(m0, mem, blocks)
      modifies this`heads, this`mem, freeHash
      ensures View() == SetNxt(old(View()), r, x) && SameTags(v0, View()) && QAll(m0, mem, blocks)
    {
      hide QSound; hide SameTags; hide QAll; hide Wipe; hide SetNxt;
      RefSpares(v0, View(), mem, blocks, lists, firstFrag, End(), stale, r);
      LinksSameTags(View(), r, x);
      TagsThen(v0, View(), SetNxt(View(), r, x));
      QAllChain(m0, mem, WipeHead(mem, r), blocks);
      WriteNxt(r, x);
    }

    method LinkPrv(r: Ref, x: Ref, ghost v0: Mem, ghost m0: Bytes, ghost stale: set<int>)
      requires QSound(v0, blocks, lists, firstFrag, End(), stale) && End() <= WORD && SameTags(v0, View())
      requires (r.At? ==> r.a in Addrs(blocks)) && QAll(m0, mem, blocks)
      modifies this`tails, this`mem, freeHash
      ensures View() == SetPrv(old(View()), r, x) && SameTags(v0, View()) && QAll(m0, mem, blocks)
    {
      hide QSound; hide SameTags; hide QAll; hide Wipe; hide SetPrv;
      RefSpares(v0, View(), mem, blocks, lists, firstFrag, End(), stale, r);
      LinksSameTags(View(), r, x);
      TagsThen(v0, View(), SetPrv(View(), r, x));
      QAllChain(m0, mem, WipeTail(mem, View(), r), blocks);
      WritePrv(r, x);
    }

    method CountNo(h: nat, d: int)
      requires h < freeHash.Length
      modifies freeHash
      ensures View() == Bump(old(View()), h, d)
    {
      freeHash[h] := freeHash[h].(no := freeHash[h].no + d);
    }

    // ---------- free lists ----------

    /** The loop of `qm_insert_free`: the first fragment that is not smaller, or the head of the bucket. */
    method FindPlace(n: nat, hash: nat, ghost l: seq<int>) returns (f: Ref, ghost j: nat)
      requires BucketOk(View(), l, hash)
      ensures Fits(View(), l, j, n) && j <= |l| && f == RefAt(l, j, hash)
    {
      hide QmHash; hide L.NoRepeats; hide Nxt; hide Prv;
      LinkAt(View(), l, hash, -1);
      f, j := Nxt(View(), Bkt(hash)), 0;
      while f != Bkt(hash)
        invariant j <= |l| && f == RefAt(l, j, hash) && forall i | 0 <= i < j :: Hd(View(), l[i]).size <= n
        decreases |l| - j
      {
        if n <= Hd(View(), f.a).size {
          break;
        }
        LinkAt(View(), l, hash, j);
        f, j := Nxt(View(), f), j + 1;
      }
    }

    /** `qm_insert_free`, for the busy fragment at `k`. */
    method InsertFree(frag: int, ghost k: nat, ghost stale: set<int>)
      requires k < |blocks| && blocks[k].addr == frag && !blocks[k].free && Shape(stale)
      modifies this`heads, this`tails, this`mem, this`blocks, this`lists, freeHash
      ensures Shape(stale - {frag}) && blocks == Marked(old(blocks), k, true) && QAll(old(mem), mem, blocks)
    {
      hide QSound; hide QmHash; hide Bump; hide SetNxt; hide SetPrv; hide Marked; hide L.Inserted; hide Fits;
      hide QAll; hide SameTags; hide Addrs; hide QMembers;
      BlockHere(stale, k);
      var hash := QmGetHash(Hd(View(), frag).size);
      SizesOk(View(), blocks, lists, firstFrag, End(), stale);
      ghost var l := lists[hash];
      BucketAt(View(), lists, hash);
      var f;
      ghost var j: int;
      f, j := FindPlace(Hd(View(), frag).size, hash, l);
      QAttach(View(), blocks, lists, firstFrag, End(), stale, k, j);
      BeforeIs(View(), l, hash, j);
      RefListed(blocks, lists, hash, j - 1);
      RefListed(blocks, lists, hash, j);
      AddrOf(blocks, k);
      TagsRefl(View());
      QRefl(mem, blocks, {});
      QAllMarked(mem, mem, blocks, k, true);
      ghost var v, m := View(), mem;
      var prev := Prv(View(), f);
      LinkNxt(prev, At(frag), v, m, stale);
      LinkPrv(At(frag), prev, v, m, stale);
      LinkNxt(At(frag), f, v, m, stale);
      LinkPrv(f, At(frag), v, m, stale);
      QAllMarked(m, mem, blocks, k, true);
      CountNo(hash, 1);
      lists := lists[hash := L.Inserted(l, j, frag)];
      blocks := Marked(blocks, k, true);
    }

    /** `qm_detach_free`. */
    method DetachFree(frag: int, ghost l: seq<int>, ghost j: nat, ghost h: nat, ghost stale: set<int>)
      requires Shape(stale) && h < |lists| && l == lists[h] && BucketOk(View(), l, h) && j < |l| && l[j] == frag
      modifies this`heads, this`tails, this`mem, freeHash
      ensures View() == LinkOut(old(View()), l, j, h) && QAll(old(mem), mem, blocks)
    {
      hide QmHash; hide SetNxt; hide SetPrv; hide Nxt; hide Prv; hide QSound; hide QAll; hide SameTags; hide Addrs;
      SizesOk(View(), blocks, lists, firstFrag, End(), stale);
      RefListed(blocks, lists, h, j - 1);
      RefListed(blocks, lists, h, j + 1);
      TagsRefl(View());
      QRefl(mem, blocks, {});
      ghost var v, m := View(), mem;
      LinkAt(View(), l, h, j - 1);
      LinkAt(View(), l, h, j);
      var prev := Prv(View(), At(frag));
      var next := Nxt(View(), At(frag));
      LinkNxt(prev, next, v, m, stale);
      LinkPrv(next, prev, v, m, stale);
    }

    /** `qm_detach_free` and the count of its bucket, for the free fragment at `k`. */
    method Unlist(frag: int, ghost k: nat, ghost stale: set<int>)
      requires k < |blocks| && blocks[k].addr == frag && blocks[k].free && Shape(stale)
      modifies this`heads, this`tails, this`mem, this`blocks, this`lists, freeHash
      ensures Shape(stale + {frag}) && blocks == Marked(old(blocks), k, false) && QAll(old(mem), mem, blocks)
    {
      hide QSound; hide QmHash; hide Bump; hide LinkOut; hide Marked; hide L.Dropped; hide QAll; hide Tiled;
      hide Tagged; hide QMembers; hide BucketOk; hide Addrs; hide Payload;
      BlockHere(stale, k);
      ghost var h := QmHash(Payload(blocks[k]));
      ghost var j := QPosition(View(), blocks, lists, firstFrag, End(), stale, k);
      SizesOk(View(), blocks, lists, firstFrag, End(), stale);
      ghost var l := lists[h];
      BucketAt(View(), lists, h);
      QDetach(View(), blocks, lists, firstFrag, End(), stale, k, j);
      var hash := QmGetHash(Hd(View(), frag).size);
      DetachFree(frag, l, j, h, stale);
      QAllMarked(old(mem), mem, blocks, k, false);
      CountNo(hash, -1);
      lists := lists[h := L.Dropped(l, j)];
      blocks := Marked(blocks, k, false);
    }

    /** What the memory says about the fragment at `k`. */
    lemma BlockHere(stale: set<int>, k: nat)
      requires Shape(stale) && k < |blocks|
      ensures TagOk(View(), blocks[k], stale) && 0 < firstFrag <= blocks[k].addr && blocks[k].End() <= End()
              && Payload(blocks[k]) < WORD
      ensures Hd(View(), blocks[k].addr).size == Payload(blocks[k]) && blocks[k].size == Payload(blocks[k]) + EXTRA
      ensures QmHash(Payload(blocks[k])) < QM_HASH_SIZE && Tiled(blocks, firstFrag, End())
              && Payload(blocks[k]) % QM_ROUNDTO == 0
      ensures NextAddr(blocks, k, End()) == blocks[k].End() && blocks[0].addr == firstFrag
    {
      hide QSound; hide QmHash; hide Tiled;
      QBlockAt(View(), blocks, lists, firstFrag, End(), stale, k);
      SizesOk(View(), blocks, lists, firstFrag, End(), stale);
      EndsAtNext(blocks, firstFrag, End(), k);
    }

    /** `qm_find_free`: a smallest free fragment that serves the request, or null if none does. */
    method FindFree(n: Word) returns (frag: Ref, ghost k: nat)
      requires Shape({})
      ensures frag == Null ==> NoneHolds(blocks, n)
      ensures frag != Null ==> k < |blocks| && frag == At(blocks[k].addr) && blocks[k].free && n <= Payload(blocks[k])
      ensures frag != Null ==> forall b | b in blocks && b.free && n <= Payload(b) :: Payload(blocks[k]) <= Payload(b)
    {
      hide QSound; hide QmHash; hide Nxt; hide Prv; hide BucketOk; hide Below; hide Hd; hide Payload; hide Tiled;
      hide Tagged; hide QMembers;
      hide QLists;
      var hash := QmGetHash(n);
      k := 0;
      BelowStart(blocks, n);
      QmHashRange(n);
      while hash < QM_HASH_SIZE
        invariant hash <= QM_HASH_SIZE && Below(blocks, hash, n)
      {
        SizesOk(View(), blocks, lists, firstFrag, End(), {});
        BucketAt(View(), lists, hash);
        ghost var l, j := lists[hash], 0;
        LinksAt(View(), l, hash, -1);
        frag := Nxt(View(), Bkt(hash));
        while frag != Bkt(hash)
          invariant j <= |l| && frag == RefAt(l, j, hash)
          invariant forall i | 0 <= i < j :: Hd(View(), l[i]).size < n
          decreases |l| - j
        {
          if Hd(View(), frag.a).size >= n {
            k := FirstBest(View(), blocks, lists, firstFrag, End(), hash, j, n);
            return;
          }
          LinksAt(View(), l, hash, j);
          frag, j := Nxt(View(), frag), j + 1;
        }
        BelowNext(View(), blocks, lists, firstFrag, End(), hash, n);
        hash := hash + 1;
      }
      BelowAll(View(), blocks, lists, firstFrag, End(), n);
      frag := Null;
    }

    // ---------- splitting ----------

    /** `split_frag`: a rest that is big enough becomes a free fragment. */
    method SplitFrag(f: int, newSize: nat, ghost k: nat) returns (ret: int)
      requires Shape({}) && k < |blocks| && blocks[k].addr == f && !blocks[k].free
      requires newSize % QM_ROUNDTO == 0 && newSize <= Payload(blocks[k])
      modifies this`heads, this`tails, this`mem, this`realUsed, this`blocks, this`lists, freeHash
      ensures Shape({}) && QAll(old(mem), mem, blocks)
      ensures WorthSplit(Payload(old(blocks)[k]), newSize) ==>
                ret == 0 && blocks == SplitOff(old(blocks), k, newSize) && realUsed == old(realUsed) + QM_OVERHEAD
      ensures !WorthSplit(Payload(old(blocks)[k]), newSize) ==>
                ret == -1 && blocks == old(blocks) && realUsed == old(realUsed)
    {
      hide QSound; hide QmHash; hide Cut; hide SetSize; hide Marked; hide QAll; hide Wipe; hide Tiled;
      BlockHere({}, k);
      QRefl(mem, blocks, {});
      var rest := Hd(View(), f).size - newSize;
      if rest > QM_OVERHEAD + OPTIMIZE || rest >= QM_OVERHEAD + newSize {
        QSplit(View(), blocks, lists, firstFrag, End(), {}, k, newSize);
        CutAt(blocks, k, newSize + EXTRA, k);
        CutAt(blocks, k, newSize + EXTRA, k + 1);
        ghost var c, m := Cut(blocks, k, newSize + EXTRA), mem;
        Eighth(newSize);
        CutTiled(blocks, k, newSize + EXTRA, firstFrag, End());
        WipeBoth(mem, c, firstFrag, End(), k);
        WriteSize(f, newSize);
        ghost var m1 := mem;
        WipeBoth(mem, c, firstFrag, End(), k + 1);
        var n := f + HEAD + newSize + TAIL;
        WriteSize(n, rest - QM_OVERHEAD);
        ghost var m2 := mem;
        QAllChain(m, m1, m2, c);
        realUsed := realUsed + QM_OVERHEAD;
        blocks := Cut(blocks, k, newSize + EXTRA);
        assert {} + {n} == {n};
        InsertFree(n, k + 1, {n});
        assert {n} - {n} == {};
        QAllMarked(m, m2, c, k + 1, true);
        QAllChain(m, m2, mem, blocks);
        ret := 0;
      } else {
        ret := -1;
      }
    }

    // ---------- qm_malloc ----------

    /** `f->u.is_free=0`. */
    method MarkBusy(f: int, ghost k: nat)
      requires Shape({f}) && k < |blocks| && blocks[k].addr == f && !blocks[k].free
      modifies this`heads, this`mem
      ensures QAll(old(mem), mem, blocks)
      ensures Shape({}) && forall a :: Hd(View(), a).size == old(Hd(View(), a).size)
    {
      hide QmHash; hide QLists; hide QMembers; hide Tiled; hide QAll; hide Wipe;
      QBusyUnlisted(View(), blocks, lists, firstFrag, End(), {f}, k);
      BlockHere({f}, k);
      WipeSpares(mem, blocks, firstFrag, End(), k, f);
      ghost var m := View();
      heads := heads[f := Hd(View(), f).(nxt := Null)];
      mem := Wipe(mem, f);
      Cleared(m, View(), blocks, lists, firstFrag, End(), f, k);
    }

    /** The free fragment at `k` leaves its list and becomes busy. */
    method TakeFree(frag: int, ghost k: nat)
      requires Shape({}) && k < |blocks| && blocks[k].addr == frag && blocks[k].free
      modifies this`heads, this`tails, this`mem, this`blocks, this`lists, freeHash
      ensures Shape({}) && blocks == Marked(old(blocks), k, false) && QAll(old(mem), mem, blocks)
    {
      hide QSound; hide QmHash; hide Marked; hide QAll;
      TakenIs(blocks, k);
      Unlist(frag, k, {});
      assert {} + {frag} == {frag};
      ghost var m := mem;
      MarkBusy(frag, k);
      QAllChain(old(mem), m, mem, blocks);
    }

    lemma SizeHere(k: nat)
      requires Shape({}) && k < |blocks|
      ensures Hd(View(), blocks[k].addr).size == Payload(blocks[k]) && blocks[k].addr > 0
              && Tiled(blocks, firstFrag, End())
    {
      hide QSound; hide QmHash; hide Tiled;
      BlockHere({}, k);
    }

    /** The `found` part of `qm_malloc`. */
    method Serve(frag: int, n: Word, ghost k: nat)
      requires Shape({}) && k < |blocks| && blocks[k].addr == frag && blocks[k].free && n <= Payload(blocks[k])
               && n % QM_ROUNDTO == 0
      modifies this`heads, this`tails, this`mem, this`realUsed, this`used, this`maxRealUsed, this`blocks, this`lists
      modifies freeHash
      ensures Shape({}) && blocks == QTaken(old(blocks), k, n) && QAll(old(mem), mem, blocks)
      ensures Steady(old(RealDrift()), old(UsedDrift()), old(NoFreePair(blocks)))
      ensures maxRealUsed == if old(maxRealUsed) < realUsed then realUsed else old(maxRealUsed)
    {
      hide QSound; hide QmHash; hide Marked; hide Payloads; hide NoFreePair; hide SplitOff; hide WorthSplit;
      hide TagOk; hide Hd; hide Tiled; hide Live;
      hide QAll; hide Payload;
      ghost var b0 := blocks;
      SizeHere(k);
      TakenIs(b0, k);
      PayloadFree(b0, k);
      TakenFacts(b0, firstFrag, End(), k, n);
      TakeFree(frag, k);
      ghost var m, b1 := mem, blocks;
      var ret := SplitFrag(frag, n, k);
      ServedBytes(old(mem), m, mem, b1, k, n);
      SizeHere(k);
      realUsed := realUsed + Hd(View(), frag).size;
      used := used + Hd(View(), frag).size;
      if maxRealUsed < realUsed {
        maxRealUsed := realUsed;
      }
    }

    /** `qm_malloc`: with the counter right it serves a request whenever some free fragment can, the early test
        notwithstanding. */
    method Malloc(size0: Word) returns (p: int, ghost k: nat)
      requires Shape({})
      modifies this`heads, this`tails, this`mem, this`realUsed, this`used, this`maxRealUsed, this`blocks, this`lists
      modifies freeHash
      ensures Shape({}) && Steady(old(RealDrift()), old(UsedDrift()), old(NoFreePair(blocks)))
      ensures p == 0 <==> Refuses(old(blocks), old(size - realUsed) % WORD, QmRoundUp(size0))
      ensures old(RealDrift()) == 0 ==> (p == 0 <==> NoneHolds(old(blocks), QmRoundUp(size0)))
      ensures p == 0 ==> blocks == old(blocks) && realUsed == old(realUsed) && used == old(used)
      ensures p != 0 ==> QServed(old(blocks), blocks, k, p, QmRoundUp(size0))
      ensures maxRealUsed == if p != 0 && old(maxRealUsed) < realUsed then realUsed else old(maxRealUsed)
      ensures p != 0 ==>
                k < |blocks| && !blocks[k].free && p == blocks[k].addr + HEAD
                && Live(blocks) - {blocks[k]} == Live(old(blocks))
      ensures QKept(old(mem), mem, Live(old(blocks)))
    {
      hide QSound; hide QmHash; hide Marked; hide Payloads; hide NoFreePair; hide QTaken; hide TagOk; hide Hd;
      hide Live; hide Tiled;
      hide QAll; hide QKept;
      var n: Word := QmRoundUp(size0);
      k := 0;
      QRefl(mem, blocks, Live(blocks));
      FreeIs();
      if n > (size - realUsed) % WORD {
        if RealDrift() == 0 {
          NoneServes(blocks, n, size - realUsed);
        }
        return 0, 0;
      }
      var f;
      f, k := FindFree(n);
      if f == Null {
        return 0, 0;
      }
      SizeHere(k);
      assert blocks[k] in blocks;
      TakenFacts(blocks, firstFrag, End(), k, n);
      Serve(f.a, n, k);
      QAllSome(old(mem), mem, blocks, Live(old(blocks)));
      p := f.a + HEAD;
    }

    lemma FreeIs()
      requires Shape({})
      ensures RealDrift() == 0 ==> Payloads(blocks, true) == size - realUsed == (size - realUsed) % WORD
    {
      hide QSound; hide Payloads; hide Tiled;
      SizesOk(View(), blocks, lists, firstFrag, End(), {});
      PayloadsFit(blocks, firstFrag, End());
    }

    // ---------- qm_free ----------

    /** `FRAG_NEXT`, `FRAG_PREV` and the tests made on them, for the fragment at `k`. */
    lemma Around(k: nat)
      requires Shape({}) && k < |blocks|
      ensures var f := blocks[k].addr; var next := f + QM_OVERHEAD + Hd(View(), f).size;
              next == blocks[k].End() && (next < lastFragEnd <==> k + 1 < |blocks|)
              && (k + 1 < |blocks| ==>
                    next == blocks[k + 1].addr && (Hd(View(), next).nxt != Null <==> blocks[k + 1].free))
      ensures var f := blocks[k].addr; var prev := f - TAIL - Tl(View(), f - TAIL).size - HEAD;
              (f > firstFrag <==> k > 0)
              && (k > 0 ==> prev == blocks[k - 1].addr && (Hd(View(), prev).nxt != Null <==> blocks[k - 1].free))
    {
      hide QSound; hide QmHash; hide Tiled;
      BlockHere({}, k);
      if k + 1 < |blocks| {
        BlockHere({}, k + 1);
      }
      if k > 0 {
        BlockHere({}, k - 1);
        Apart(blocks, firstFrag, End(), 0, k);
      }
    }

    /** `qm_free`: the fragment joins its free neighbours on both sides. */
    method Free(p: int, ghost k: nat)
      requires Shape({}) && (p != 0 ==> k < |blocks| && !blocks[k].free && p == blocks[k].addr + HEAD)
      modifies this`heads, this`tails, this`mem, this`realUsed, this`used, this`blocks, this`lists, freeHash
      ensures Shape({}) && Steady(old(RealDrift()), old(UsedDrift()), old(NoFreePair(blocks)))
      ensures p == 0 ==>
                View() == old(View()) && blocks == old(blocks) && realUsed == old(realUsed) && used == old(used)
      ensures p != 0 ==> blocks == Freed(old(blocks), k) && Live(blocks) == Live(old(blocks)) - {old(blocks)[k]}
      ensures p != 0 ==> used == old(used) - Payload(old(blocks)[k])
      ensures QKept(old(mem), mem, Live(blocks)) && (p == 0 ==> mem == old(mem))
    {
      hide QSound; hide QmHash; hide Payloads; hide NoFreePair; hide Freed; hide Live; hide Payload; hide Tiled;
      hide Hd; hide Times;
      hide FreeRight; hide FreeLeft; hide QKept; hide QAll;
      QRefl(mem, blocks, Live(blocks));
      if p == 0 {
        return;
      }
      FreedCounts(k);
      var f := p - HEAD;
      SizeHere(k);
      used := used - Hd(View(), f).size;
      realUsed := realUsed - Hd(View(), f).size;
      FreeJoin(f, k);
    }

    lemma FreedCounts(k: nat)
      requires Shape({}) && k < |blocks| && !blocks[k].free
      ensures var c := Freed(blocks, k);
              (NoFreePair(blocks) ==> NoFreePair(c)) && Live(c) == Live(blocks) - {blocks[k]}
              && Payloads(c, true) == Payloads(blocks, true) + Payload(blocks[k]) + Times(FreeRight(blocks, k))
              + Times(FreeLeft(blocks, k))
              && Payloads(c, false) == Payloads(blocks, false) - Payload(blocks[k])
    {
      hide QmHash; hide QLists; hide QMembers; hide Payloads; hide NoFreePair; hide Freed; hide Live;
      TaggedBig(View(), blocks, {});
      FreedFacts(blocks, firstFrag, End(), k);
    }

    /** The right neighbour, if it is free, leaves its list. */
    method DetachRight(f: int, n0: nat, ghost k: nat) returns (n: nat, ghost stale: set<int>)
      requires Shape({}) && k < |blocks| && f == blocks[k].addr && n0 == Payload(blocks[k])
      modifies this`heads, this`tails, this`mem, this`realUsed, this`blocks, this`lists, freeHash
      ensures Shape(stale) && blocks == RightTaken(old(blocks), k) && QAll(old(mem), mem, blocks)
      ensures stale == if FreeRight(old(blocks), k) then {old(blocks)[k + 1].addr} else {}
      ensures n == n0 + if FreeRight(old(blocks), k) then QM_OVERHEAD + Payload(old(blocks)[k + 1]) else 0
      ensures realUsed == old(realUsed) - Times(FreeRight(old(blocks), k))
    {
      hide QSound; hide QmHash; hide Marked; hide TagOk; hide Tiled; hide QAll;
      n, stale := n0, {};
      QRefl(mem, blocks, {});
      Around(k);
      SizeHere(k);
      var next := f + QM_OVERHEAD + n0;
      if next < lastFragEnd && Hd(View(), next).nxt != Null {
        SizeHere(k + 1);
        n := n + Hd(View(), next).size + QM_OVERHEAD;
        Unlist(next, k + 1, {});
        stale := {} + {next};
        realUsed := realUsed - QM_OVERHEAD;
      }
    }

    /** And so does the left neighbour. */
    method DetachLeft(f0: int, n0: nat, ghost k: nat, ghost stale0: set<int>)
      returns (f: int, n: nat, ghost stale: set<int>)
      requires Shape(stale0) && k < |blocks| && f0 == blocks[k].addr && (k > 0 ==> blocks[k - 1].addr !in stale0)
      modifies this`heads, this`tails, this`mem, this`realUsed, this`blocks, this`lists, freeHash
      ensures Shape(stale) && blocks == LeftTaken(old(blocks), k) && QAll(old(mem), mem, blocks)
      ensures stale == stale0 + if FreeLeft(old(blocks), k) then {old(blocks)[k - 1].addr} else {}
      ensures n == n0 + if FreeLeft(old(blocks), k) then QM_OVERHEAD + Payload(old(blocks)[k - 1]) else 0
      ensures f == if FreeLeft(old(blocks), k) then old(blocks)[k - 1].addr else f0
      ensures realUsed == old(realUsed) - Times(FreeLeft(old(blocks), k))
    {
      hide QSound; hide QmHash; hide Marked; hide TagOk; hide Tiled; hide QAll;
      f, n, stale := f0, n0, stale0;
      QRefl(mem, blocks, {});
      LeftOf(stale0, k);
      if f > firstFrag {
        var prev := f - TAIL - Tl(View(), f - TAIL).size - HEAD;
        if Hd(View(), prev).nxt != Null {
          n := n + Hd(View(), prev).size + QM_OVERHEAD;
          Unlist(prev, k - 1, stale0);
          stale := stale0 + {prev};
          realUsed := realUsed - QM_OVERHEAD;
          f := prev;
        }
      }
      assert stale == stale0 + if FreeLeft(old(blocks), k) then {old(blocks)[k - 1].addr} else {};
    }

    /** What `FRAG_PREV` finds. */
    lemma LeftOf(stale: set<int>, k: nat)
      requires Shape(stale) && k < |blocks| && (k > 0 ==> blocks[k - 1].addr !in stale)
      ensures var f := blocks[k].addr; var prev := f - TAIL - Tl(View(), f - TAIL).size - HEAD;
              (f > firstFrag <==> k > 0)
              && (k > 0 ==> prev == blocks[k - 1].addr && (Hd(View(), prev).nxt != Null <==> blocks[k - 1].free)
                            && Hd(View(), prev).size == Payload(blocks[k - 1]))
    {
      hide QSound; hide QmHash; hide Tiled;
      BlockHere(stale, k);
      if k > 0 {
        BlockHere(stale, k - 1);
        Apart(blocks, firstFrag, End(), 0, k);
      }
    }

    /** The joining part of `qm_free`. */
    method FreeJoin(f0: int, ghost k: nat)
      requires Shape({}) && k < |blocks| && !blocks[k].free && f0 == blocks[k].addr
      modifies this`heads, this`tails, this`mem, this`realUsed, this`blocks, this`lists, freeHash
      ensures Shape({}) && blocks == Freed(old(blocks), k)
      ensures realUsed == old(realUsed) - Times(FreeRight(old(blocks), k)) - Times(FreeLeft(old(blocks), k))
      ensures QKept(old(mem), mem, Live(old(blocks)) - {old(blocks)[k]})
    {
      hide QSound; hide QmHash; hide Marked; hide Merged; hide SetSize; hide NoFreePair; hide Tiled; hide Live;
      hide TagOk; hide Joined;
      hide RightTaken; hide LeftTaken; hide Payload; hide Payloads; hide Hd; hide Tl; hide QAll; hide QKept; hide Wipe;
      hide Big;
      ghost var b0, m := blocks, mem;
      ghost var rest := Live(b0) - {b0[k]};
      JoinedHere(k);
      SizeHere(k);
      TakenBoth(b0, k);
      JoinedAnyway(b0, k);
      PayloadFree(b0, k);
      ghost var stale;
      var n;
      n, stale := DetachRight(f0, Hd(View(), f0).size, k);
      ghost var m1, b1 := mem, blocks;
      var f;
      f, n, stale := DetachLeft(f0, n, k, stale);
      ghost var m2 := mem;
      TakenBytes(m, m1, m2, b0, k, rest);
      JoinedBytesSpare(m2, b0, firstFrag, End(), k, f, n);
      Rejoin(View(), blocks, lists, firstFrag, End(), stale, k, FreeRight(b0, k), FreeLeft(b0, k));
      WriteSize(f, n);
      blocks := Joined(b0, k);
      ghost var m3 := mem;
      QAllSome(m2, m3, blocks, rest);
      InsertFree(f, Place(b0, k), stale);
      QAllMarked(m3, mem, Joined(b0, k), Place(b0, k), true);
      QAllSome(m3, mem, Joined(b0, k), rest);
      QChain(m, m2, m3, rest);
      QChain(m, m3, mem, rest);
      GoneHere(b0, k, stale - {f});
    }

    /** Facts about the joined fragment. */
    lemma JoinedHere(k: nat)
      requires Shape({}) && k < |blocks| && !blocks[k].free
      ensures Place(blocks, k) < |Joined(blocks, k)| && !Joined(blocks, k)[Place(blocks, k)].free
      ensures Joined(blocks, k)[Place(blocks, k)].addr == if FreeLeft(blocks, k) then blocks[k - 1].addr
                else blocks[k].addr
      ensures Big(Joined(blocks, k)) && Tiled(Joined(blocks, k), firstFrag, End())
      ensures Payload(Joined(blocks, k)[Place(blocks, k)]) == Payload(blocks[k]) + JoinedBytes(blocks, k)
      ensures Live(blocks) - {blocks[k]} <= Live(Joined(blocks, k))
      ensures FreeRight(blocks, k) ==>
                (forall i | 0 <= i < |Joined(blocks, k)| :: Joined(blocks, k)[i].addr != blocks[k + 1].addr)
      ensures FreeRight(blocks, k) && k > 0 ==> blocks[k - 1].addr != blocks[k + 1].addr
    {
      hide QmHash; hide QLists; hide QMembers; hide Payloads; hide NoFreePair; hide Joined; hide Live; hide Tiled;
      TaggedBig(View(), blocks, {});
      JoinedFacts(blocks, firstFrag, End(), k);
      JoinedPlace(blocks, k);
      if FreeRight(blocks, k) {
        RightGone(blocks, firstFrag, End(), k);
        if k > 0 {
          Apart(blocks, firstFrag, End(), k - 1, k + 1);
        }
      }
    }

    /** The right neighbour was stale, and is gone. */
    lemma GoneHere(b0: seq<Block>, k: nat, stale: set<int>)
      requires Shape(stale) && k < |b0| && Place(b0, k) < |Joined(b0, k)|
               && blocks == Marked(Joined(b0, k), Place(b0, k), true)
      requires forall x | x in stale :: FreeRight(b0, k) && x == b0[k + 1].addr
      requires FreeRight(b0, k) ==> forall i | 0 <= i < |Joined(b0, k)| :: Joined(b0, k)[i].addr != b0[k + 1].addr
      ensures Shape({}) && blocks == Freed(b0, k)
    {
      hide QSound; hide Joined;
      forall i | 0 <= i < |blocks| ensures blocks[i].addr !in stale {
        assert blocks[i].addr == Joined(b0, k)[i].addr;
      }
      StaleGone(View(), blocks, lists, firstFrag, End(), stale);
    }

    // ---------- the growing branch of qm_realloc ----------

    /** The free right neighbour becomes part of the fragment. */
    method AbsorbNext(f: int, next: int, ghost k: nat)
      requires Shape({}) && k + 1 < |blocks| && f == blocks[k].addr && !blocks[k].free && next == blocks[k + 1].addr
               && blocks[k + 1].free
      modifies this`heads, this`tails, this`mem, this`realUsed, this`blocks, this`lists, freeHash
      ensures Shape({}) && blocks == FmJoin.Absorbed(old(blocks), k) && realUsed == old(realUsed) - QM_OVERHEAD
      ensures QAll(old(mem), mem, old(blocks))
    {
      hide QSound; hide QmHash; hide Marked; hide Merged; hide TagOk; hide Hd; hide Tiled; hide SetSize; hide QAll;
      hide Wipe; hide Payload;
      ghost var b0, m := blocks, mem;
      AbsorbedGone(k);
      BlockHere({}, k);
      BlockHere({}, k + 1);
      MarkedIs(b0, k + 1, false);
      PayloadFree(b0, k);
      var joined := Hd(View(), f).size + Hd(View(), next).size + QM_OVERHEAD;
      Unlist(next, k + 1, {});
      QAllMarked(m, mem, b0, k + 1, false);
      Rejoin(View(), blocks, lists, firstFrag, End(), {} + {next}, k, true, false);
      ghost var m1 := mem;
      EndsSpare(m1, b0, firstFrag, End(), k);
      WriteSize(f, joined);
      QAllChain(m, m1, mem, b0);
      realUsed := realUsed - QM_OVERHEAD;
      blocks := FmJoin.Absorbed(b0, k);
      StaleGone(View(), blocks, lists, firstFrag, End(), {} + {next});
    }

    /** Growing into a free right neighbour that is big enough. */
    method GrowInPlace(f: int, next: int, n: nat, ghost k: nat)
      requires Shape({}) && k + 1 < |blocks| && f == blocks[k].addr && !blocks[k].free && next == blocks[k + 1].addr
               && blocks[k + 1].free
      requires Payload(blocks[k]) < n <= Payload(blocks[k]) + QM_OVERHEAD + Payload(blocks[k + 1])
               && n % QM_ROUNDTO == 0
      modifies this`heads, this`tails, this`mem, this`realUsed, this`used, this`blocks, this`lists, freeHash
      ensures Shape({}) && blocks == QGrown(old(blocks), k, n) && k < |blocks|
      ensures Steady(old(RealDrift()), old(UsedDrift()), old(NoFreePair(blocks)))
      ensures Live(blocks) - {blocks[k]} == Live(old(blocks)) - {old(blocks)[k]}
              && Snug(Payload(blocks[k]), n)
      ensures blocks[k].addr == f && !blocks[k].free
      ensures QKept(old(mem), mem, Live(old(blocks)) - {old(blocks)[k]})
      ensures SamePayload(old(mem), f + HEAD, mem, f + HEAD, Payload(old(blocks)[k]))
    {
      hide QSound; hide QmHash; hide Marked; hide Merged; hide Payloads; hide NoFreePair; hide SplitOff;
      hide WorthSplit; hide TagOk; hide Hd;
      hide Tiled; hide Live; hide QAll; hide QKept; hide SamePayload; hide Payload; hide FmJoin.Absorbed;
      ghost var b0, m := blocks, mem;
      GrownHere(k, n);
      SizeHere(k);
      var origSize := Hd(View(), f).size;
      AbsorbNext(f, next, k);
      ghost var m1 := mem;
      SizeHere(k);
      QRefl(mem, blocks, {});
      if Hd(View(), f).size > n {
        var ret := SplitFrag(f, n, k);
      } else {
        NotWorth(Hd(View(), f).size, n);
      }
      SizeHere(k);
      GrownBytes(m, m1, mem, b0, blocks, k, Live(b0) - {b0[k]});
      realUsed := realUsed + (Hd(View(), f).size - origSize);
      used := used + (Hd(View(), f).size - origSize);
    }

    /** The absorbed neighbour is no fragment any more. */
    lemma AbsorbedGone(k: nat)
      requires Shape({}) && k + 1 < |blocks| && !blocks[k].free && blocks[k + 1].free
      ensures var c := FmJoin.Absorbed(blocks, k);
              |c| == |blocks| - 1 && !c[k].free && c[k].addr == blocks[k].addr
              && (forall i | 0 <= i < |c| :: c[i].addr != blocks[k + 1].addr)
    {
      hide QmHash; hide QLists; hide QMembers; hide Tiled; hide FmJoin.Absorbed; hide Payload;
      var c := FmJoin.Absorbed(blocks, k);
      FmJoin.AbsorbedAt(blocks, k, k);
      forall i | 0 <= i < |c| ensures c[i].addr != blocks[k + 1].addr {
        FmJoin.AbsorbedAt(blocks, k, i);
        var o := if i <= k then i else i + 1;
        if blocks[o].addr == blocks[k + 1].addr {
          SameAddr(blocks, firstFrag, End(), o, k + 1);
        }
      }
    }

    /** What growing in place will have done. */
    lemma GrownHere(k: nat, n: nat)
      requires Shape({}) && k + 1 < |blocks| && !blocks[k].free && blocks[k + 1].free
      requires Payload(blocks[k]) < n <= Payload(blocks[k]) + QM_OVERHEAD + Payload(blocks[k + 1])
               && n % QM_ROUNDTO == 0
      ensures var c := FmJoin.Absorbed(blocks, k);
              |c| == |blocks| - 1 && !c[k].free && c[k].addr == blocks[k].addr
              && Payload(c[k]) == Payload(blocks[k]) + QM_OVERHEAD + Payload(blocks[k + 1])
      ensures var g := QGrown(blocks, k, n);
              k < |g| && g[k].addr == blocks[k].addr && !g[k].free && Snug(Payload(g[k]), n)
              && (NoFreePair(blocks) ==> NoFreePair(g))
              && Live(g) - {g[k]} == Live(blocks) - {blocks[k]}
              && Payloads(g, false) == Payloads(blocks, false) + Payload(g[k]) - Payload(blocks[k])
              && Payloads(g, true) == Payloads(blocks, true) - (Payload(g[k]) - Payload(blocks[k]))
                                      + (if WorthSplit(Payload(blocks[k]) + QM_OVERHEAD + Payload(blocks[k + 1]), n)
                                        then 0 else QM_OVERHEAD)
    {
      hide QmHash; hide QLists; hide QMembers; hide Payloads; hide NoFreePair; hide Live; hide Tiled;
      hide FmJoin.Absorbed; hide SplitOff;
      TaggedBig(View(), blocks, {});
      RightFacts(blocks, firstFrag, End(), k);
      var c := FmJoin.Absorbed(blocks, k);
      SplitFacts(c, k, n);
      if WorthSplit(Payload(c[k]), n) {
        SplitOffLive(c, firstFrag, End(), k, n);
      }
    }

    method MemCpy(dst: int, src: int, n: nat)
      modifies this`mem
      ensures mem == Copied(old(mem), dst, src, n)
    {
      mem := Copied(mem, dst, src, n);
    }

    /** Moving to another fragment, with the payload. */
    method Move(p: int, n: Word, ghost k0: nat) returns (q: int, ghost k: nat)
      requires Shape({}) && k0 < |blocks| && !blocks[k0].free && p == blocks[k0].addr + HEAD
               && Payload(blocks[k0]) <= QmRoundUp(n)
      modifies this`heads, this`tails, this`mem, this`realUsed, this`used, this`maxRealUsed, this`blocks, this`lists
      modifies freeHash
      ensures Shape({}) && Steady(old(RealDrift()), old(UsedDrift()), old(NoFreePair(blocks)))
      ensures QKept(old(mem), mem, Live(old(blocks)) - {old(blocks)[k0]})
      ensures q == 0 ==> QKept(old(mem), mem, Live(old(blocks)))
      ensures q != 0 ==> SamePayload(old(mem), p, mem, q, Payload(old(blocks)[k0]))
      ensures q == 0 <==> Refuses(old(blocks), old(size - realUsed) % WORD, QmRoundUp(n))
      ensures old(RealDrift()) == 0 ==> (q == 0 <==> NoneHolds(old(blocks), QmRoundUp(n)))
      ensures q == 0 ==> blocks == old(blocks)
      ensures q != 0 ==> k < |blocks| && !blocks[k].free && q == blocks[k].addr + HEAD
                         && Snug(Payload(blocks[k]), QmRoundUp(n))
      ensures q != 0 ==> Live(blocks) - {blocks[k]} == Live(old(blocks)) - {old(blocks)[k0]}
    {
      hide QSound; hide QmHash; hide Payloads; hide NoFreePair; hide RealDrift; hide UsedDrift; hide Freed; hide QTaken;
      hide QKept; hide QAll; hide SamePayload; hide Copied; hide Payload; hide Tiled; hide Refuses; hide NoneHolds;
      hide QmRoundUp; hide Hd;
      ghost var b, live0, m := blocks[k0], Live(blocks), mem;
      ghost var rest := live0 - {b};
      assert b in live0;
      SizeHere(k0);
      var origSize := Hd(View(), p - HEAD).size;
      q, k := Malloc(n);
      QSubset(m, mem, live0, rest);
      if q != 0 {
        ghost var c, live1, m1 := blocks[k], Live(blocks), mem;
        assert c in live1 && live1 - {c} == live0;
        assert live1 - {b} - {c} == live0 - {b};
        KeptOf(m, m1, live0, b);
        ghost var i := FmJoin.LiveAt(blocks, b);
        CopyHere(m1, b, c);
        MemCpy(q, p, origSize);
        ghost var m2 := mem;
        QSubset(m1, m2, live1 - {c}, rest);
        Free(p, i);
        QSubset(m2, mem, Live(blocks), rest);
        KeptOf(m2, mem, Live(blocks), c);
        QCarried(m, m1, m2, mem, b, c);
        QChain(m, m1, m2, rest);
        QChain(m, m2, mem, rest);
        k := FmJoin.LiveAt(blocks, c);
      }
    }

    lemma CopyHere(m: Bytes, b: Block, c: Block)
      requires Shape({}) && b in Live(blocks) && c in Live(blocks) && b != c && Payload(b) <= Payload(c)
      ensures var m' := Copied(m, c.addr + HEAD, b.addr + HEAD, Payload(b));
              SamePayload(m, b.addr + HEAD, m', c.addr + HEAD, Payload(b)) && QKept(m, m', Live(blocks) - {c})
    {
      hide QSound; hide QKept; hide SamePayload; hide Copied; hide Tiled;
      SizesOk(View(), blocks, lists, firstFrag, End(), {});
      forall x | x in Live(blocks) ensures x.size >= EXTRA {
        var i := FmJoin.LiveAt(blocks, x);
        assert TagOk(View(), blocks[i], {});
      }
      QCopyStep(m, blocks, firstFrag, End(), b, c);
    }

    /** `qm_realloc` for requests that do not shrink the fragment. */
    method ReallocGrow(p: int, size0: Word, ghost k0: nat) returns (q: int, ghost k: nat)
      requires Shape({}) && k0 < |blocks| && !blocks[k0].free && p == blocks[k0].addr + HEAD
      requires size0 > 0 && Payload(blocks[k0]) <= QmRoundUp(size0)
      modifies this`heads, this`tails, this`mem, this`realUsed, this`used, this`maxRealUsed, this`blocks, this`lists
      modifies freeHash
      ensures Shape({}) && Steady(old(RealDrift()), old(UsedDrift()), old(NoFreePair(blocks)))
      ensures q == 0 ==> blocks == old(blocks) && Refuses(blocks, old(size - realUsed) % WORD, QmRoundUp(size0))
      ensures q == 0 && old(RealDrift()) == 0 ==> NoneHolds(blocks, QmRoundUp(size0))
      ensures QKept(old(mem), mem, Live(old(blocks)) - {old(blocks)[k0]})
      ensures q == 0 ==> QKept(old(mem), mem, Live(old(blocks)))
      ensures q != 0 ==> SamePayload(old(mem), p, mem, q, Payload(old(blocks)[k0]))
      ensures Payload(old(blocks)[k0]) == QmRoundUp(size0) ==> q == p && blocks == old(blocks)
      ensures Payload(old(blocks)[k0]) < QmRoundUp(size0) && RoomBehind(old(blocks), k0, QmRoundUp(size0)) ==> q == p
      ensures q != 0 ==> k < |blocks| && !blocks[k].free && q == blocks[k].addr + HEAD
                         && Snug(Payload(blocks[k]), QmRoundUp(size0))
      ensures q != 0 ==> Live(blocks) - {blocks[k]} == Live(old(blocks)) - {old(blocks)[k0]}
    {
      hide QSound; hide QmHash; hide Payloads; hide NoFreePair; hide RealDrift; hide UsedDrift; hide QGrown; hide Live;
      hide TagOk; hide Hd;
      hide Refuses; hide NoneHolds; hide Tiled; hide QmRoundUp; hide Payload; hide QKept; hide QAll; hide SamePayload;
      SizeHere(k0);
      QRefl(mem, blocks, Live(blocks));
      QRefl(mem, blocks, Live(blocks) - {blocks[k0]});
      SameInPlace(mem, p, Payload(blocks[k0]));
      k := k0;
      q := p;
      var f := p - HEAD;
      var n: Word := QmRoundUp(size0);
      RoundedTwice(size0);
      if Hd(View(), f).size < n {
        var diff := n - Hd(View(), f).size;
        var next := f + QM_OVERHEAD + Hd(View(), f).size;
        Around(k0);
        if next < lastFragEnd && Hd(View(), next).nxt != Null {
          SizeHere(k0 + 1);
          if Hd(View(), next).size + QM_OVERHEAD >= diff {
            GrownHere(k0, n);
            GrowInPlace(f, next, n, k0);
            return;
          }
        }
        q, k := Move(p, n, k0);
      }
    }

    // ---------- the shrinking branch of qm_realloc ----------

    /** `qm_realloc` for requests that shrink the fragment. `split_frag` returns 0 when it has split, so the counters
        are corrected in the other case: afterwards they are off by exactly what the branch got wrong, and the free
        rest may stand beside a free neighbour. */
    method ReallocShrink(p: int, size0: Word, ghost k: nat) returns (q: int)
      requires Shape({}) && k < |blocks| && !blocks[k].free && p == blocks[k].addr + HEAD
      requires size0 > 0 && QmRoundUp(size0) < Payload(blocks[k])
      modifies this`heads, this`tails, this`mem, this`realUsed, this`used, this`blocks, this`lists, freeHash
      ensures Shape({}) && q == p && k < |blocks| && !blocks[k].free && q == blocks[k].addr + HEAD
      ensures Snug(Payload(blocks[k]), QmRoundUp(size0))
              && Payload(blocks[k]) <= Payload(old(blocks)[k])
      ensures Live(blocks) - {blocks[k]} == Live(old(blocks)) - {old(blocks)[k]}
      ensures QKept(old(mem), mem, Live(old(blocks)) - {old(blocks)[k]})
              && SamePayload(old(mem), p, mem, q, Payload(blocks[k]))
      ensures WorthSplit(Payload(old(blocks)[k]), QmRoundUp(size0)) ==>
                var freed := Payload(old(blocks)[k]) - QmRoundUp(size0);
                blocks == SplitOff(old(blocks), k, QmRoundUp(size0))
                && RealDrift() == old(RealDrift()) + freed && UsedDrift() == old(UsedDrift()) + freed
      ensures !WorthSplit(Payload(old(blocks)[k]), QmRoundUp(size0)) ==>
                blocks == old(blocks) && RealDrift() == old(RealDrift()) + QM_OVERHEAD
                && UsedDrift() == old(UsedDrift())
    {
      hide QSound; hide QmHash; hide Payloads; hide NoFreePair; hide SplitOff; hide WorthSplit; hide TagOk; hide Hd;
      hide Tiled; hide Live;
      hide QKept; hide QAll; hide SamePayload; hide QKeptIn;
      q := p;
      SizeHere(k);
      RoundedTwice(size0);
      var f, n := p - HEAD, QmRoundUp(size0);
      SplitFacts(blocks, k, n);
      if WorthSplit(Payload(blocks[k]), n) {
        SplitOffLive(blocks, firstFrag, End(), k, n);
      }
      var origSize := Hd(View(), f).size;
      var ret := SplitFrag(f, n, k);
      QAllSome(old(mem), mem, blocks, Live(blocks) - {blocks[k]});
      QAllAt(old(mem), mem, blocks, k);
      QKeptPayload(old(mem), mem, blocks[k], Payload(blocks[k]));
      if ret != 0 {
        SizeHere(k);
        realUsed := realUsed - (origSize - Hd(View(), f).size - QM_OVERHEAD);
        used := used - (origSize - Hd(View(), f).size);
      }
    }

    /** `qm_realloc`. Only a shrink moves the counters away from the fragments. */
    method Realloc(p: int, size0: Word, ghost k0: nat) returns (q: int, ghost k: nat)
      requires Shape({}) && (p != 0 ==> k0 < |blocks| && !blocks[k0].free && p == blocks[k0].addr + HEAD)
      modifies this`heads, this`tails, this`mem, this`realUsed, this`used, this`maxRealUsed, this`blocks, this`lists
      modifies freeHash
      ensures Shape({})
      ensures !(p != 0 && Shrinks(old(blocks), k0, size0)) ==>
                Steady(old(RealDrift()), old(UsedDrift()), old(NoFreePair(blocks)))
      ensures size0 == 0 ==> q == 0 && blocks == if p != 0 then Freed(old(blocks), k0) else old(blocks)
      ensures size0 == 0 ==> Live(blocks) == if p != 0 then Live(old(blocks)) - {old(blocks)[k0]} else Live(old(blocks))
      ensures size0 > 0 && q == 0 ==>
                blocks == old(blocks) && Refuses(blocks, old(size - realUsed) % WORD, QmRoundUp(size0))
      ensures size0 > 0 && q != 0 ==> k < |blocks| && !blocks[k].free && q == blocks[k].addr + HEAD
      ensures size0 > 0 && q != 0 ==> Snug(Payload(blocks[k]), QmRoundUp(size0))
      ensures size0 > 0 && p != 0 && q != 0 ==>
                SamePayload(old(mem), p, mem, q, Least(Payload(old(blocks)[k0]), Payload(blocks[k])))
      ensures QKept(old(mem), mem, if p != 0 then Live(old(blocks)) - {old(blocks)[k0]} else Live(old(blocks)))
      ensures size0 > 0 && q == 0 ==> QKept(old(mem), mem, Live(old(blocks)))
      ensures size0 > 0 && q != 0 ==>
                Live(blocks) - {blocks[k]} == if p != 0 then Live(old(blocks)) - {old(blocks)[k0]}
                  else Live(old(blocks))
    {
      hide QSound; hide QmHash; hide Payloads; hide NoFreePair; hide RealDrift; hide UsedDrift; hide QTaken; hide Live;
      hide TagOk; hide Hd;
      hide Refuses; hide NoneHolds; hide Tiled; hide QmRoundUp; hide Payload; hide Freed; hide WorthSplit;
      hide SplitOff; hide RoomBehind;
      hide QKept; hide QAll; hide SamePayload;
      k := k0;
      if size0 == 0 {
        QRefl(mem, blocks, Live(blocks));
        if p != 0 {
          Free(p, k0);
        }
        return 0, 0;
      }
      if p == 0 {
        q, k := Malloc(size0);
        return;
      }
      SizeHere(k0);
      if Hd(View(), p - HEAD).size > QmRoundUp(size0) {
        q := ReallocShrink(p, size0, k0);
      } else {
        q, k := ReallocGrow(p, size0, k0);
      }
    }

    // ---------- qm_malloc_init and runs ----------

    /** The part of `qm_malloc_init` that lays out the arena. */
    constructor Layout(start: int, size0: Word)
      requires start > 0 && start + size0 <= WORD && size0 % 16 == 0 && size0 >= QM_INIT_OVERHEAD
      ensures Valid() && fresh(freeHash)
              && blocks == [Block(start + QM_BLOCK_SIZE, size0 - QM_INIT_OVERHEAD + EXTRA, true)]
      ensures size == size0 && used == 0 && realUsed == maxRealUsed == QM_INIT_OVERHEAD
    {
      hide QSound; hide Payloads; hide QAll; hide QmHash; hide Tiled;
      var first, n := start + QM_BLOCK_SIZE, size0 - QM_INIT_OVERHEAD;
      size := size0;
      used := 0;
      realUsed := QM_INIT_OVERHEAD;
      maxRealUsed := QM_INIT_OVERHEAD;
      firstFrag := first;
      lastFragEnd := start + size0 - TAIL;
      heads := map[first := Head(n, Null)];
      tails := map[start + size0 - TAIL := Tail(n, Null)];
      freeHash := new Lnk[QM_HASH_SIZE](h => if h >= 0 then Lnk(Bkt(h), Bkt(h), 0) else Lnk(Null, Null, 0));
      blocks := [Block(first, n + EXTRA, false)];
      lists := seq(QM_HASH_SIZE, _ => []);
      new;
      QBare(View(), blocks, lists, firstFrag, End());
      hide Tl; hide Hd;
      InsertFree(firstFrag, 0, {});
      assert {} - {firstFrag} == {};
      OneFree(blocks);
    }

    /** `qm_malloc_init`: the region is refused exactly if what its alignment leaves cannot hold the control
        structures. */
    static method Init(address: Word, size0: Word) returns (qm: Arena?)
      requires 0 < address && address + size0 <= WORD
      ensures qm == null <==> size0 < QmPadding(address) || (size0 - QmPadding(address)) / 16 * 16 < QM_INIT_OVERHEAD
      ensures qm != null ==> fresh(qm) && fresh(qm.freeHash) && qm.Valid() && Live(qm.blocks) == {}
      ensures qm != null ==> 0 <= qm.firstFrag - QM_BLOCK_SIZE - address < 16 && 0 <= address + size0 - qm.End() < 16
      ensures qm != null ==>
                |qm.blocks| == 1 && qm.blocks[0].free
                && qm.blocks[0].addr == qm.firstFrag && qm.blocks[0].End() == qm.End()
                && qm.size == qm.End() - (qm.firstFrag - QM_BLOCK_SIZE)
    {
      var start := QmRoundUp(address);
      RoundsAddress(address);
      var size := size0;
      if size < (start - address) % WORD {
        return null;
      }
      size := size - (start - address) % WORD;
      if size < QM_ROUNDTO + QM_OVERHEAD {
        return null;
      }
      size := size / 16 * 16;
      if size < QM_INIT_OVERHEAD {
        return null;
      }
      hide QmRoundUp; hide QmPadding; hide NoFreePair;
      RegionStart(address, size0);
      qm := new Arena.Layout(start, size);
    }

    /** The fragments, and what `qm_malloc` takes for the bytes left. */
    ghost function Snapshot(): Snap
      reads this
    {
      Snap(blocks, (size - realUsed) % WORD)
    }

    /** Any sequence of requests, where only pointers that are held are freed or resized: each is answered as `Answers`
        says, from one arena to the next. The structure is whole throughout; the counters are right and no free
        neighbours are left as long as nothing has been shrunk. */
    method Run(ops: seq<Op>) returns (held: set<int>, replies: seq<int>, ghost trace: seq<Snap>)
      requires Valid() && Live(blocks) == {}
      modifies this`heads, this`tails, this`mem, this`realUsed, this`used, this`maxRealUsed, this`blocks, this`lists
      modifies freeHash
      ensures Shape({}) && held == Pointers(Live(blocks))
      ensures |replies| == |ops| && |trace| == |ops| + 1 && trace[0] == old(Snapshot()) && trace[|ops|] == Snapshot()
      ensures forall i | 0 <= i < |ops| :: Answers(ops[i], trace[i], trace[i + 1].blocks, replies[i])
      ensures (forall i | 0 <= i < |ops| :: !ShrinksHere(ops[i], trace[i].blocks)) ==> Valid()
    {
      hide QSound; hide Live; hide Payloads; hide NoFreePair; hide RealDrift; hide UsedDrift; hide Answers;
      hide ShrinksHere; hide Tiled;
      held, replies, trace := {}, [], [Snapshot()];
      for i := 0 to |ops|
        invariant Shape({}) && held == Pointers(Live(blocks))
        invariant |replies| == i && |trace| == i + 1 && trace[0] == old(Snapshot()) && trace[i] == Snapshot()
        invariant forall j | 0 <= j < i :: Answers(ops[j], trace[j], trace[j + 1].blocks, replies[j])
        invariant (forall j | 0 <= j < i :: !ShrinksHere(ops[j], trace[j].blocks)) ==> Valid()
      {
        var r;
        held, r := Perform(ops[i], held);
        replies, trace := replies + [r], trace + [Snapshot()];
      }
    }

    /** One request of a run. */
    method Perform(op: Op, held0: set<int>) returns (held: set<int>, r: int)
      requires Shape({}) && held0 == Pointers(Live(blocks))
      modifies this`heads, this`tails, this`mem, this`realUsed, this`used, this`maxRealUsed, this`blocks, this`lists
      modifies freeHash
      ensures Shape({}) && held == Pointers(Live(blocks)) && Answers(op, old(Snapshot()), blocks, r)
      ensures !ShrinksHere(op, old(blocks)) ==> Steady(old(RealDrift()), old(UsedDrift()), old(NoFreePair(blocks)))
    {
      hide QSound; hide Live; hide Payloads; hide NoFreePair; hide RealDrift; hide UsedDrift; hide QServed; hide Freed;
      hide QmRoundUp;
      hide Tiled; hide Payload; hide Hd; hide Refuses; hide Shrinks; hide NoneHolds;
      held, r := held0, 0;
      TilingHere();
      match op
      case AllocOp(size) =>
        ghost var k;
        r, k := Malloc(size);
        if r != 0 {
          LiveHere(k);
          PointersGain(Live(blocks), blocks[k]);
          held := held + {r};
        }
      case FreeOp(p) =>
        if p in held {
          ghost var k := Owner(blocks, firstFrag, End(), p);
          Free(p, k);
          held := held - {p};
        }
      case ReallocOp(p, size) =>
        if p in held {
          ghost var k := Owner(blocks, firstFrag, End(), p);
          ghost var k';
          r, k' := Realloc(p, size, k);
          if r != 0 {
            LiveHere(k');
            PointersGain(Live(blocks), blocks[k']);
            held := held - {p} + {r};
            assert QResized(old(blocks), k, blocks, k', r, QmRoundUp(size));
          } else if size == 0 {
            held := held - {p};
          }
        }
    }

    lemma TilingHere()
      requires Shape({})
      ensures Tiled(blocks, firstFrag, End())
    {
    }

    lemma LiveHere(k: nat)
      requires k < |blocks| && !blocks[k].free
      ensures blocks[k] in Live(blocks)
    {
    }
  }

  /** The rest after taking `n` of `s` bytes is worth a fragment of its own. */
  predicate WorthSplit(s: nat, n: nat) {
    s - n > QM_OVERHEAD + OPTIMIZE || s - n >= QM_OVERHEAD + n
  }

  /** A fragment of `s` bytes serves a request for `n`, and wastes at most OPTIMIZE bytes and a header, and less than
      the request and a header. */
  predicate Snug(s: nat, n: nat) {
    n <= s < 2 * n + QM_OVERHEAD && s <= n + QM_OVERHEAD + OPTIMIZE
  }

  /** And what is split off is no crumb: it could serve the request again, or it is a large fragment. */
  lemma SplitOffWorth(b: seq<Block>, k: nat, n: nat)
    requires k < |b| && n <= Payload(b[k])
    ensures if WorthSplit(Payload(b[k]), n) then
              var c := SplitOff(b, k, n);
              |c| == |b| + 1 && Payload(c[k]) == n && c[k + 1].free
              && (n <= Payload(c[k + 1]) || Payload(c[k + 1]) > OPTIMIZE)
            else Snug(Payload(b[k]), n)
  {
    hide Cut;
    if WorthSplit(Payload(b[k]), n) {
      CutAt(b, k, n + EXTRA, k);
      CutAt(b, k, n + EXTRA, k + 1);
    }
  }

  function Least(a: nat, b: nat): nat {
    if a < b then a else b
  }

  /** The request is for less than the fragment at `k` has. */
  ghost predicate Shrinks(b: seq<Block>, k: nat, size: Word) {
    k < |b| && size > 0 && QmRoundUp(size) < Payload(b[k])
  }

  /** Every free fragment is too small. */
  ghost predicate NoneHolds(blocks: seq<Block>, n: nat) {
    forall b | b in blocks && b.free :: Payload(b) < n
  }

  /** `qm_malloc` refuses: there seem to be fewer than `n` bytes left, or every free fragment is too small. */
  ghost predicate Refuses(blocks: seq<Block>, room: nat, n: nat) {
    room < n || NoneHolds(blocks, n)
  }

  /** The fragment at `k` has a free right neighbour that makes up for what is missing. */
  ghost predicate RoomBehind(b: seq<Block>, k: nat, n: nat) {
    k + 1 < |b| && b[k + 1].free && n <= Payload(b[k]) + QM_OVERHEAD + Payload(b[k + 1])
  }

  /** The request got the fragment at `k`; the others are as they were but for the rest split off it. */
  ghost predicate QServed(b0: seq<Block>, b: seq<Block>, k: nat, p: int, n: nat) {
    k < |b0| && k < |b| && b0[k].free && !b[k].free && p == b[k].addr + HEAD && b[k].addr == b0[k].addr
    && Snug(Payload(b[k]), n) && n <= Payload(b0[k])
    && (forall x | x in b0 && x.free && n <= Payload(x) :: Payload(b0[k]) <= Payload(x))
    && b == QTaken(b0, k, n)
  }

  /** The fragment at `k` taken, and split if that is worth it. */
  ghost function QTaken(b: seq<Block>, k: nat, n: nat): seq<Block>
    requires k < |b| && n <= Payload(b[k])
  {
    if WorthSplit(Payload(b[k]), n) then SplitOff(Marked(b, k, false), k, n) else Marked(b, k, false)
  }

  lemma TakenFacts(b: seq<Block>, lo: int, hi: int, k: nat, n: nat)
    requires k < |b| && b[k].free && n <= Payload(b[k]) && Tiled(b, lo, hi) && n % QM_ROUNDTO == 0
    ensures var c := QTaken(b, k, n);
            k < |c| && c[k].addr == b[k].addr && !c[k].free && Snug(Payload(c[k]), n)
            && (NoFreePair(b) ==> NoFreePair(c))
            && Live(c) - {c[k]} == Live(b)
            && Payloads(c, true) == Payloads(b, true) - Payload(c[k]) - (if WorthSplit(Payload(b[k]), n)
               then QM_OVERHEAD else 0)
            && Payloads(c, false) == Payloads(b, false) + Payload(c[k])
  {
    hide Payloads; hide NoFreePair; hide SplitOff; hide Marked; hide Live; hide Tiled;
    TakenIs(b, k);
    if NoFreePair(b) {
      PairTaken(b, k);
      RightBusy(b, k);
    }
    PayloadsMarked(b, k, false, true);
    PayloadsMarked(b, k, false, false);
    SplitFacts(Marked(b, k, false), k, n);
    FmJoin.TakenLive(b, lo, hi, k);
    if WorthSplit(Payload(b[k]), n) {
      MarkedTiled(b, k, false, lo, hi);
      SplitOffLive(Marked(b, k, false), lo, hi, k, n);
    }
  }

  lemma MarkedCutLonger(b: seq<Block>, k: nat, n: nat)
    requires k < |b| && n + QM_OVERHEAD <= Payload(b[k])
    ensures |Cut(b, k, n + EXTRA)| == |b| + 1 && |Marked(Cut(b, k, n + EXTRA), k + 1, true)| == |b| + 1
  {
    hide Cut;
    CutAt(b, k, n + EXTRA, k);
  }

  lemma SplitOffLive(b: seq<Block>, lo: int, hi: int, k: nat, n: nat)
    requires Tiled(b, lo, hi) && k < |b| && !b[k].free && n + QM_OVERHEAD <= Payload(b[k]) && n % QM_ROUNDTO == 0
    ensures |SplitOff(b, k, n)| > k && Live(SplitOff(b, k, n)) - {SplitOff(b, k, n)[k]} == Live(b) - {b[k]}
  {
    hide Cut; hide Live; hide Tiled; hide Marked;
    Eighth(n);
    MarkedCutLonger(b, k, n);
    FmJoin.SplitCutLive(b, lo, hi, k, n + EXTRA);
  }

  lemma Cleared(m: Mem, m': Mem, blocks: seq<Block>, lists: seq<seq<int>>, lo: int, hi: int, f: int, k: nat)
    requires QSound(m, blocks, lists, lo, hi, {f}) && k < |blocks| && blocks[k].addr == f && !blocks[k].free
    requires m' == m.(heads := m.heads[f := Hd(m, f).(nxt := Null)])
             && forall h | 0 <= h < QM_HASH_SIZE :: f !in lists[h]
    ensures QSound(m', blocks, lists, lo, hi, {}) && forall a :: Hd(m', a).size == Hd(m, a).size
  {
    hide QmHash; hide Tiled; hide BucketOk;
    forall i | 0 <= i < |blocks| ensures TagOk(m', blocks[i], {}) {
      assert TagOk(m, blocks[i], {f});
      if i != k && blocks[i].addr == f {
        SameAddr(blocks, lo, hi, i, k);
      }
    }
    ListsKeep(m, m', blocks, lists);
  }

  /** The test `size > qm->size - qm->real_used` only ever refuses what no fragment could serve. */
  lemma NoneServes(blocks: seq<Block>, n: nat, free: int)
    requires Payloads(blocks, true) == free < n
    ensures NoneHolds(blocks, n)
  {
    hide Payloads;
    forall b | b in blocks && b.free ensures Payload(b) < n {
      var i :| 0 <= i < |blocks| && blocks[i] == b;
      PayloadsAtLeast(blocks, i);
    }
  }

  lemma TakenIs(b: seq<Block>, k: nat)
    requires k < |b|
    ensures var c := Marked(b, k, false);
            |c| == |b| && c[k] == b[k].(free := false) && forall i | 0 <= i < |b|
            && i != k :: c[i] == b[i]
  {
  }

  lemma RightBusy(b: seq<Block>, k: nat)
    requires NoFreePair(b) && k < |b| && b[k].free
    ensures k + 1 < |b| ==> !b[k + 1].free
    ensures k > 0 ==> !b[k - 1].free
  {
    if k + 1 < |b| {
      var i := k + 1;
      assert !(b[i - 1].free && b[i].free);
    }
  }

  /** What splitting does to counts, pairs and the fragment itself, whether it splits or not. */
  lemma SplitFacts(b: seq<Block>, k: nat, n: nat)
    requires k < |b| && !b[k].free && n <= Payload(b[k])
    ensures WorthSplit(Payload(b[k]), n) ==> n + QM_OVERHEAD <= Payload(b[k])
    ensures WorthSplit(Payload(b[k]), n) ==>
              var c := SplitOff(b, k, n);
              |c| == |b| + 1 && c[k].addr == b[k].addr && !c[k].free && Payload(c[k]) == n
              && (NoFreePair(b) && (k + 1 < |b| ==> !b[k + 1].free) ==> NoFreePair(c))
              && Payloads(c, true) == Payloads(b, true) + Payload(b[k]) - n - QM_OVERHEAD
              && Payloads(c, false) == Payloads(b, false) - (Payload(b[k]) - n)
    ensures !WorthSplit(Payload(b[k]), n) ==> Snug(Payload(b[k]), n)
  {
    hide Cut; hide Payloads; hide NoFreePair;
    if WorthSplit(Payload(b[k]), n) {
      CutAt(b, k, n + EXTRA, k);
      CutAt(b, k, n + EXTRA, k + 1);
      var c := Cut(b, k, n + EXTRA);
      PayloadsCut(b, k, n, true);
      PayloadsCut(b, k, n, false);
      PayloadsMarked(c, k + 1, true, true);
      PayloadsMarked(c, k + 1, true, false);
      if NoFreePair(b) && (k + 1 < |b| ==> !b[k + 1].free) {
        PairSplit(b, k, n);
      }
    }
  }

  lemma JoinedPlace(b: seq<Block>, k: nat)
    requires k < |b| && Place(b, k) < |Joined(b, k)|
    ensures Joined(b, k)[Place(b, k)].addr == if FreeLeft(b, k) then b[k - 1].addr else b[k].addr
  {
    hide FmJoin.Absorbed; hide JoinedLeft;
    if FreeRight(b, k) {
      FmJoin.AbsorbedAt(b, k, k);
      if k > 0 {
        FmJoin.AbsorbedAt(b, k, k - 1);
      }
      if FreeLeft(b, k) {
        LeftAt(FmJoin.Absorbed(b, k), k, k - 1);
      }
    } else if FreeLeft(b, k) {
      LeftAt(b, k, k - 1);
    }
  }

  /** Whether a fragment is free does not change its payload. */
  lemma PayloadFree(b: seq<Block>, k: nat)
    ensures forall x: Block, y: bool :: Payload(x.(free := y)) == Payload(x)
  {
  }

  /** The fragment at `k` grown over its right neighbour, and split if the rest is worth it. */
  ghost function QGrown(b: seq<Block>, k: nat, n: nat): seq<Block>
    requires k + 1 < |b|
  {
    var c := FmJoin.Absorbed(b, k);
    if k < |c| && n <= Payload(c[k]) && WorthSplit(Payload(c[k]), n) then SplitOff(c, k, n) else c
  }

  /** Taking spares every payload, then splitting does, and the smaller fragment is part of the larger one. */
  lemma ServedBytes(m0: Bytes, m1: Bytes, m2: Bytes, b: seq<Block>, k: nat, n: nat)
    requires k < |b| && !b[k].free && n <= Payload(b[k]) && QAll(m0, m1, b)
    ensures WorthSplit(Payload(b[k]), n) && QAll(m1, m2, SplitOff(b, k, n)) ==> QAll(m0, m2, SplitOff(b, k, n))
    ensures QAll(m1, m2, b) ==> QAll(m0, m2, b)
  {
    hide QKeptIn; hide Cut;
    if QAll(m1, m2, b) {
      QAllChain(m0, m1, m2, b);
    }
    if WorthSplit(Payload(b[k]), n) && QAll(m1, m2, SplitOff(b, k, n)) {
      CutBytes(m0, m1, b, k, n);
      QAllChain(m0, m1, m2, SplitOff(b, k, n));
    }
  }

  /** What was kept before the neighbours became one, and what has been kept since. */
  lemma GrownBytes(m0: Bytes, m1: Bytes, m2: Bytes, b: seq<Block>, g: seq<Block>, k: nat, rest: set<Block>)
    requires k < |b| && k < |g| && !b[k].free && g[k].addr == b[k].addr && Payload(b[k]) <= Payload(g[k])
    requires QAll(m0, m1, b) && QAll(m1, m2, g) && rest <= Live(b) && rest <= Live(g)
    ensures QKept(m0, m2, rest) && SamePayload(m0, b[k].addr + HEAD, m2, b[k].addr + HEAD, Payload(b[k]))
  {
    hide QKeptIn; hide QKept; hide Payload; hide SamePayload;
    QAllSome(m0, m1, b, rest);
    QAllSome(m1, m2, g, rest);
    QChain(m0, m1, m2, rest);
    QKeptPayload(m0, m1, b[k], Payload(b[k]));
    QKeptPayload(m1, m2, g[k], Payload(b[k]));
    QStayed(m0, m1, m2, b[k].addr + HEAD, Payload(b[k]));
  }

  /** Kept payloads stay kept when their fragment is cut. */
  lemma CutBytes(m: Bytes, m': Bytes, b: seq<Block>, k: nat, n: nat)
    requires k < |b| && !b[k].free && n + QM_OVERHEAD <= Payload(b[k]) && QAll(m, m', b)
    ensures QAll(m, m', SplitOff(b, k, n))
  {
    hide Cut;
    var c := Cut(b, k, n + EXTRA);
    CutAt(b, k, n + EXTRA, k);
    CutAt(b, k, n + EXTRA, k + 1);
    forall i | 0 <= i < |c| ensures QKeptIn(m, m', c[i]) {
      CutAt(b, k, n + EXTRA, i);
      assert QKeptIn(m, m', b[if i <= k then i else i - 1]);
    }
    QAllMarked(m, m', c, k + 1, true);
  }

  lemma NotWorth(s: nat, n: nat)
    requires s <= n
    ensures !WorthSplit(s, n)
  {
  }

  lemma RoundedTwice(s: Word)
    ensures QmRoundUp(QmRoundUp(s)) == QmRoundUp(s) && QmRoundUp(s) % QM_ROUNDTO == 0
  {
    var r := QmRoundUp(s);
    assert r % 16 == 0 && r <= WORD - 16;
    assert (r + 15) % WORD == r + 15;
  }

  /** Bytes lost to the alignment of the region. */
  function QmPadding(address: Word): int {
    (QmRoundUp(address) - address) % WORD
  }

  lemma RoundsAddress(a: Word)
    ensures if a <= WORD - 16 then a <= QmRoundUp(a) < a + 16 else QmRoundUp(a) == 0 || QmRoundUp(a) == WORD - 16
    ensures QmRoundUp(a) == 0 && a > 0 ==> QmPadding(a) == WORD - a
  {
    if a + 15 < WORD {
      assert (a + 15) % WORD == a + 15;
    } else {
      assert (a + 15) % WORD == a + 15 - WORD;
    }
  }

  /** A region large enough for the control structures starts at its rounded address. */
  lemma RegionStart(a: Word, size: Word)
    requires 0 < a && (size - QmPadding(a)) / 16 * 16 >= QM_INIT_OVERHEAD && a + size <= WORD
    ensures 0 < QmRoundUp(a) == a + QmPadding(a) && a + QmPadding(a) + (size - QmPadding(a)) / 16 * 16 <= a + size
  {
    hide QmRoundUp;
    RoundsAddress(a);
  }

  datatype Op = AllocOp(size: Word) | FreeOp(p: int) | ReallocOp(p: int, size: Word)

  datatype Snap = Snap(blocks: seq<Block>, room: nat)

  /** A live fragment at `k` with this pointer. */
  ghost predicate Holds(b: seq<Block>, k: nat, p: int) {
    k < |b| && !b[k].free && p == b[k].addr + HEAD
  }

  ghost predicate ShrinksHere(op: Op, b: seq<Block>) {
    op.ReallocOp? && exists k: nat :: Holds(b, k, op.p) && Shrinks(b, k, op.size)
  }

  /** What the request does to the fragments, and what it returns. Only pointers to live fragments are freed or
      resized. */
  ghost predicate Answers(op: Op, s: Snap, b: seq<Block>, r: int) {
    match op
    case AllocOp(size) =>
      if Refuses(s.blocks, s.room, QmRoundUp(size)) then r == 0 && b == s.blocks
      else r != 0 && exists k: nat :: QServed(s.blocks, b, k, r, QmRoundUp(size))
    case FreeOp(p) =>
      r == 0 && if p in Pointers(Live(s.blocks)) then exists k: nat :: Holds(s.blocks, k, p) && b == Freed(s.blocks, k)
                else b == s.blocks
    case ReallocOp(p, size) =>
      if p !in Pointers(Live(s.blocks)) then r == 0 && b == s.blocks
      else if size == 0 then r == 0 && exists k: nat :: Holds(s.blocks, k, p) && b == Freed(s.blocks, k)
      else if r == 0 then b == s.blocks && Refuses(s.blocks, s.room, QmRoundUp(size))
      else exists k: nat, k': nat :: Holds(s.blocks, k, p) && QResized(s.blocks, k, b, k', r, QmRoundUp(size))
  }

  /** The fragment at `k` has become the one at `k'`; the other live ones are as they were. */
  ghost predicate QResized(b0: seq<Block>, k: nat, b: seq<Block>, k': nat, r: int, n: nat) {
    k < |b0| && Holds(b, k', r) && Snug(Payload(b[k']), n) && Live(b) - {b[k']} == Live(b0) - {b0[k]}
  }

  ghost function Pointers(s: set<Block>): set<int> {
    set b | b in s :: b.addr + HEAD
  }

  lemma PointersGain(s: set<Block>, c: Block)
    requires c in s
    ensures Pointers(s) == Pointers(s - {c}) + {c.addr + HEAD}
  {
    assert s == s - {c} + {c};
  }

  /** The one live fragment with this payload address. */
  lemma Owner(blocks: seq<Block>, lo: int, hi: int, p: int) returns (k: nat)
    requires Tiled(blocks, lo, hi) && p in Pointers(Live(blocks))
    ensures k < |blocks| && !blocks[k].free && p == blocks[k].addr + HEAD && p != 0
    ensures Pointers(Live(blocks) - {blocks[k]}) == Pointers(Live(blocks)) - {p}
  {
    hide Tiled; hide Live;
    var b :| b in Live(blocks) && b.addr + HEAD == p;
    k := FmJoin.LiveAt(blocks, b);
    EndsAtNext(blocks, lo, hi, 0);
    Inside(blocks, lo, hi, k);
    forall x | x in Live(blocks) && x.addr == b.addr ensures x == b {
      var o := FmJoin.LiveAt(blocks, x);
      SameAddr(blocks, lo, hi, o, k);
    }
  }

  /** An arena with one fragment that is on no list yet. */
  lemma QBare(m: Mem, blocks: seq<Block>, lists: seq<seq<int>>, lo: int, hi: int)
    requires |blocks| == 1 && blocks[0].addr == lo > 0 && blocks[0].End() == hi <= WORD && !blocks[0].free
    requires blocks[0].size >= EXTRA && Payload(blocks[0]) % QM_ROUNDTO == 0
    requires Hd(m, lo) == Head(Payload(blocks[0]), Null) && Tl(m, hi - TAIL).size == Payload(blocks[0])
    requires |m.bk| == |lists| == QM_HASH_SIZE
             && forall h | 0 <= h < QM_HASH_SIZE :: m.bk[h] == Lnk(Bkt(h), Bkt(h), 0) && lists[h] == []
    ensures QSound(m, blocks, lists, lo, hi, {})
  {
    hide QmHash; hide BucketOk; hide Tiled; hide TagOk; hide QMembers; hide Payload; hide Hd; hide Tl;
    TiledIf(blocks, lo, hi) by { OneTile(blocks[0], lo, hi); }
    BareMembers(blocks, lists) by { QmHashRange(Payload(blocks[0])) by { BareSize(blocks[0], lo, hi); } }
    BareTag(m, blocks[0], lo, hi);
    forall h | 0 <= h < QM_HASH_SIZE ensures BucketOk(m, lists[h], h) {
      EmptyBucket(m, h);
    }
  }

  lemma OneTile(b: Block, lo: int, hi: int)
    requires b.addr == lo && b.End() == hi && b.size >= EXTRA && Payload(b) % QM_ROUNDTO == 0
    ensures b.size % ROUNDTO == 0
  {
    Eighth(Payload(b));
  }

  lemma BareSize(b: Block, lo: int, hi: int)
    requires b.addr == lo > 0 && b.End() == hi <= WORD
    ensures Payload(b) < WORD
  {
  }

  lemma BareMembers(blocks: seq<Block>, lists: seq<seq<int>>)
    requires |blocks| == 1 && !blocks[0].free && QmHash(Payload(blocks[0])) < |lists|
             && forall h | 0 <= h < |lists| :: lists[h] == []
    ensures QMembers(blocks, lists)
  {
    hide QmHash;
  }

  lemma BareTag(m: Mem, b: Block, lo: int, hi: int)
    requires b.addr == lo && b.End() == hi && !b.free && b.size >= EXTRA && Payload(b) % QM_ROUNDTO == 0
    requires Hd(m, lo) == Head(Payload(b), Null) && Tl(m, hi - TAIL).size == Payload(b)
    ensures TagOk(m, b, {})
  {
    hide Hd; hide Tl;
  }

  lemma EmptyBucket(m: Mem, h: nat)
    requires h < |m.bk| && m.bk[h] == Lnk(Bkt(h), Bkt(h), 0)
    ensures BucketOk(m, [], h)
  {
    hide QmHash;
    assert LinkOk(m, [], -1, h);
  }

  lemma OneFree(b: seq<Block>)
    requires |b| == 1 && b[0].free
    ensures Payloads(b, true) == Payload(b[0]) && Payloads(b, false) == 0
  {
    PayloadsOne(b[0], true);
    PayloadsOne(b[0], false);
    assert b == [b[0]];
  }

  lemma LinksAt(m: Mem, l: seq<int>, h: nat, i: int)
    requires BucketOk(m, l, h) && -1 <= i < |l|
    ensures Nxt(m, RefAt(l, i, h)) == RefAt(l, i + 1, h)
  {
    hide QmHash; hide Nxt; hide Prv;
    LinkAt(m, l, h, i);
  }

  lemma BeforeIs(m: Mem, l: seq<int>, h: nat, j: nat)
    requires BucketOk(m, l, h) && j <= |l|
    ensures Prv(m, RefAt(l, j, h)) == RefAt(l, j - 1, h)
  {
    hide QmHash; hide Nxt; hide Prv;
    LinkAt(m, l, h, j - 1);
  }

  /** No free fragment in a bucket below `h` serves the request. */
  ghost predicate Below(blocks: seq<Block>, h: nat, n: nat) {
    forall b | b in blocks && b.free && QmHash(Payload(b)) < h :: Payload(b) < n
  }

  lemma BelowStart(blocks: seq<Block>, n: nat)
    ensures Below(blocks, QmHash(n), n)
  {
    hide QmHash;
    forall b | b in blocks && b.free && QmHash(Payload(b)) < QmHash(n) ensures Payload(b) < n {
      if n <= Payload(b) {
        QmHashMonotone(n, Payload(b));
      }
    }
  }

  lemma BelowNext(m: Mem, blocks: seq<Block>, lists: seq<seq<int>>, lo: int, hi: int, h: nat, n: nat)
    requires QSound(m, blocks, lists, lo, hi, {}) && h < QM_HASH_SIZE && Below(blocks, h, n)
    requires forall i | 0 <= i < |lists[h]| :: Hd(m, lists[h][i]).size < n
    ensures Below(blocks, h + 1, n)
  {
    hide QmHash; hide Tiled; hide BucketOk;
    forall b | b in blocks && b.free && QmHash(Payload(b)) < h + 1 ensures Payload(b) < n {
      var i :| 0 <= i < |blocks| && blocks[i] == b;
      assert TagOk(m, blocks[i], {});
    }
  }

  lemma BelowAll(m: Mem, blocks: seq<Block>, lists: seq<seq<int>>, lo: int, hi: int, n: nat)
    requires QSound(m, blocks, lists, lo, hi, {}) && Below(blocks, QM_HASH_SIZE, n) && hi <= WORD
    ensures NoneHolds(blocks, n)
  {
    hide QmHash; hide QSound;
    forall b | b in blocks && b.free ensures Payload(b) < n {
      var i :| 0 <= i < |blocks| && blocks[i] == b;
      QBlockAt(m, blocks, lists, lo, hi, {}, i);
    }
  }

  /** The first fragment that is big enough, in the first bucket that has one, is a smallest one. */
  lemma FirstBest(m: Mem, blocks: seq<Block>, lists: seq<seq<int>>, lo: int, hi: int, h: nat, j: nat, n: nat)
    returns (k: nat)
    requires QSound(m, blocks, lists, lo, hi, {}) && h < QM_HASH_SIZE && j < |lists[h]| && Below(blocks, h, n)
             && n <= Hd(m, lists[h][j]).size
    requires forall i | 0 <= i < j :: Hd(m, lists[h][i]).size < n
    ensures k < |blocks| && blocks[k].addr == lists[h][j] && blocks[k].free && n <= Payload(blocks[k])
    ensures forall b | b in blocks && b.free && n <= Payload(b) :: Payload(blocks[k]) <= Payload(b)
  {
    hide QmHash; hide Tiled;
    k := QListed(m, blocks, lists, lo, hi, {}, h, lists[h][j]);
    assert TagOk(m, blocks[k], {});
    forall b | b in blocks && b.free && n <= Payload(b) ensures Payload(blocks[k]) <= Payload(b) {
      var i :| 0 <= i < |blocks| && blocks[i] == b;
      assert TagOk(m, blocks[i], {});
      if Payload(b) < Payload(blocks[k]) {
        QmHashMonotone(Payload(b), Payload(blocks[k]));
        assert QmHash(Payload(b)) == h;
        var p :| 0 <= p < |lists[h]| && lists[h][p] == b.addr;
        BucketAt(m, lists, h);
        if p >= j {
          AscendsAt(m, lists[h], h, j, p);
        }
      }
    }
  }

  lemma AscendsAt(m: Mem, l: seq<int>, h: nat, j: nat, p: nat)
    requires BucketOk(m, l, h) && j <= p < |l|
    ensures Hd(m, l[j]).size <= Hd(m, l[p]).size
  {
  }
}
