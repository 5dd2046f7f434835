/** The arena of the boundary-tag allocator. Its fragments are tiled with the blocks of `FmBlocks`, which count 24
    bytes beside the size; head and end tag take 32, so the size of a block is the payload and 8 bytes more. */
module QmBlocks {
  import opened FmHash
  import L = FmLists
  import opened FmBlocks
  import opened QmLists

  const EXTRA: nat := HEAD + TAIL - OVERHEAD
  const QM_OVERHEAD: nat := HEAD + TAIL

  /** The payload of a fragment. */
  function Payload(b: Block): nat {
    if b.size >= EXTRA then b.size - EXTRA else 0
  }

  /** Head and end tag say the size; a fragment whose link is not stale is free exactly when its link is set. */
  ghost predicate TagOk(m: Mem, b: Block, stale: set<int>) {
    b.size >= EXTRA && Payload(b) % QM_ROUNDTO == 0 && Hd(m, b.addr).size == Payload(b)
    && Tl(m, b.End() - TAIL).size == Payload(b)
    && (b.addr !in stale ==> (b.free <==> Hd(m, b.addr).nxt != Null))
  }

  ghost predicate Tagged(m: Mem, blocks: seq<Block>, stale: set<int>) {
    forall i | 0 <= i < |blocks| :: TagOk(m, blocks[i], stale)
  }

  ghost predicate QLists(m: Mem, lists: seq<seq<int>>) {
    |m.bk| == |lists| == QM_HASH_SIZE && forall h | 0 <= h < QM_HASH_SIZE :: BucketOk(m, lists[h], h)
  }

  ghost predicate QMembers(blocks: seq<Block>, lists: seq<seq<int>>) {
    (forall i | 0 <= i < |blocks| :: QmHash(Payload(blocks[i])) < |lists|
      && (blocks[i].free <==> blocks[i].addr in lists[QmHash(Payload(blocks[i]))]))
    && forall h | 0 <= h < |lists| :: forall a | a in lists[h] :: a in Addrs(blocks)
  }

  ghost predicate QSound(m: Mem, blocks: seq<Block>, lists: seq<seq<int>>, lo: int, hi: int, stale: set<int>) {
    Tiled(blocks, lo, hi) && Tagged(m, blocks, stale) && QLists(m, lists) && QMembers(blocks, lists)
  }

  lemma QBlockAt(m: Mem, blocks: seq<Block>, lists: seq<seq<int>>, lo: int, hi: int, stale: set<int>, k: nat)
    requires QSound(m, blocks, lists, lo, hi, stale) && k < |blocks| && hi <= WORD
    ensures TagOk(m, blocks[k], stale) && 0 < lo <= blocks[k].addr && blocks[k].End() <= hi && Payload(blocks[k]) < WORD
    ensures TailLoc(m, blocks[k].addr) == blocks[k].End() - TAIL && blocks[k].addr in Addrs(blocks)
    ensures blocks[k].size == Payload(blocks[k]) + EXTRA && QmHash(Payload(blocks[k])) < QM_HASH_SIZE
  {
    hide QLists; hide QmHash; hide Tiled;
    Inside(blocks, lo, hi, k);
    EndsAtNext(blocks, lo, hi, 0);
    assert TagOk(m, blocks[k], stale);
    assert blocks[k] in blocks;
    QmHashRange(Payload(blocks[k]));
  }

  lemma SpreadOut(m: Mem, blocks: seq<Block>, lo: int, hi: int, stale: set<int>)
    requires Tiled(blocks, lo, hi) && Tagged(m, blocks, stale)
    ensures Spread(m, Addrs(blocks))
  {
    hide Tiled;
    forall a, b | a in Addrs(blocks) && b in Addrs(blocks) && a != b ensures TailLoc(m, a) != TailLoc(m, b) {
      var i := BlockOf(blocks, a);
      var j := BlockOf(blocks, b);
      assert TagOk(m, blocks[i], stale) && TagOk(m, blocks[j], stale);
      if i < j {
        Apart(blocks, lo, hi, i, j);
      } else {
        Apart(blocks, lo, hi, j, i);
      }
    }
  }

  lemma AddrOf(blocks: seq<Block>, k: nat)
    requires k < |blocks|
    ensures blocks[k].addr in Addrs(blocks)
  {
    assert blocks[k] in blocks;
  }

  lemma BlockOf(blocks: seq<Block>, a: int) returns (k: nat)
    requires a in Addrs(blocks)
    ensures k < |blocks| && blocks[k].addr == a
  {
    var b :| b in blocks && b.addr == a;
    k :| 0 <= k < |blocks| && blocks[k] == b;
  }

  /** A listed address is a free fragment of the bucket's hash. */
  lemma QListed(m: Mem, blocks: seq<Block>, lists: seq<seq<int>>, lo: int, hi: int, stale: set<int>, h: nat, a: int)
    returns (k: nat)
    requires QSound(m, blocks, lists, lo, hi, stale) && h < QM_HASH_SIZE && a in lists[h]
    ensures k < |blocks| && blocks[k].addr == a && blocks[k].free && QmHash(Payload(blocks[k])) == h
  {
    hide QmHash; hide Tiled;
    k := BlockOf(blocks, a);
    assert BucketOk(m, lists[h], h);
    assert TagOk(m, blocks[k], stale);
  }

  lemma QBusyUnlisted(m: Mem, blocks: seq<Block>, lists: seq<seq<int>>, lo: int, hi: int, stale: set<int>, k: nat)
    requires QSound(m, blocks, lists, lo, hi, stale) && k < |blocks| && !blocks[k].free
    ensures forall h | 0 <= h < QM_HASH_SIZE :: blocks[k].addr !in lists[h]
  {
    hide QmHash; hide Tiled; hide BucketOk; hide Tagged;
    forall h | 0 <= h < QM_HASH_SIZE ensures blocks[k].addr !in lists[h] {
      if blocks[k].addr in lists[h] {
        var i := QListed(m, blocks, lists, lo, hi, stale, h, blocks[k].addr);
        SameAddr(blocks, lo, hi, i, k);
        assert false;
      }
    }
  }

  lemma SizesOk(m: Mem, blocks: seq<Block>, lists: seq<seq<int>>, lo: int, hi: int, stale: set<int>)
    requires QSound(m, blocks, lists, lo, hi, stale)
    ensures |m.bk| == |lists| == QM_HASH_SIZE && Tiled(blocks, lo, hi) && Tagged(m, blocks, stale)
            && QMembers(blocks, lists) && QLists(m, lists)
  {
  }

  lemma QOneBucket(m: Mem, lists: seq<seq<int>>, g: nat, h: nat, a: int)
    requires QLists(m, lists) && g < QM_HASH_SIZE && h < QM_HASH_SIZE && a in lists[g] && a in lists[h]
    ensures g == h
  {
    hide QmHash;
    assert BucketOk(m, lists[g], g) && BucketOk(m, lists[h], h);
  }

  lemma BucketAt(m: Mem, lists: seq<seq<int>>, h: nat)
    requires QLists(m, lists) && h < QM_HASH_SIZE
    ensures BucketOk(m, lists[h], h) && h < |m.bk|
  {
  }

  // ---------- onto a list ----------

  ghost function Bump(m: Mem, h: nat, d: int): Mem
    requires h < |m.bk|
  {
    m.(bk := m.bk[h := m.bk[h].(no := m.bk[h].no + d)])
  }

  /** Position `j` is the place for this size. */
  ghost predicate Fits(m: Mem, l: seq<int>, j: nat, size: nat) {
    j <= |l| && (forall i | 0 <= i < j :: Hd(m, l[i]).size <= size) && forall i | j <= i < |l| ::
      size <= Hd(m, l[i]).size
  }

  lemma BumpIs(m: Mem, h: nat, d: int)
    requires h < |m.bk|
    ensures var m' := Bump(m, h, d);
            |m'.bk| == |m.bk| && m'.heads == m.heads && m'.tails == m.tails
            && (forall q :: Nxt(m', q) == Nxt(m, q) && Prv(m', q) == Prv(m, q))
            && forall g | 0 <= g < |m.bk| :: m'.bk[g].no == m.bk[g].no + if g == h then d else 0
  {
  }

  lemma InsertedAscends(m: Mem, m': Mem, l: seq<int>, j: nat, a: int)
    requires Ascending(m, l) && Fits(m, l, j, Hd(m, a).size) && (forall x :: Hd(m', x).size == Hd(m, x).size)
    ensures Ascending(m', L.Inserted(l, j, a))
  {
    var g := L.Inserted(l, j, a);
    forall i, k | 0 <= i < k < |g| ensures Hd(m', g[i]).size <= Hd(m', g[k]).size {
      assert g[i] == if i < j then l[i] else if i == j then a else l[i - 1];
      assert g[k] == if k < j then l[k] else if k == j then a else l[k - 1];
    }
  }

  lemma InsertedUnique(l: seq<int>, j: nat, a: int)
    requires L.NoRepeats(l) && a !in l && j <= |l|
    ensures L.NoRepeats(L.Inserted(l, j, a))
  {
  }

  lemma AttachBucket(m: Mem, l: seq<int>, j: nat, a: int, h: nat, s: set<int>)
    requires BucketOk(m, l, h) && a !in l && a in s && (forall x | x in l :: x in s) && Spread(m, s)
    requires Fits(m, l, j, Hd(m, a).size) && QmHash(Hd(m, a).size) == h
    ensures |LinkIn(m, l, j, a, h).bk| == |m.bk|
    ensures BucketOk(Bump(LinkIn(m, l, j, a, h), h, 1), L.Inserted(l, j, a), h)
  {
    hide QmHash; hide LinkIn; hide Linked; hide L.NoRepeats; hide Ascending; hide L.Inserted; hide Nxt; hide Prv;
    hide Bump; hide Hd; hide Tl;
    LinkInIs(m, l, j, a, h, s);
    LinkInLinked(m, l, j, a, h, s);
    var m' := LinkIn(m, l, j, a, h);
    TagSizes(m, m');
    BumpIs(m', h, 1);
    var m2 := Bump(m', h, 1);
    HeadsSame(m', m2);
    InsertedRef(l, j, a, h, 0);
    LinkedFrame(m', m2, L.Inserted(l, j, a), h);
    InsertedAscends(m, m2, l, j, a);
    InsertedUnique(l, j, a);
    InsertedHas(l, j, a);
  }

  lemma TagSizes(m: Mem, m': Mem)
    requires SameTags(m, m')
    ensures |m'.bk| == |m.bk| && (forall a :: Hd(m', a).size == Hd(m, a).size)
            && (forall loc :: Tl(m', loc).size == Tl(m, loc).size)
    ensures forall h | 0 <= h < |m.bk| :: m'.bk[h].no == m.bk[h].no
  {
  }

  lemma HeadsSame(m: Mem, m': Mem)
    requires m'.heads == m.heads && m'.tails == m.tails
    ensures (forall a :: Hd(m', a) == Hd(m, a)) && forall loc :: Tl(m', loc) == Tl(m, loc)
  {
  }

  /** A bucket in which neither sizes nor links change. */
  lemma BucketFrame(m: Mem, m': Mem, l: seq<int>, h: nat)
    requires BucketOk(m, l, h) && h < |m'.bk| && m'.bk[h].no == m.bk[h].no
             && forall a | a in l :: Hd(m', a).size == Hd(m, a).size
    requires Nxt(m', Bkt(h)) == Nxt(m, Bkt(h)) && Prv(m', Bkt(h)) == Prv(m, Bkt(h))
    requires forall a | a in l :: Nxt(m', At(a)) == Nxt(m, At(a)) && Prv(m', At(a)) == Prv(m, At(a))
    ensures BucketOk(m', l, h)
  {
    hide QmHash; hide Nxt; hide Prv; hide Linked; hide Hd;
    LinkedFrame(m, m', l, h);
  }

  lemma AttachOthers(m: Mem, lists: seq<seq<int>>, j: nat, a: int, h: nat, s: set<int>, g: nat)
    requires QLists(m, lists) && h < QM_HASH_SIZE && g < QM_HASH_SIZE && g != h && j <= |lists[h]| && a in s
             && Spread(m, s)
    requires forall x | 0 <= x < QM_HASH_SIZE :: a !in lists[x] && forall y | y in lists[x] :: y in s
    ensures |LinkIn(m, lists[h], j, a, h).bk| == |m.bk|
    ensures BucketOk(Bump(LinkIn(m, lists[h], j, a, h), h, 1), lists[g], g)
  {
    hide QmHash; hide LinkIn; hide Linked; hide L.NoRepeats; hide Ascending; hide Nxt; hide Prv; hide Bump; hide Hd;
    hide Tl;
    var l := lists[h];
    LinkInIs(m, l, j, a, h, s);
    var m' := LinkIn(m, l, j, a, h);
    TagSizes(m, m');
    BumpIs(m', h, 1);
    var m2 := Bump(m', h, 1);
    HeadsSame(m', m2);
    BucketAt(m, lists, g);
    forall x | x in lists[g] ensures Nxt(m2, At(x)) == Nxt(m, At(x)) && Prv(m2, At(x)) == Prv(m, At(x)) {
      NotAround(m, lists, h, g, x, j - 1);
      NotAround(m, lists, h, g, x, j);
    }
    BucketFrame(m, m2, lists[g], g);
  }

  /** A fragment of another bucket is not at any position of this one. */
  lemma NotAround(m: Mem, lists: seq<seq<int>>, h: nat, g: nat, x: int, i: int)
    requires QLists(m, lists) && h < QM_HASH_SIZE && g < QM_HASH_SIZE && g != h && x in lists[g]
    ensures RefAt(lists[h], i, h) != At(x)
  {
    hide QmHash;
    if RefAt(lists[h], i, h) == At(x) {
      QOneBucket(m, lists, g, h, x);
    }
  }

  lemma QMembersAttach(blocks: seq<Block>, lists: seq<seq<int>>, lo: int, hi: int, k: nat, h: nat, j: nat)
    requires k < |blocks| && Tiled(blocks, lo, hi) && QMembers(blocks, lists)
    requires h == QmHash(Payload(blocks[k])) < |lists| && j <= |lists[h]|
    ensures QMembers(Marked(blocks, k, true), lists[h := L.Inserted(lists[h], j, blocks[k].addr)])
  {
    hide QmHash; hide Tiled; hide L.Inserted;
    var a, b := blocks[k].addr, Marked(blocks, k, true);
    var lists' := lists[h := L.Inserted(lists[h], j, a)];
    MarkedTiled(blocks, k, true, lo, hi);
    InsertedHas(lists[h], j, a);
    forall i | 0 <= i < |b|
      ensures QmHash(Payload(b[i])) < |lists'| && (b[i].free <==> b[i].addr in lists'[QmHash(Payload(b[i]))])
    {
      if i != k && blocks[i].addr == a {
        SameAddr(blocks, lo, hi, i, k);
      }
    }
    assert blocks[k] in blocks;
  }

  lemma TaggedAttach(m: Mem, m': Mem, blocks: seq<Block>, lo: int, hi: int, stale: set<int>, k: nat)
    requires Tiled(blocks, lo, hi) && Tagged(m, blocks, stale) && k < |blocks| && Nxt(m', At(blocks[k].addr)) != Null
    requires (forall a :: Hd(m', a).size == Hd(m, a).size) && (forall loc :: Tl(m', loc).size == Tl(m, loc).size)
    requires forall i | 0 <= i < |blocks| && i != k ::
             Nxt(m', At(blocks[i].addr)) == Null <==> Nxt(m, At(blocks[i].addr)) == Null
    ensures Tagged(m', Marked(blocks, k, true), stale - {blocks[k].addr})
  {
    hide Tiled;
    var b := Marked(blocks, k, true);
    forall i | 0 <= i < |b| ensures TagOk(m', b[i], stale - {blocks[k].addr}) {
      assert TagOk(m, blocks[i], stale);
      assert Nxt(m', At(b[i].addr)) == Hd(m', b[i].addr).nxt && Nxt(m, At(b[i].addr)) == Hd(m, b[i].addr).nxt;
      if i != k && blocks[i].addr == blocks[k].addr {
        SameAddr(blocks, lo, hi, i, k);
      }
    }
  }

  /** The links around a position of a good bucket are set. */
  lemma RefNxt(m: Mem, lists: seq<seq<int>>, h: nat, i: int)
    requires QLists(m, lists) && h < QM_HASH_SIZE && 0 <= i < |lists[h]|
    ensures Nxt(m, At(lists[h][i])) != Null
  {
    hide QmHash; hide Nxt; hide Prv;
    BucketAt(m, lists, h);
    LinkAt(m, lists[h], h, i);
  }

  lemma QAttach(m: Mem, blocks: seq<Block>, lists: seq<seq<int>>, lo: int, hi: int, stale: set<int>, k: nat, j: nat)
    requires k < |blocks| && !blocks[k].free && QSound(m, blocks, lists, lo, hi, stale) && hi <= WORD
    requires QmHash(Payload(blocks[k])) < QM_HASH_SIZE
             && Fits(m, lists[QmHash(Payload(blocks[k]))], j, Payload(blocks[k]))
    ensures var a, h := blocks[k].addr, QmHash(Payload(blocks[k]));
            var m' := LinkIn(m, lists[h], j, a, h);
            |m'.bk| == |m.bk| && h < |m.bk|
            && QSound(Bump(m', h, 1), Marked(blocks, k, true), lists[h := L.Inserted(lists[h], j, a)], lo, hi,
                 stale - {a})
  {
    hide QmHash; hide LinkIn; hide Bump; hide Tiled; hide Tagged; hide QMembers; hide Nxt; hide Prv; hide Hd; hide Tl;
    hide BucketOk; hide L.Inserted;
    var a, h := blocks[k].addr, QmHash(Payload(blocks[k]));
    var l := lists[h];
    var s := Addrs(blocks);
    QBlockAt(m, blocks, lists, lo, hi, stale, k);
    QBusyUnlisted(m, blocks, lists, lo, hi, stale, k);
    SpreadOut(m, blocks, lo, hi, stale);
    ListsWithin(blocks, lists);
    BucketAt(m, lists, h);
    AttachBucket(m, l, j, a, h, s);
    LinkInIs(m, l, j, a, h, s);
    var m' := LinkIn(m, l, j, a, h);
    TagSizes(m, m');
    BumpIs(m', h, 1);
    var m2 := Bump(m', h, 1);
    HeadsSame(m', m2);
    forall g | 0 <= g < QM_HASH_SIZE && g != h ensures BucketOk(m2, lists[g], g) {
      AttachOthers(m, lists, j, a, h, s, g);
    }
    forall i | 0 <= i < |blocks| && i != k
      ensures Nxt(m2, At(blocks[i].addr)) == Null <==> Nxt(m, At(blocks[i].addr)) == Null
    {
      if blocks[i].addr == a {
        SameAddr(blocks, lo, hi, i, k);
      }
      if RefAt(l, j - 1, h) == At(blocks[i].addr) {
        RefNxt(m, lists, h, j - 1);
      }
    }
    TaggedAttach(m, m2, blocks, lo, hi, stale, k);
    MarkedTiled(blocks, k, true, lo, hi);
    QMembersAttach(blocks, lists, lo, hi, k, h, j);
  }

  lemma ListsWithin(blocks: seq<Block>, lists: seq<seq<int>>)
    requires QMembers(blocks, lists)
    ensures forall h | 0 <= h < |lists| :: forall a | a in lists[h] :: a in Addrs(blocks)
  {
  }

  // ---------- off a list ----------

  lemma DroppedAscends(m: Mem, m': Mem, l: seq<int>, j: nat)
    requires Ascending(m, l) && j < |l| && (forall x :: Hd(m', x).size == Hd(m, x).size)
    ensures Ascending(m', L.Dropped(l, j))
  {
    var g := L.Dropped(l, j);
    forall i, k | 0 <= i < k < |g| ensures Hd(m', g[i]).size <= Hd(m', g[k]).size {
      assert g[i] == (if i < j then l[i] else l[i + 1]) && g[k] == if k < j then l[k] else l[k + 1];
    }
  }

  lemma DroppedUnique(l: seq<int>, j: nat)
    requires L.NoRepeats(l) && j < |l|
    ensures L.NoRepeats(L.Dropped(l, j))
  {
  }

  lemma DetachBucket(m: Mem, l: seq<int>, j: nat, h: nat, s: set<int>)
    requires BucketOk(m, l, h) && j < |l| && (forall x | x in l :: x in s) && Spread(m, s)
    ensures |LinkOut(m, l, j, h).bk| == |m.bk|
    ensures BucketOk(Bump(LinkOut(m, l, j, h), h, -1), L.Dropped(l, j), h)
  {
    hide QmHash; hide LinkOut; hide Linked; hide L.NoRepeats; hide Ascending; hide L.Dropped; hide Nxt; hide Prv;
    hide Bump; hide Hd; hide Tl;
    LinkOutIs(m, l, j, h, s);
    LinkOutLinked(m, l, j, h, s);
    var m' := LinkOut(m, l, j, h);
    TagSizes(m, m');
    BumpIs(m', h, -1);
    var m2 := Bump(m', h, -1);
    HeadsSame(m', m2);
    DroppedRef(l, j, h, 0);
    LinkedFrame(m', m2, L.Dropped(l, j), h);
    DroppedAscends(m, m2, l, j);
    DroppedUnique(l, j);
    DroppedHas(l, j);
  }

  lemma DetachOthers(m: Mem, lists: seq<seq<int>>, j: nat, h: nat, s: set<int>, g: nat)
    requires QLists(m, lists) && h < QM_HASH_SIZE && g < QM_HASH_SIZE && g != h && j < |lists[h]| && Spread(m, s)
    requires forall x | 0 <= x < QM_HASH_SIZE :: forall y | y in lists[x] :: y in s
    ensures |LinkOut(m, lists[h], j, h).bk| == |m.bk|
    ensures BucketOk(Bump(LinkOut(m, lists[h], j, h), h, -1), lists[g], g)
  {
    hide QmHash; hide LinkOut; hide Linked; hide L.NoRepeats; hide Ascending; hide Nxt; hide Prv; hide Bump; hide Hd;
    hide Tl;
    var l := lists[h];
    LinkOutIs(m, l, j, h, s);
    var m' := LinkOut(m, l, j, h);
    TagSizes(m, m');
    BumpIs(m', h, -1);
    var m2 := Bump(m', h, -1);
    HeadsSame(m', m2);
    BucketAt(m, lists, g);
    forall x | x in lists[g] ensures Nxt(m2, At(x)) == Nxt(m, At(x)) && Prv(m2, At(x)) == Prv(m, At(x)) {
      NotAround(m, lists, h, g, x, j - 1);
      NotAround(m, lists, h, g, x, j + 1);
    }
    BucketFrame(m, m2, lists[g], g);
  }

  lemma QMembersDetach(blocks: seq<Block>, lists: seq<seq<int>>, lo: int, hi: int, k: nat, h: nat, j: nat)
    requires k < |blocks| && Tiled(blocks, lo, hi) && QMembers(blocks, lists)
    requires h == QmHash(Payload(blocks[k])) < |lists| && j < |lists[h]| && lists[h][j] == blocks[k].addr
             && L.NoRepeats(lists[h])
    ensures QMembers(Marked(blocks, k, false), lists[h := L.Dropped(lists[h], j)])
  {
    hide QmHash; hide Tiled; hide L.Dropped; hide L.NoRepeats;
    var a, b := blocks[k].addr, Marked(blocks, k, false);
    var lists' := lists[h := L.Dropped(lists[h], j)];
    MarkedTiled(blocks, k, false, lo, hi);
    DroppedHas(lists[h], j);
    forall i | 0 <= i < |b|
      ensures QmHash(Payload(b[i])) < |lists'| && (b[i].free <==> b[i].addr in lists'[QmHash(Payload(b[i]))])
    {
      if i != k && blocks[i].addr == a {
        SameAddr(blocks, lo, hi, i, k);
      }
    }
  }

  lemma TaggedDetach(m: Mem, m': Mem, blocks: seq<Block>, lo: int, hi: int, stale: set<int>, k: nat)
    requires Tiled(blocks, lo, hi) && Tagged(m, blocks, stale) && k < |blocks|
    requires (forall a :: Hd(m', a).size == Hd(m, a).size) && (forall loc :: Tl(m', loc).size == Tl(m, loc).size)
    requires forall i | 0 <= i < |blocks| && i != k ::
             Nxt(m', At(blocks[i].addr)) == Null <==> Nxt(m, At(blocks[i].addr)) == Null
    ensures Tagged(m', Marked(blocks, k, false), stale + {blocks[k].addr})
  {
    hide Tiled;
    var b := Marked(blocks, k, false);
    forall i | 0 <= i < |b| ensures TagOk(m', b[i], stale + {blocks[k].addr}) {
      assert TagOk(m, blocks[i], stale);
      assert Nxt(m', At(b[i].addr)) == Hd(m', b[i].addr).nxt && Nxt(m, At(b[i].addr)) == Hd(m, b[i].addr).nxt;
    }
  }

  lemma QPosition(m: Mem, blocks: seq<Block>, lists: seq<seq<int>>, lo: int, hi: int, stale: set<int>, k: nat)
    returns (j: nat)
    requires k < |blocks| && blocks[k].free && QSound(m, blocks, lists, lo, hi, stale)
    ensures QmHash(Payload(blocks[k])) < QM_HASH_SIZE && j < |lists[QmHash(Payload(blocks[k]))]|
    ensures lists[QmHash(Payload(blocks[k]))][j] == blocks[k].addr
  {
    hide QmHash;
    j :| 0 <= j < |lists[QmHash(Payload(blocks[k]))]| && lists[QmHash(Payload(blocks[k]))][j] == blocks[k].addr;
  }

  lemma QDetach(m: Mem, blocks: seq<Block>, lists: seq<seq<int>>, lo: int, hi: int, stale: set<int>, k: nat, j: nat)
    requires k < |blocks| && blocks[k].free && QSound(m, blocks, lists, lo, hi, stale)
    requires QmHash(Payload(blocks[k])) < QM_HASH_SIZE && j < |lists[QmHash(Payload(blocks[k]))]|
    requires lists[QmHash(Payload(blocks[k]))][j] == blocks[k].addr
    ensures var a, h := blocks[k].addr, QmHash(Payload(blocks[k]));
            var m' := LinkOut(m, lists[h], j, h);
            |m'.bk| == |m.bk| && h < |m.bk|
            && QSound(Bump(m', h, -1), Marked(blocks, k, false), lists[h := L.Dropped(lists[h], j)], lo, hi,
                 stale + {a})
  {
    hide QmHash; hide LinkOut; hide Bump; hide Tiled; hide Tagged; hide QMembers; hide Nxt; hide Prv; hide Hd; hide Tl;
    hide BucketOk; hide L.Dropped;
    var a, h := blocks[k].addr, QmHash(Payload(blocks[k]));
    var l := lists[h];
    var s := Addrs(blocks);
    SpreadOut(m, blocks, lo, hi, stale);
    ListsWithin(blocks, lists);
    BucketAt(m, lists, h);
    DetachBucket(m, l, j, h, s);
    LinkOutIs(m, l, j, h, s);
    var m' := LinkOut(m, l, j, h);
    TagSizes(m, m');
    BumpIs(m', h, -1);
    var m2 := Bump(m', h, -1);
    HeadsSame(m', m2);
    forall g | 0 <= g < QM_HASH_SIZE && g != h ensures BucketOk(m2, lists[g], g) {
      DetachOthers(m, lists, j, h, s, g);
    }
    forall i | 0 <= i < |blocks| && i != k
      ensures Nxt(m2, At(blocks[i].addr)) == Null <==> Nxt(m, At(blocks[i].addr)) == Null
    {
      if RefAt(l, j - 1, h) == At(blocks[i].addr) {
        RefNxt(m, lists, h, j - 1);
      }
    }
    TaggedDetach(m, m2, blocks, lo, hi, stale, k);
    MarkedTiled(blocks, k, false, lo, hi);
    BucketUnique(m, l, h);
    QMembersDetach(blocks, lists, lo, hi, k, h, j);
  }

  lemma BucketUnique(m: Mem, l: seq<int>, h: nat)
    requires BucketOk(m, l, h)
    ensures L.NoRepeats(l)
  {
  }

  // ---------- joining and splitting ----------

  /** `f->size=size; FRAG_END(f)->size=f->size`. */
  function SetSize(m: Mem, a: int, size: nat): Mem {
    var loc := a + HEAD + size;
    m.(heads := m.heads[a := Hd(m, a).(size := size)], tails := m.tails[loc := Tl(m, loc).(size := size)])
  }

  /** Lists do not notice a change to fragments that are on none of them. */
  lemma ListsKeep(m: Mem, m': Mem, blocks: seq<Block>, lists: seq<seq<int>>)
    requires QLists(m, lists) && m'.bk == m.bk
    requires forall h, a | 0 <= h < QM_HASH_SIZE && a in lists[h] ::
             Hd(m', a) == Hd(m, a) && Tl(m', TailLoc(m, a)) == Tl(m, TailLoc(m, a))
    ensures QLists(m', lists)
  {
    hide QmHash; hide Hd; hide Tl; hide BucketOk;
    forall h | 0 <= h < QM_HASH_SIZE ensures BucketOk(m', lists[h], h) {
      BucketAt(m, lists, h);
      BucketFrame(m, m', lists[h], h);
    }
  }

  /** Soundness reads the heads and end tags of the blocks and the buckets, and nothing else. */
  lemma QFrame(m: Mem, m': Mem, blocks: seq<Block>, lists: seq<seq<int>>, lo: int, hi: int, stale: set<int>)
    requires QSound(m, blocks, lists, lo, hi, stale) && m'.bk == m.bk
    requires forall i | 0 <= i < |blocks| ::
               Hd(m', blocks[i].addr) == Hd(m, blocks[i].addr)
               && Tl(m', blocks[i].End() - TAIL) == Tl(m, blocks[i].End() - TAIL)
    ensures QSound(m', blocks, lists, lo, hi, stale)
  {
    hide QmHash; hide Tiled; hide BucketOk; hide Hd; hide Tl;
    forall i | 0 <= i < |blocks| ensures TagOk(m', blocks[i], stale) {
      assert TagOk(m, blocks[i], stale);
    }
    forall h, a | 0 <= h < QM_HASH_SIZE && a in lists[h]
      ensures Hd(m', a) == Hd(m, a) && Tl(m', TailLoc(m, a)) == Tl(m, TailLoc(m, a))
    {
      var k := QListed(m, blocks, lists, lo, hi, stale, h, a);
      assert TagOk(m, blocks[k], stale);
    }
    ListsKeep(m, m', blocks, lists);
  }

  /** What two blocks have as one. */
  ghost function Fused(blocks: seq<Block>, k: nat): nat
    requires k + 1 < |blocks|
  {
    Payload(blocks[k]) + QM_OVERHEAD + Payload(blocks[k + 1])
  }

  lemma FuseTags(m: Mem, blocks: seq<Block>, lo: int, hi: int, stale: set<int>, k: nat)
    requires k + 1 < |blocks| && !blocks[k].free && Tiled(blocks, lo, hi) && Tagged(m, blocks, stale)
    ensures Tagged(SetSize(m, blocks[k].addr, Fused(blocks, k)), Merged(blocks, k), stale)
  {
    hide Merged; hide Tiled;
    var a, b, m' := blocks[k].addr, Merged(blocks, k), SetSize(m, blocks[k].addr, Fused(blocks, k));
    MergedAt(blocks, k, k);
    assert TagOk(m, blocks[k], stale) && TagOk(m, blocks[k + 1], stale);
    EndsAtNext(blocks, lo, hi, k);
    SixteenMod(Payload(blocks[k]), Payload(blocks[k + 1]));
    forall i | 0 <= i < |b| ensures TagOk(m', b[i], stale) {
      var o := if i <= k then i else i + 1;
      MergedAt(blocks, k, i);
      assert TagOk(m, blocks[o], stale);
      if i != k {
        if blocks[o].addr == a {
          SameAddr(blocks, lo, hi, o, k);
        }
        EndsApart(blocks, lo, hi, o, k + 1);
      }
    }
  }

  lemma SixteenMod(a: int, b: int)
    requires a % QM_ROUNDTO == 0 && b % QM_ROUNDTO == 0
    ensures (a + QM_OVERHEAD + b) % QM_ROUNDTO == 0 && (a - b - QM_OVERHEAD) % QM_ROUNDTO == 0
  {
    var x, y := a / QM_ROUNDTO, b / QM_ROUNDTO;
    assert a == 16 * x && b == 16 * y;
    SixteenTimes(x + y + 2);
    SixteenTimes(x - y - 2);
  }

  lemma SixteenTimes(x: int)
    ensures (16 * x) % QM_ROUNDTO == 0
  {
  }

  lemma EndsApart(blocks: seq<Block>, lo: int, hi: int, i: nat, j: nat)
    requires Tiled(blocks, lo, hi) && i < |blocks| && j < |blocks| && i != j
    ensures blocks[i].End() != blocks[j].End()
  {
    hide Tiled;
    if i < j {
      Apart(blocks, lo, hi, i, j);
    } else {
      Apart(blocks, lo, hi, j, i);
    }
  }

  /** Writing sizes at fragments that are on no list. */
  lemma UnlistedSize(m: Mem, blocks: seq<Block>, lists: seq<seq<int>>, lo: int, hi: int, stale: set<int>, a: int,
        size: nat)
    requires QSound(m, blocks, lists, lo, hi, stale) && forall h | 0 <= h < QM_HASH_SIZE :: a !in lists[h]
    requires forall k | 0 <= k < |blocks| && blocks[k].free :: blocks[k].End() - TAIL != a + HEAD + size
    ensures QLists(SetSize(m, a, size), lists)
  {
    hide QmHash; hide Tiled; hide BucketOk;
    var m' := SetSize(m, a, size);
    forall h, x | 0 <= h < QM_HASH_SIZE && x in lists[h]
      ensures Hd(m', x) == Hd(m, x) && Tl(m', TailLoc(m, x)) == Tl(m, TailLoc(m, x))
    {
      var k := QListed(m, blocks, lists, lo, hi, stale, h, x);
      assert TagOk(m, blocks[k], stale);
    }
    ListsKeep(m, m', blocks, lists);
  }

  lemma QFuse(m: Mem, blocks: seq<Block>, lists: seq<seq<int>>, lo: int, hi: int, stale: set<int>, k: nat)
    requires k + 1 < |blocks| && !blocks[k].free && !blocks[k + 1].free && QSound(m, blocks, lists, lo, hi, stale)
             && hi <= WORD
    ensures QSound(SetSize(m, blocks[k].addr, Fused(blocks, k)), Merged(blocks, k), lists, lo, hi, stale)
  {
    hide QmHash; hide Merged; hide Tiled; hide Tagged; hide QMembers; hide BucketOk; hide SetSize; hide QLists;
    var a, b := blocks[k].addr, Merged(blocks, k);
    QBlockAt(m, blocks, lists, lo, hi, stale, k);
    QBlockAt(m, blocks, lists, lo, hi, stale, k + 1);
    EndsAtNext(blocks, lo, hi, k);
    QBusyUnlisted(m, blocks, lists, lo, hi, stale, k);
    QBusyUnlisted(m, blocks, lists, lo, hi, stale, k + 1);
    forall i | 0 <= i < |blocks| && blocks[i].free ensures blocks[i].End() - TAIL != a + HEAD + Fused(blocks, k) {
      EndsApart(blocks, lo, hi, i, k + 1);
    }
    UnlistedSize(m, blocks, lists, lo, hi, stale, a, Fused(blocks, k));
    FuseTags(m, blocks, lo, hi, stale, k);
    MergeTiled(blocks, k, lo, hi);
    MergedAt(blocks, k, k);
    Inside(b, lo, hi, k);
    SizesOk(m, blocks, lists, lo, hi, stale);
    QmHashRange(Payload(b[k]));
    QMembersFuse(blocks, lists, k);
  }

  lemma QMembersFuse(blocks: seq<Block>, lists: seq<seq<int>>, k: nat)
    requires k + 1 < |blocks| && QMembers(blocks, lists)
    requires forall g | 0 <= g < |lists| :: blocks[k].addr !in lists[g] && blocks[k + 1].addr !in lists[g]
    requires |Merged(blocks, k)| > k && QmHash(Payload(Merged(blocks, k)[k])) < |lists|
    ensures QMembers(Merged(blocks, k), lists)
  {
    hide QmHash; hide Merged;
    var b := Merged(blocks, k);
    MergedAt(blocks, k, k);
    forall i | 0 <= i < |b|
      ensures QmHash(Payload(b[i])) < |lists| && (b[i].free <==> b[i].addr in lists[QmHash(Payload(b[i]))])
    {
      MergedAt(blocks, k, i);
    }
    forall g, y | 0 <= g < |lists| && y in lists[g] ensures y in Addrs(b) {
      var o := BlockOf(blocks, y);
      var i := if o < k then o else o - 1;
      MergedAt(blocks, k, i);
      assert b[i] in b;
    }
  }

  /** The memory after the writes of `split_frag`. */
  ghost function SplitMem(m: Mem, a: int, size: nat, rest: nat): Mem {
    SetSize(SetSize(m, a, size), a + QM_OVERHEAD + size, rest)
  }

  lemma SplitTags(m: Mem, blocks: seq<Block>, lo: int, hi: int, stale: set<int>, k: nat, size: nat)
    requires k < |blocks| && !blocks[k].free && Tiled(blocks, lo, hi) && Tagged(m, blocks, stale)
    requires size % QM_ROUNDTO == 0 && size + QM_OVERHEAD <= Payload(blocks[k])
    ensures Tagged(SplitMem(m, blocks[k].addr, size, Payload(blocks[k]) - size - QM_OVERHEAD),
              Cut(blocks, k, size + EXTRA),
                   stale + {RestAddr(blocks, k, size + EXTRA)})
  {
    hide Cut; hide Tiled;
    var a, n, c := blocks[k].addr, RestAddr(blocks, k, size + EXTRA), Cut(blocks, k, size + EXTRA);
    var rest := Payload(blocks[k]) - size - QM_OVERHEAD;
    var m' := SplitMem(m, a, size, rest);
    CutAt(blocks, k, size + EXTRA, k);
    CutAt(blocks, k, size + EXTRA, k + 1);
    assert TagOk(m, blocks[k], stale);
    SixteenMod(Payload(blocks[k]), size);
    assert Hd(m', a) == Hd(m, a).(size := size) && Hd(m', n).size == rest;
    assert Tl(m', a + HEAD + size).size == size && Tl(m', n + HEAD + rest).size == rest
           && n + HEAD + rest == blocks[k].End() - TAIL;
    forall i | 0 <= i < |c| ensures TagOk(m', c[i], stale + {n}) {
      CutAt(blocks, k, size + EXTRA, i);
      if i != k && i != k + 1 {
        var o := if i < k then i else i - 1;
        assert TagOk(m, blocks[o], stale);
        NewAddr(blocks, lo, hi, k, size + EXTRA, o);
        CutApart(blocks, lo, hi, k, o);
      }
    }
  }

  /** Another block is wholly outside this one. */
  lemma CutApart(blocks: seq<Block>, lo: int, hi: int, k: nat, o: nat)
    requires Tiled(blocks, lo, hi) && k < |blocks| && o < |blocks| && o != k
    ensures blocks[o].End() <= blocks[k].addr || blocks[k].End() <= blocks[o].addr
  {
    hide Tiled;
    if o < k {
      Apart(blocks, lo, hi, o, k);
    } else {
      Apart(blocks, lo, hi, k, o);
    }
  }

  lemma Eighth(n: nat)
    requires n % QM_ROUNDTO == 0
    ensures (n + EXTRA) % ROUNDTO == 0
  {
    var q := n / QM_ROUNDTO;
    assert n == 16 * q;
    EightTimes(2 * q + 1);
  }

  lemma EightTimes(x: int)
    ensures (8 * x) % ROUNDTO == 0
  {
  }

  lemma QSplit(m: Mem, blocks: seq<Block>, lists: seq<seq<int>>, lo: int, hi: int, stale: set<int>, k: nat, size: nat)
    requires k < |blocks| && !blocks[k].free && QSound(m, blocks, lists, lo, hi, stale) && hi <= WORD
    requires size % QM_ROUNDTO == 0 && size + QM_OVERHEAD <= Payload(blocks[k])
    ensures QSound(SplitMem(m, blocks[k].addr, size, Payload(blocks[k]) - size - QM_OVERHEAD),
              Cut(blocks, k, size + EXTRA), lists, lo, hi,
                   stale + {RestAddr(blocks, k, size + EXTRA)})
  {
    hide QmHash; hide Cut; hide Tiled; hide Tagged; hide QMembers; hide BucketOk; hide QLists; hide TagOk;
    hide SplitMem; hide RestAddr;
    hide Payload;
    Eighth(size);
    assert |lists| == QM_HASH_SIZE by { SizesOk(m, blocks, lists, lo, hi, stale); }
    assert blocks[k].size == Payload(blocks[k]) + EXTRA by { QBlockAt(m, blocks, lists, lo, hi, stale, k); }
    SplitTags(m, blocks, lo, hi, stale, k, size);
    CutTiled(blocks, k, size + EXTRA, lo, hi);
    QBusyUnlisted(m, blocks, lists, lo, hi, stale, k);
    SplitUnlisted(blocks, lists, lo, hi, k, size);
    SplitLists(m, blocks, lists, lo, hi, stale, k, size);
    QMembersSplit(blocks, lists, lo, hi, k, size);
  }

  lemma SplitUnlisted(blocks: seq<Block>, lists: seq<seq<int>>, lo: int, hi: int, k: nat, size: nat)
    requires k < |blocks| && Tiled(blocks, lo, hi) && QMembers(blocks, lists)
             && size + QM_OVERHEAD <= Payload(blocks[k])
    ensures forall g | 0 <= g < |lists| :: RestAddr(blocks, k, size + EXTRA) !in lists[g]
  {
    hide QmHash; hide Tiled;
    forall g, y | 0 <= g < |lists| && y in lists[g] ensures y != RestAddr(blocks, k, size + EXTRA) {
      var o := BlockOf(blocks, y);
      NewAddr(blocks, lo, hi, k, size + EXTRA, o);
    }
  }

  lemma SplitLists(m: Mem, blocks: seq<Block>, lists: seq<seq<int>>, lo: int, hi: int, stale: set<int>, k: nat,
        size: nat)
    requires k < |blocks| && !blocks[k].free && QSound(m, blocks, lists, lo, hi, stale)
    requires size + QM_OVERHEAD <= Payload(blocks[k])
    requires forall h | 0 <= h < QM_HASH_SIZE ::
               blocks[k].addr !in lists[h] && RestAddr(blocks, k, size + EXTRA) !in lists[h]
    ensures QLists(SplitMem(m, blocks[k].addr, size, Payload(blocks[k]) - size - QM_OVERHEAD), lists)
  {
    hide QmHash; hide Tiled; hide BucketOk;
    var m' := SplitMem(m, blocks[k].addr, size, Payload(blocks[k]) - size - QM_OVERHEAD);
    assert TagOk(m, blocks[k], stale);
    forall h, x | 0 <= h < QM_HASH_SIZE && x in lists[h]
      ensures Hd(m', x) == Hd(m, x) && Tl(m', TailLoc(m, x)) == Tl(m, TailLoc(m, x))
    {
      var o := QListed(m, blocks, lists, lo, hi, stale, h, x);
      assert TagOk(m, blocks[o], stale);
      CutApart(blocks, lo, hi, k, o);
    }
    ListsKeep(m, m', blocks, lists);
  }

  lemma QMembersSplit(blocks: seq<Block>, lists: seq<seq<int>>, lo: int, hi: int, k: nat, size: nat)
    requires k < |blocks| && !blocks[k].free && Tiled(blocks, lo, hi) && QMembers(blocks, lists)
             && |lists| == QM_HASH_SIZE && hi <= WORD
    requires size + QM_OVERHEAD <= Payload(blocks[k])
    requires forall g | 0 <= g < |lists| ::
               blocks[k].addr !in lists[g] && RestAddr(blocks, k, size + EXTRA) !in lists[g]
    ensures QMembers(Cut(blocks, k, size + EXTRA), lists)
  {
    hide QmHash; hide Cut; hide Tiled;
    var c := Cut(blocks, k, size + EXTRA);
    CutAt(blocks, k, size + EXTRA, k);
    Inside(blocks, lo, hi, k);
    EndsAtNext(blocks, lo, hi, 0);
    QmHashRange(size);
    QmHashRange(Payload(blocks[k]) - size - QM_OVERHEAD);
    forall i | 0 <= i < |c|
      ensures QmHash(Payload(c[i])) < |lists| && (c[i].free <==> c[i].addr in lists[QmHash(Payload(c[i]))])
    {
      CutAt(blocks, k, size + EXTRA, i);
    }
    forall g, y | 0 <= g < |lists| && y in lists[g] ensures y in Addrs(c) {
      var o := BlockOf(blocks, y);
      var i := if o < k then o else o + 1;
      CutAt(blocks, k, size + EXTRA, i);
      assert c[i] in c;
    }
  }
}
