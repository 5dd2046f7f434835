/** The payload bytes of the boundary-tag allocator: what tag writes and copies leave alone. */
module QmPayload {
  import opened FmHash
  import opened FmBlocks
  import opened FmCount
  import opened FmPayload
  import opened QmLists
  import opened QmBlocks
  import opened QmCount
  import opened QmJoin

  /** Writing a tag destroys the 16 bytes it covers. */
  function Wipe(m: Bytes, x: int): Bytes {
    map y | y in m && !(x <= y < x + HEAD) :: m[y]
  }

  /** What a write to the head, or to the end tag, of a reference destroys; buckets lie outside the arena. */
  function WipeHead(m: Bytes, r: Ref): Bytes {
    match r case Null => m case Bkt(_) => m case At(a) => Wipe(m, a)
  }

  function WipeTail(m: Bytes, v: Mem, r: Ref): Bytes {
    match r case Null => m case Bkt(_) => m case At(a) => Wipe(m, TailLoc(v, a))
  }

  /** The payload of a fragment, and those of all, or of some, are untouched. */
  ghost predicate QKeptIn(m: Bytes, m': Bytes, b: Block) {
    SameRange(m, m', b.addr + HEAD, b.addr + HEAD + Payload(b))
  }

  ghost predicate QAll(m: Bytes, m': Bytes, blocks: seq<Block>) {
    forall i | 0 <= i < |blocks| :: QKeptIn(m, m', blocks[i])
  }

  ghost predicate QKept(m: Bytes, m': Bytes, s: set<Block>) {
    forall b | b in s :: QKeptIn(m, m', b)
  }

  lemma QRefl(m: Bytes, blocks: seq<Block>, s: set<Block>)
    ensures QAll(m, m, blocks) && QKept(m, m, s)
  {
  }

  lemma InChain(m0: Bytes, m1: Bytes, m2: Bytes, b: Block)
    requires QKeptIn(m0, m1, b) && QKeptIn(m1, m2, b)
    ensures QKeptIn(m0, m2, b)
  {
    forall x | b.addr + HEAD <= x < b.addr + HEAD + Payload(b) ensures SameAt(m0, m2, x) {
      assert SameAt(m0, m1, x) && SameAt(m1, m2, x);
    }
  }

  lemma QAllChain(m0: Bytes, m1: Bytes, m2: Bytes, blocks: seq<Block>)
    requires QAll(m0, m1, blocks) && QAll(m1, m2, blocks)
    ensures QAll(m0, m2, blocks)
  {
    hide QKeptIn;
    forall i | 0 <= i < |blocks| ensures QKeptIn(m0, m2, blocks[i]) {
      InChain(m0, m1, m2, blocks[i]);
    }
  }

  lemma QChain(m0: Bytes, m1: Bytes, m2: Bytes, s: set<Block>)
    requires QKept(m0, m1, s) && QKept(m1, m2, s)
    ensures QKept(m0, m2, s)
  {
    hide QKeptIn;
    forall b | b in s ensures QKeptIn(m0, m2, b) {
      InChain(m0, m1, m2, b);
    }
  }

  lemma QSubset(m: Bytes, m': Bytes, s: set<Block>, t: set<Block>)
    requires QKept(m, m', s) && t <= s
    ensures QKept(m, m', t)
  {
  }

  lemma QAllSome(m: Bytes, m': Bytes, blocks: seq<Block>, s: set<Block>)
    requires QAll(m, m', blocks) && s <= Live(blocks)
    ensures QKept(m, m', s)
  {
    hide QKeptIn;
    forall b | b in s ensures QKeptIn(m, m', b) {
      var i :| 0 <= i < |blocks| && blocks[i] == b;
    }
  }

  lemma QAllAt(m: Bytes, m': Bytes, blocks: seq<Block>, k: nat)
    requires QAll(m, m', blocks) && k < |blocks|
    ensures QKeptIn(m, m', blocks[k])
  {
  }

  lemma KeptOf(m: Bytes, m': Bytes, s: set<Block>, b: Block)
    requires QKept(m, m', s) && b in s
    ensures QKeptIn(m, m', b)
  {
  }

  /** Whether a fragment is free makes no difference. */
  lemma QAllMarked(m: Bytes, m': Bytes, blocks: seq<Block>, k: nat, free: bool)
    requires k < |blocks|
    ensures QAll(m, m', Marked(blocks, k, free)) <==> QAll(m, m', blocks)
  {
    var c := Marked(blocks, k, free);
    forall i | 0 <= i < |blocks| ensures QKeptIn(m, m', c[i]) <==> QKeptIn(m, m', blocks[i]) {
      assert c[i].addr == blocks[i].addr && Payload(c[i]) == Payload(blocks[i]);
    }
  }

  // ---------- tag writes ----------

  /** A tag written at either end of a fragment of the arena spares every payload of the arena. */
  lemma WipeSpares(m: Bytes, blocks: seq<Block>, lo: int, hi: int, k: nat, x: int)
    requires Tiled(blocks, lo, hi) && k < |blocks| && blocks[k].size >= EXTRA
             && x in {blocks[k].addr, blocks[k].End() - TAIL}
    ensures QAll(m, Wipe(m, x), blocks)
  {
    hide Tiled;
    forall i | 0 <= i < |blocks| ensures QKeptIn(m, Wipe(m, x), blocks[i]) {
      if i < k {
        Apart(blocks, lo, hi, i, k);
      } else if k < i {
        Apart(blocks, lo, hi, k, i);
      }
    }
  }

  /** Both tags of a fragment. */
  lemma WipeBoth(m: Bytes, blocks: seq<Block>, lo: int, hi: int, k: nat)
    requires Tiled(blocks, lo, hi) && k < |blocks| && blocks[k].size >= EXTRA
    ensures QAll(m, Wipe(Wipe(m, blocks[k].addr), blocks[k].End() - TAIL), blocks)
  {
    hide Tiled; hide Wipe; hide QAll;
    var m1 := Wipe(m, blocks[k].addr);
    WipeSpares(m, blocks, lo, hi, k, blocks[k].addr);
    WipeSpares(m1, blocks, lo, hi, k, blocks[k].End() - TAIL);
    QAllChain(m, m1, Wipe(m1, blocks[k].End() - TAIL), blocks);
  }

  /** The head of one fragment and the end tag of the next. */
  lemma EndsSpare(m: Bytes, blocks: seq<Block>, lo: int, hi: int, k: nat)
    requires Tiled(blocks, lo, hi) && k + 1 < |blocks| && blocks[k].size >= EXTRA && blocks[k + 1].size >= EXTRA
    ensures var n := Payload(blocks[k]) + Payload(blocks[k + 1]) + QM_OVERHEAD; var f := blocks[k].addr;
            QAll(m, Wipe(Wipe(m, f), f + HEAD + n), blocks)
  {
    hide Tiled; hide Wipe; hide QAll;
    var m1 := Wipe(m, blocks[k].addr);
    EndsAtNext(blocks, lo, hi, k);
    WipeSpares(m, blocks, lo, hi, k, blocks[k].addr);
    WipeSpares(m1, blocks, lo, hi, k + 1, blocks[k + 1].End() - TAIL);
    QAllChain(m, m1, Wipe(m1, blocks[k + 1].End() - TAIL), blocks);
  }

  /** A write through a reference to a fragment, or to a bucket, spares every payload. */
  lemma RefSpares(v0: Mem, v: Mem, m: Bytes, blocks: seq<Block>, lists: seq<seq<int>>, lo: int, hi: int,
        stale: set<int>, r: Ref)
    requires QSound(v0, blocks, lists, lo, hi, stale) && SameTags(v0, v) && hi <= WORD
             && (r.At? ==> r.a in Addrs(blocks))
    ensures QAll(m, WipeHead(m, r), blocks) && QAll(m, WipeTail(m, v, r), blocks)
  {
    hide QSound; hide Wipe; hide QAll; hide Tiled;
    QRefl(m, blocks, {});
    if r.At? {
      var k := BlockOf(blocks, r.a);
      SizesOk(v0, blocks, lists, lo, hi, stale);
      assert TagOk(v0, blocks[k], stale);
      assert TailLoc(v, r.a) == blocks[k].End() - TAIL;
      WipeSpares(m, blocks, lo, hi, k, blocks[k].addr);
      WipeSpares(m, blocks, lo, hi, k, blocks[k].End() - TAIL);
    }
  }

  /** The references on a list are to fragments of the arena. */
  lemma RefListed(blocks: seq<Block>, lists: seq<seq<int>>, h: nat, i: int)
    requires QMembers(blocks, lists) && h < |lists|
    ensures RefAt(lists[h], i, h).At? ==> RefAt(lists[h], i, h).a in Addrs(blocks)
  {
  }

  lemma LinksSameTags(m: Mem, r: Ref, x: Ref)
    ensures SameTags(m, SetNxt(m, r, x)) && SameTags(m, SetPrv(m, r, x))
  {
  }

  lemma TagsThen(m: Mem, m1: Mem, m2: Mem)
    requires SameTags(m, m1) && SameTags(m1, m2)
    ensures SameTags(m, m2)
  {
  }

  /** Taking neighbours off their lists spares every payload. */
  lemma TakenBytes(m0: Bytes, m1: Bytes, m2: Bytes, b: seq<Block>, k: nat, s: set<Block>)
    requires k < |b| && s <= Live(b)
    requires QAll(m0, m1, RightTaken(b, k)) && QAll(m1, m2, LeftTaken(RightTaken(b, k), k))
    ensures QKept(m0, m2, s)
  {
    hide QAll; hide QKept; hide Marked; hide Live;
    var c := RightTaken(b, k);
    if FreeRight(b, k) {
      QAllMarked(m0, m1, b, k + 1, false);
      QAllMarked(m1, m2, b, k + 1, false);
      SameLength(b, k + 1);
    }
    if FreeLeft(c, k) {
      QAllMarked(m1, m2, c, k - 1, false);
    }
    QAllChain(m0, m1, m2, b);
    QAllSome(m0, m2, b, s);
  }

  lemma SameLength(b: seq<Block>, k: nat)
    requires k < |b|
    ensures |Marked(b, k, false)| == |b|
  {
  }

  /** The two sizes written for the joined fragment spare every payload of the joined arena. */
  lemma JoinedBytesSpare(m: Bytes, b: seq<Block>, lo: int, hi: int, k: nat, f: int, n: nat)
    requires k < |b| && Place(b, k) < |Joined(b, k)| && Tiled(Joined(b, k), lo, hi) && Big(Joined(b, k))
    requires f == Joined(b, k)[Place(b, k)].addr && n == Payload(Joined(b, k)[Place(b, k)])
    ensures QAll(m, Wipe(Wipe(m, f), f + HEAD + n), Joined(b, k))
  {
    hide Joined; hide Tiled; hide QAll; hide Wipe;
    var c, p := Joined(b, k), Place(b, k);
    BigAt(c, p);
    WipeBoth(m, c, lo, hi, p);
  }

  // ---------- copies ----------

  lemma QKeptPayload(m: Bytes, m': Bytes, b: Block, n: nat)
    requires QKeptIn(m, m', b) && n <= Payload(b)
    ensures SamePayload(m, b.addr + HEAD, m', b.addr + HEAD, n)
  {
    var p := b.addr + HEAD;
    forall i | 0 <= i < n ensures SameByte(m, p, m', p, i) {
      assert SameAt(m, m', p + i);
    }
  }

  /** Two live fragments have disjoint payloads. */
  lemma PayloadsApart(blocks: seq<Block>, lo: int, hi: int, x: Block, y: Block)
    requires Tiled(blocks, lo, hi) && x in Live(blocks) && y in Live(blocks) && x != y && x.size >= EXTRA
             && y.size >= EXTRA
    ensures x.addr + HEAD + Payload(x) <= y.addr || y.addr + HEAD + Payload(y) <= x.addr
  {
    hide Tiled;
    LiveDisjoint(blocks, lo, hi, x, y);
  }

  /** The copy carries the payload over and touches nothing outside the fragment it fills. */
  lemma QCopyStep(m: Bytes, blocks: seq<Block>, lo: int, hi: int, b: Block, c: Block)
    requires Tiled(blocks, lo, hi) && b in Live(blocks) && c in Live(blocks) && b != c && Payload(b) <= Payload(c)
    requires forall x | x in Live(blocks) :: x.size >= EXTRA
    ensures var m' := Copied(m, c.addr + HEAD, b.addr + HEAD, Payload(b));
            SamePayload(m, b.addr + HEAD, m', c.addr + HEAD, Payload(b)) && QKept(m, m', Live(blocks) - {c})
  {
    hide Copied; hide Tiled; hide Live; hide Payload;
    var p, q, n := b.addr + HEAD, c.addr + HEAD, Payload(b);
    var m' := Copied(m, q, p, n);
    forall i | 0 <= i < n ensures SameByte(m, p, m', q, i) {
      CopiedAt(m, q, p, n, q + i);
    }
    forall x | x in Live(blocks) - {c} ensures QKeptIn(m, m', x) {
      PayloadsApart(blocks, lo, hi, c, x);
      forall a | x.addr + HEAD <= a < x.addr + HEAD + Payload(x) ensures SameAt(m, m', a) {
        CopiedAt(m, q, p, n, a);
      }
    }
  }

  /** Kept, copied, kept: the payload has arrived. */
  lemma QCarried(m0: Bytes, m1: Bytes, m2: Bytes, m3: Bytes, b: Block, c: Block)
    requires QKeptIn(m0, m1, b) && SamePayload(m1, b.addr + HEAD, m2, c.addr + HEAD, Payload(b))
    requires QKeptIn(m2, m3, c) && Payload(b) <= Payload(c)
    ensures SamePayload(m0, b.addr + HEAD, m3, c.addr + HEAD, Payload(b))
  {
    var p, q := b.addr + HEAD, c.addr + HEAD;
    forall i | 0 <= i < Payload(b) ensures SameByte(m0, p, m3, q, i) {
      assert SameAt(m0, m1, p + i) && SameByte(m1, p, m2, q, i) && SameAt(m2, m3, q + i);
    }
  }

  lemma SameInPlace(m: Bytes, p: int, n: nat)
    ensures SamePayload(m, p, m, p, n)
  {
  }

  /** What has stayed in place twice has stayed in place. */
  lemma QStayed(m0: Bytes, m1: Bytes, m2: Bytes, p: int, n: nat)
    requires SamePayload(m0, p, m1, p, n) && SamePayload(m1, p, m2, p, n)
    ensures SamePayload(m0, p, m2, p, n)
  {
    forall i | 0 <= i < n ensures SameByte(m0, p, m2, p, i) {
      assert SameByte(m0, p, m1, p, i) && SameByte(m1, p, m2, p, i);
    }
  }
}
