/** The arena as a row of fragments, its free lists, and the four elementary changes to both. */
module FmBlocks {
  import opened FmHash
  import opened FmLists

  /** A fragment of the arena: header address, payload size, and whether it is free. */
  datatype Block = Block(addr: int, size: nat, free: bool) {
    ghost function End(): int { addr + OVERHEAD + size }
  }

  ghost function NextAddr(blocks: seq<Block>, i: nat, hi: int): int {
    if i + 1 < |blocks| then blocks[i + 1].addr else hi
  }

  /** The fragments fill `[lo, hi)` with neither gap nor overlap, in sizes that are multiples of ROUNDTO. */
  ghost predicate Tiled(blocks: seq<Block>, lo: int, hi: int) {
    |blocks| > 0 && blocks[0].addr == lo && lo > 0
    && forall i | 0 <= i < |blocks| :: blocks[i].End() == NextAddr(blocks, i, hi) && blocks[i].size % ROUNDTO == 0
  }

  lemma EndsAtNext(blocks: seq<Block>, lo: int, hi: int, i: nat)
    requires Tiled(blocks, lo, hi) && i < |blocks|
    ensures blocks[i].End() == NextAddr(blocks, i, hi) && blocks[i].size % ROUNDTO == 0
    ensures blocks[0].addr == lo > 0
  {
  }

  /** Later fragments begin where earlier ones have ended. */
  lemma {:induction false} Apart(blocks: seq<Block>, lo: int, hi: int, i: nat, j: nat)
    requires Tiled(blocks, lo, hi) && i < j < |blocks|
    ensures blocks[i].End() <= blocks[j].addr
    decreases j - i
  {
    assert blocks[i].End() == NextAddr(blocks, i, hi);
    if i + 1 < j {
      Apart(blocks, lo, hi, i + 1, j);
    }
  }

  lemma {:induction false} Inside(blocks: seq<Block>, lo: int, hi: int, i: nat)
    requires Tiled(blocks, lo, hi) && i < |blocks|
    ensures lo <= blocks[i].addr && blocks[i].End() <= hi
  {
    if i > 0 {
      Apart(blocks, lo, hi, 0, i);
    }
    var n := |blocks| - 1;
    assert blocks[n].End() == NextAddr(blocks, n, hi);
    if i < n {
      Apart(blocks, lo, hi, i, n);
    }
  }

  lemma SameAddr(blocks: seq<Block>, lo: int, hi: int, i: nat, j: nat)
    requires Tiled(blocks, lo, hi) && i < |blocks| && j < |blocks| && blocks[i].addr == blocks[j].addr
    ensures i == j
  {
    if i < j {
      Apart(blocks, lo, hi, i, j);
    } else if j < i {
      Apart(blocks, lo, hi, j, i);
    }
  }

  ghost function Addrs(blocks: seq<Block>): set<int> {
    set b | b in blocks :: b.addr
  }

  ghost function Live(blocks: seq<Block>): set<Block> {
    set b | b in blocks && !b.free
  }

  /** The headers say what the fragments are; the back link of the fragment at `x` is not yet settled. */
  ghost predicate Headed(hdr: Headers, blocks: seq<Block>, x: int) {
    forall i | 0 <= i < |blocks| :: HeaderOk(hdr, blocks[i], x)
  }

  /** A fragment is free exactly when its back link is set. */
  ghost predicate HeaderOk(hdr: Headers, b: Block, x: int) {
    Hd(hdr, b.addr).size == b.size && (b.addr != x ==> (b.free <==> Hd(hdr, b.addr).prev != Null))
  }

  ghost predicate ListsOk(hdr: Headers, bk: seq<Bucket>, lists: seq<seq<int>>) {
    |bk| == |lists| == HASH_SIZE && forall h | 0 <= h < HASH_SIZE :: BucketOk(hdr, bk[h], lists[h], h)
  }

  /** A fragment is free exactly when the bucket of its size lists it, and the buckets list nothing else. */
  ghost predicate Members(blocks: seq<Block>, lists: seq<seq<int>>) {
    (forall i | 0 <= i < |blocks| :: Hash(blocks[i].size) < |lists|
      && (blocks[i].free <==> blocks[i].addr in lists[Hash(blocks[i].size)]))
    && forall h | 0 <= h < |lists| :: forall a | a in lists[h] :: a in Addrs(blocks)
  }

  /** The whole structure, but for the back link at `x`. */
  ghost predicate Sound(hdr: Headers, bk: seq<Bucket>, blocks: seq<Block>, lists: seq<seq<int>>, lo: int, hi: int,
        x: int) {
    Tiled(blocks, lo, hi) && Headed(hdr, blocks, x) && ListsOk(hdr, bk, lists) && Members(blocks, lists)
  }

  /** A listed address is a free fragment of the bucket's hash. */
  lemma ListedIsFree(hdr: Headers, bk: seq<Bucket>, blocks: seq<Block>, lists: seq<seq<int>>, lo: int, hi: int, x: int,
        h: nat, a: int)
    returns (k: nat)
    requires Sound(hdr, bk, blocks, lists, lo, hi, x) && h < HASH_SIZE && a in lists[h]
    ensures k < |blocks| && blocks[k].addr == a && blocks[k].free && Hash(blocks[k].size) == h
  {
    hide Hash;
    var b :| b in blocks && b.addr == a;
    k :| 0 <= k < |blocks| && blocks[k] == b;
    var i :| 0 <= i < |lists[h]| && lists[h][i] == a;
    assert BucketOk(hdr, bk[h], lists[h], h);
    assert NodeOk(hdr, lists[h], i, h);
    assert HeaderOk(hdr, blocks[k], x);
  }

  /** A fragment that is not free is on no list. */
  lemma BusyUnlisted(hdr: Headers, bk: seq<Bucket>, blocks: seq<Block>, lists: seq<seq<int>>, lo: int, hi: int, x: int,
        k: nat)
    requires Sound(hdr, bk, blocks, lists, lo, hi, x) && k < |blocks| && !blocks[k].free
    ensures forall h | 0 <= h < HASH_SIZE :: blocks[k].addr !in lists[h]
  {
    hide Hash;
    forall h | 0 <= h < HASH_SIZE ensures blocks[k].addr !in lists[h] {
      if blocks[k].addr in lists[h] {
        var i := ListedIsFree(hdr, bk, blocks, lists, lo, hi, x, h, blocks[k].addr);
        SameAddr(blocks, lo, hi, i, k);
        assert false;
      }
    }
  }

  // ---------- the four elementary changes ----------

  ghost function Marked(blocks: seq<Block>, k: nat, free: bool): seq<Block>
    requires k < |blocks|
  {
    blocks[k := blocks[k].(free := free)]
  }

  lemma MarkedTiled(blocks: seq<Block>, k: nat, free: bool, lo: int, hi: int)
    requires Tiled(blocks, lo, hi) && k < |blocks|
    ensures Tiled(Marked(blocks, k, free), lo, hi) && Addrs(Marked(blocks, k, free)) == Addrs(blocks)
  {
    var b := Marked(blocks, k, free);
    forall i | 0 <= i < |b| ensures b[i].End() == NextAddr(b, i, hi) && b[i].size % ROUNDTO == 0 {
      assert blocks[i].End() == NextAddr(blocks, i, hi);
    }
    SameAddrs(blocks, b);
  }

  lemma SameAddrs(a: seq<Block>, b: seq<Block>)
    requires |a| == |b| && forall i | 0 <= i < |a| :: a[i].addr == b[i].addr
    ensures Addrs(a) == Addrs(b)
  {
    forall x | x in Addrs(a) ensures x in Addrs(b) {
      var i :| 0 <= i < |a| && a[i].addr == x;
      assert b[i] in b;
    }
    forall x | x in Addrs(b) ensures x in Addrs(a) {
      var i :| 0 <= i < |b| && b[i].addr == x;
      assert a[i] in a;
    }
  }

  /** Linking in touches, besides `a`, only back and forward links of listed fragments. */
  lemma LinkInElsewhere(hdr: Headers, l: seq<int>, j: nat, a: int, h: nat, y: int)
    requires j <= |l| && y != a && NoRepeats(l) && forall i | 0 <= i < |l| :: NodeOk(hdr, l, i, h)
    ensures var hdr' := LinkIn(hdr, l, j, a, h);
            Hd(hdr', y).size == Hd(hdr, y).size && (Hd(hdr', y).prev == Null <==> Hd(hdr, y).prev == Null)
            && (y !in l ==> Hd(hdr', y) == Hd(hdr, y))
  {
    if j < |l| {
      assert NodeOk(hdr, l, j, h);
    }
  }

  /** Putting the fragment at `k` on its list. */
  lemma AttachStep(hdr: Headers, bk: seq<Bucket>, blocks: seq<Block>, lists: seq<seq<int>>, lo: int, hi: int, k: nat,
        j: nat)
    requires k < |blocks| && !blocks[k].free && Sound(hdr, bk, blocks, lists, lo, hi, blocks[k].addr)
    requires Hash(blocks[k].size) < HASH_SIZE && j <= |lists[Hash(blocks[k].size)]|
    requires FitsAt(hdr, lists[Hash(blocks[k].size)], j, blocks[k].size, Hash(blocks[k].size))
    ensures var a, h := blocks[k].addr, Hash(blocks[k].size);
            Sound(LinkIn(hdr, lists[h], j, a, h), bk[h := Bucket(if j == 0 then a else bk[h].first, bk[h].no + 1)],
                  Marked(blocks, k, true), lists[h := Inserted(lists[h], j, a)], lo, hi, 0)
  {
    hide Hash; hide LinkIn; hide FitsAt; hide NodeOk; hide NoRepeats;
    var a, h := blocks[k].addr, Hash(blocks[k].size);
    var l := lists[h];
    var hdr', lists', blocks' := LinkIn(hdr, l, j, a, h), lists[h := Inserted(l, j, a)], Marked(blocks, k, true);
    assert HeaderOk(hdr, blocks[k], a) && BucketOk(hdr, bk[h], l, h);
    Inside(blocks, lo, hi, k);
    BusyUnlisted(hdr, bk, blocks, lists, lo, hi, a, k);
    MarkedTiled(blocks, k, true, lo, hi);
    LinkInOk(hdr, bk[h], l, j, a, h);
    AttachLists(hdr, bk, blocks, lists, lo, hi, a, h, l, j);
    AttachHeaders(hdr, bk, blocks, lists, lo, hi, k, h, j);
    AttachMembers(blocks, lists, lo, hi, k, h, j);
  }

  lemma AttachLists(hdr: Headers, bk: seq<Bucket>, blocks: seq<Block>, lists: seq<seq<int>>, lo: int, hi: int, a: int,
        h: nat, l: seq<int>, j: nat)
    requires Sound(hdr, bk, blocks, lists, lo, hi, a) && h < HASH_SIZE && l == lists[h] && j <= |l|
    requires forall g | 0 <= g < HASH_SIZE :: a !in lists[g]
    ensures forall g | 0 <= g < HASH_SIZE && g != h :: BucketOk(LinkIn(hdr, l, j, a, h), bk[g], lists[g], g)
  {
    hide Hash; hide LinkIn; hide NodeOk;
    assert BucketOk(hdr, bk[h], l, h);
    forall g | 0 <= g < HASH_SIZE && g != h ensures BucketOk(LinkIn(hdr, l, j, a, h), bk[g], lists[g], g) {
      forall y | y in lists[g] ensures Hd(LinkIn(hdr, l, j, a, h), y) == Hd(hdr, y) {
        if y in l {
          OneBucket(hdr, bk, lists, g, h, y);
        }
        LinkInElsewhere(hdr, l, j, a, h, y);
      }
      assert BucketOk(hdr, bk[g], lists[g], g);
      BucketFrame(hdr, LinkIn(hdr, l, j, a, h), bk[g], lists[g], g);
    }
  }

  lemma AttachHeaders(hdr: Headers, bk: seq<Bucket>, blocks: seq<Block>, lists: seq<seq<int>>, lo: int, hi: int,
        k: nat, h: nat, j: nat)
    requires k < |blocks| && Sound(hdr, bk, blocks, lists, lo, hi, blocks[k].addr) && h < HASH_SIZE && j <= |lists[h]|
    ensures Headed(LinkIn(hdr, lists[h], j, blocks[k].addr, h), Marked(blocks, k, true), 0)
  {
    hide Hash; hide NodeOk; hide Members;
    var a, l := blocks[k].addr, lists[h];
    var hdr', b := LinkIn(hdr, l, j, a, h), Marked(blocks, k, true);
    assert BucketOk(hdr, bk[h], l, h);
    forall i | 0 <= i < |b| ensures HeaderOk(hdr', b[i], 0) {
      assert HeaderOk(hdr, blocks[i], a);
      if i != k {
        if blocks[i].addr == a {
          SameAddr(blocks, lo, hi, i, k);
        } else {
          LinkInElsewhere(hdr, l, j, a, h, blocks[i].addr);
        }
      } else {
        LinkInItself(hdr, l, j, a, h);
      }
    }
  }

  lemma LinkInItself(hdr: Headers, l: seq<int>, j: nat, a: int, h: nat)
    requires j <= |l|
    ensures Hd(LinkIn(hdr, l, j, a, h), a).size == Hd(hdr, a).size && Hd(LinkIn(hdr, l, j, a, h), a).prev != Null
  {
  }

  lemma AttachMembers(blocks: seq<Block>, lists: seq<seq<int>>, lo: int, hi: int, k: nat, h: nat, j: nat)
    requires k < |blocks| && Tiled(blocks, lo, hi) && Members(blocks, lists)
    requires h == Hash(blocks[k].size) < |lists| && j <= |lists[h]|
    ensures Members(Marked(blocks, k, true), lists[h := Inserted(lists[h], j, blocks[k].addr)])
  {
    hide Hash; hide Tiled; hide Inserted;
    var a, b := blocks[k].addr, Marked(blocks, k, true);
    var lists' := lists[h := Inserted(lists[h], j, a)];
    MarkedTiled(blocks, k, true, lo, hi);
    InsertedHas(lists[h], j, a);
    forall i | 0 <= i < |b|
      ensures Hash(b[i].size) < |lists'| && (b[i].free <==> b[i].addr in lists'[Hash(b[i].size)])
    {
      if i != k && blocks[i].addr == a {
        SameAddr(blocks, lo, hi, i, k);
      }
    }
    assert blocks[k] in blocks;
  }

  lemma InsertedHas(l: seq<int>, j: nat, a: int)
    requires j <= |l|
    ensures forall y :: y in Inserted(l, j, a) <==> y == a || y in l
  {
    assert l == l[..j] + l[j..];
  }

  /** Two buckets share no fragment. */
  lemma OneBucket(hdr: Headers, bk: seq<Bucket>, lists: seq<seq<int>>, g: nat, h: nat, y: int)
    requires ListsOk(hdr, bk, lists) && g < HASH_SIZE && h < HASH_SIZE && y in lists[g] && y in lists[h]
    ensures g == h
  {
    hide Hash;
    var i :| 0 <= i < |lists[g]| && lists[g][i] == y;
    var j :| 0 <= j < |lists[h]| && lists[h][j] == y;
    assert BucketOk(hdr, bk[g], lists[g], g) && BucketOk(hdr, bk[h], lists[h], h);
    assert NodeOk(hdr, lists[g], i, g) && NodeOk(hdr, lists[h], j, h);
  }

  // ---------- taking off a list ----------

  lemma LinkOutElsewhere(hdr: Headers, l: seq<int>, j: nat, h: nat, y: int)
    requires j < |l| && y != l[j] && NoRepeats(l) && forall i | 0 <= i < |l| :: NodeOk(hdr, l, i, h)
    ensures var hdr' := LinkOut(hdr, l, j);
            Hd(hdr', y).size == Hd(hdr, y).size && (Hd(hdr', y).prev == Null <==> Hd(hdr, y).prev == Null)
            && (y !in l ==> Hd(hdr', y) == Hd(hdr, y))
  {
    assert NodeOk(hdr, l, j, h);
    if j + 1 < |l| {
      assert NodeOk(hdr, l, j + 1, h);
    }
  }

  lemma LinkOutItself(hdr: Headers, l: seq<int>, j: nat)
    requires j < |l| && NoRepeats(l)
    ensures Hd(LinkOut(hdr, l, j), l[j]).size == Hd(hdr, l[j]).size && Hd(LinkOut(hdr, l, j), l[j]).prev == Null
  {
  }

  /** The position of a free fragment on its list. */
  lemma Position(hdr: Headers, bk: seq<Bucket>, blocks: seq<Block>, lists: seq<seq<int>>, lo: int, hi: int, k: nat)
    returns (j: nat)
    requires k < |blocks| && blocks[k].free && Sound(hdr, bk, blocks, lists, lo, hi, 0)
    ensures Hash(blocks[k].size) < HASH_SIZE && j < |lists[Hash(blocks[k].size)]|
    ensures lists[Hash(blocks[k].size)][j] == blocks[k].addr
  {
    hide Hash;
    j :| 0 <= j < |lists[Hash(blocks[k].size)]| && lists[Hash(blocks[k].size)][j] == blocks[k].addr;
  }

  /** Taking the fragment at `k` off its list. */
  lemma DetachStep(hdr: Headers, bk: seq<Bucket>, blocks: seq<Block>, lists: seq<seq<int>>, lo: int, hi: int, k: nat,
        j: nat)
    requires k < |blocks| && blocks[k].free && Sound(hdr, bk, blocks, lists, lo, hi, 0)
    requires Hash(blocks[k].size) < HASH_SIZE && j < |lists[Hash(blocks[k].size)]|
    requires lists[Hash(blocks[k].size)][j] == blocks[k].addr
    ensures var h := Hash(blocks[k].size); var l := lists[h];
            bk[h].no > 0
            && Sound(LinkOut(hdr, l, j), bk[h := Bucket(if j == 0 then At(l, 1) else bk[h].first, bk[h].no - 1)],
                     Marked(blocks, k, false), lists[h := Dropped(l, j)], lo, hi, 0)
  {
    hide Hash; hide LinkOut; hide NodeOk; hide NoRepeats;
    var h := Hash(blocks[k].size);
    var l := lists[h];
    assert BucketOk(hdr, bk[h], l, h);
    MarkedTiled(blocks, k, false, lo, hi);
    LinkOutOk(hdr, bk[h], l, j, h);
    DetachLists(hdr, bk, blocks, lists, lo, hi, h, j);
    DetachHeaders(hdr, bk, blocks, lists, lo, hi, k, h, j);
    DetachMembers(blocks, lists, lo, hi, k, h, j);
  }

  lemma DetachLists(hdr: Headers, bk: seq<Bucket>, blocks: seq<Block>, lists: seq<seq<int>>, lo: int, hi: int, h: nat,
        j: nat)
    requires Sound(hdr, bk, blocks, lists, lo, hi, 0) && h < HASH_SIZE && j < |lists[h]|
    ensures forall g | 0 <= g < HASH_SIZE && g != h :: BucketOk(LinkOut(hdr, lists[h], j), bk[g], lists[g], g)
  {
    hide Hash; hide LinkOut; hide NodeOk;
    var l := lists[h];
    assert BucketOk(hdr, bk[h], l, h);
    forall g | 0 <= g < HASH_SIZE && g != h ensures BucketOk(LinkOut(hdr, l, j), bk[g], lists[g], g) {
      forall y | y in lists[g] ensures Hd(LinkOut(hdr, l, j), y) == Hd(hdr, y) {
        if y in l {
          OneBucket(hdr, bk, lists, g, h, y);
        } else {
          LinkOutElsewhere(hdr, l, j, h, y);
        }
      }
      assert BucketOk(hdr, bk[g], lists[g], g);
      BucketFrame(hdr, LinkOut(hdr, l, j), bk[g], lists[g], g);
    }
  }

  lemma DetachHeaders(hdr: Headers, bk: seq<Bucket>, blocks: seq<Block>, lists: seq<seq<int>>, lo: int, hi: int,
        k: nat, h: nat, j: nat)
    requires k < |blocks| && Sound(hdr, bk, blocks, lists, lo, hi, 0) && h < HASH_SIZE && j < |lists[h]|
    requires lists[h][j] == blocks[k].addr
    ensures Headed(LinkOut(hdr, lists[h], j), Marked(blocks, k, false), 0)
  {
    hide Hash; hide NodeOk; hide Members; hide LinkOut;
    var a, l := blocks[k].addr, lists[h];
    var hdr', b := LinkOut(hdr, l, j), Marked(blocks, k, false);
    assert BucketOk(hdr, bk[h], l, h);
    forall i | 0 <= i < |b| ensures HeaderOk(hdr', b[i], 0) {
      assert HeaderOk(hdr, blocks[i], 0);
      if i != k {
        if blocks[i].addr == a {
          SameAddr(blocks, lo, hi, i, k);
        } else {
          LinkOutElsewhere(hdr, l, j, h, blocks[i].addr);
        }
      } else {
        LinkOutItself(hdr, l, j);
      }
    }
  }

  lemma DetachMembers(blocks: seq<Block>, lists: seq<seq<int>>, lo: int, hi: int, k: nat, h: nat, j: nat)
    requires k < |blocks| && Tiled(blocks, lo, hi) && Members(blocks, lists)
    requires h == Hash(blocks[k].size) < |lists| && j < |lists[h]| && lists[h][j] == blocks[k].addr
             && NoRepeats(lists[h])
    ensures Members(Marked(blocks, k, false), lists[h := Dropped(lists[h], j)])
  {
    hide Hash; hide NoRepeats; hide Tiled; hide Dropped;
    var a, b := blocks[k].addr, Marked(blocks, k, false);
    var lists' := lists[h := Dropped(lists[h], j)];
    MarkedTiled(blocks, k, false, lo, hi);
    DroppedHas(lists[h], j);
    forall i | 0 <= i < |b|
      ensures Hash(b[i].size) < |lists'| && (b[i].free <==> b[i].addr in lists'[Hash(b[i].size)])
    {
      if i != k && blocks[i].addr == a {
        SameAddr(blocks, lo, hi, i, k);
      }
    }
  }

  lemma DroppedHas(l: seq<int>, j: nat)
    requires j < |l| && NoRepeats(l)
    ensures forall y :: y in Dropped(l, j) <==> y in l && y != l[j]
  {
    assert l == l[..j] + [l[j]] + l[j + 1..];
  }

  // ---------- joining and splitting ----------

  /** The fragments at `k` and `k + 1` as one. */
  ghost function Merged(blocks: seq<Block>, k: nat): seq<Block>
    requires k + 1 < |blocks|
  {
    blocks[..k] + [Block(blocks[k].addr, blocks[k].size + OVERHEAD + blocks[k + 1].size, false)] + blocks[k + 2..]
  }

  lemma MergedAt(blocks: seq<Block>, k: nat, i: nat)
    requires k + 1 < |blocks| && i + 1 < |blocks|
    ensures |Merged(blocks, k)| == |blocks| - 1
    ensures Merged(blocks, k)[i] ==
            if i == k then Block(blocks[k].addr, blocks[k].size + OVERHEAD + blocks[k + 1].size, false)
            else blocks[if i < k then i else i + 1]
  {
  }

  lemma MergeTiled(blocks: seq<Block>, k: nat, lo: int, hi: int)
    requires k + 1 < |blocks| && Tiled(blocks, lo, hi)
    ensures Tiled(Merged(blocks, k), lo, hi)
  {
    hide Merged; hide Tiled;
    var b := Merged(blocks, k);
    MergedAt(blocks, k, 0);
    EndsAtNext(blocks, lo, hi, 0);
    forall i | 0 <= i < |b| ensures b[i].End() == NextAddr(b, i, hi) && b[i].size % ROUNDTO == 0 {
      MergeTiledAt(blocks, k, lo, hi, i);
    }
    TiledIf(b, lo, hi);
  }

  lemma TiledIf(blocks: seq<Block>, lo: int, hi: int)
    requires |blocks| > 0 && blocks[0].addr == lo && lo > 0
    requires forall i | 0 <= i < |blocks| :: blocks[i].End() == NextAddr(blocks, i, hi) && blocks[i].size % ROUNDTO == 0
    ensures Tiled(blocks, lo, hi)
  {
  }

  lemma MergeTiledAt(blocks: seq<Block>, k: nat, lo: int, hi: int, i: nat)
    requires k + 1 < |blocks| && Tiled(blocks, lo, hi) && i + 1 < |blocks|
    ensures |Merged(blocks, k)| == |blocks| - 1
    ensures var b := Merged(blocks, k); b[i].End() == NextAddr(b, i, hi) && b[i].size % ROUNDTO == 0
  {
    hide Merged; hide Tiled;
    EndsAtNext(blocks, lo, hi, i);
    EndsAtNext(blocks, lo, hi, i + 1);
    MergedAt(blocks, k, i);
    JoinedMod(blocks[i].size, blocks[i + 1].size);
    if i + 2 < |blocks| {
      MergedAt(blocks, k, i + 1);
    }
  }

  lemma JoinedMod(a: int, b: int)
    requires a % ROUNDTO == 0 && b % ROUNDTO == 0
    ensures (a + OVERHEAD + b) % ROUNDTO == 0
  {
  }

  lemma MergeHeaders(hdr: Headers, blocks: seq<Block>, lo: int, hi: int, k: nat)
    requires k + 1 < |blocks| && !blocks[k].free && Tiled(blocks, lo, hi) && Headed(hdr, blocks, 0)
    ensures var a := blocks[k].addr; var s := blocks[k].size + OVERHEAD + blocks[k + 1].size;
            Headed(hdr[a := Hd(hdr, a).(size := s)], Merged(blocks, k), 0)
  {
    hide Merged;
    var a, b := blocks[k].addr, Merged(blocks, k);
    MergedAt(blocks, k, k);
    var hdr' := hdr[a := Hd(hdr, a).(size := b[k].size)];
    forall i | 0 <= i < |b| ensures HeaderOk(hdr', b[i], 0) {
      var o := if i <= k then i else i + 1;
      MergedAt(blocks, k, i);
      assert HeaderOk(hdr, blocks[o], 0);
      if i != k && blocks[o].addr == a {
        SameAddr(blocks, lo, hi, o, k);
      }
    }
  }

  lemma MergeStep(hdr: Headers, bk: seq<Bucket>, blocks: seq<Block>, lists: seq<seq<int>>, lo: int, hi: int, k: nat)
    requires k + 1 < |blocks| && !blocks[k].free && !blocks[k + 1].free && Sound(hdr, bk, blocks, lists, lo, hi, 0)
    requires hi <= WORD
    ensures var a := blocks[k].addr; var s := blocks[k].size + OVERHEAD + blocks[k + 1].size;
            Sound(hdr[a := Hd(hdr, a).(size := s)], bk, Merged(blocks, k), lists, lo, hi, 0)
  {
    hide Hash; hide NodeOk; hide Merged; hide HeaderOk;
    var a, b := blocks[k].addr, Merged(blocks, k);
    MergedAt(blocks, k, k);
    var hdr' := hdr[a := Hd(hdr, a).(size := b[k].size)];
    MergeTiled(blocks, k, lo, hi);
    MergeHeaders(hdr, blocks, lo, hi, k);
    BusyUnlisted(hdr, bk, blocks, lists, lo, hi, 0, k);
    BusyUnlisted(hdr, bk, blocks, lists, lo, hi, 0, k + 1);
    OnlySizeAt(hdr, hdr', bk, lists, a);
    Inside(b, lo, hi, k);
    HashRange(b[k].size);
    MergeMembers(blocks, lists, k);
  }

  /** Changing the header of an unlisted fragment leaves every list as it is. */
  lemma OnlySizeAt(hdr: Headers, hdr': Headers, bk: seq<Bucket>, lists: seq<seq<int>>, a: int)
    requires ListsOk(hdr, bk, lists) && (forall g | 0 <= g < HASH_SIZE :: a !in lists[g])
    requires forall y :: y != a ==> Hd(hdr', y) == Hd(hdr, y)
    ensures ListsOk(hdr', bk, lists)
  {
    forall g | 0 <= g < HASH_SIZE ensures BucketOk(hdr', bk[g], lists[g], g) {
      BucketFrame(hdr, hdr', bk[g], lists[g], g);
    }
  }

  lemma MergeMembers(blocks: seq<Block>, lists: seq<seq<int>>, k: nat)
    requires k + 1 < |blocks| && Members(blocks, lists)
    requires forall g | 0 <= g < |lists| :: blocks[k].addr !in lists[g] && blocks[k + 1].addr !in lists[g]
    requires |Merged(blocks, k)| > k && Hash(Merged(blocks, k)[k].size) < |lists|
    ensures Members(Merged(blocks, k), lists)
  {
    hide Hash; hide Merged;
    var b := Merged(blocks, k);
    MergedAt(blocks, k, k);
    forall i | 0 <= i < |b| ensures Hash(b[i].size) < |lists| && (b[i].free <==> b[i].addr in lists[Hash(b[i].size)]) {
      MergedAt(blocks, k, i);
    }
    forall g, y | 0 <= g < |lists| && y in lists[g] ensures y in Addrs(b) {
      var x :| x in blocks && x.addr == y;
      var o :| 0 <= o < |blocks| && blocks[o] == x;
      var i := if o < k then o else o - 1;
      MergedAt(blocks, k, i);
      assert b[i] == x;
    }
  }

  /** The fragment at `k` cut to `size`, the rest under a header of its own. */
  ghost function Cut(blocks: seq<Block>, k: nat, size: nat): seq<Block>
    requires k < |blocks| && size + OVERHEAD <= blocks[k].size
  {
    blocks[..k] + [Block(blocks[k].addr, size, blocks[k].free),
                   Block(blocks[k].addr + OVERHEAD + size, blocks[k].size - size - OVERHEAD, false)] + blocks[k + 1..]
  }

  lemma CutAt(blocks: seq<Block>, k: nat, size: nat, i: nat)
    requires k < |blocks| && size + OVERHEAD <= blocks[k].size && i <= |blocks|
    ensures |Cut(blocks, k, size)| == |blocks| + 1
    ensures Cut(blocks, k, size)[i] ==
            if i == k then Block(blocks[k].addr, size, blocks[k].free)
            else if i == k + 1 then Block(RestAddr(blocks, k, size), blocks[k].size - size - OVERHEAD, false)
            else blocks[if i < k then i else i - 1]
  {
  }

  /** Where a cut puts the new header. */
  ghost function RestAddr(blocks: seq<Block>, k: nat, size: nat): int
    requires k < |blocks|
  {
    blocks[k].addr + OVERHEAD + size
  }

  /** The headers after a cut: the size of the first part, and a new header whose links are not yet settled. */
  ghost predicate CutIn(hdr: Headers, hdr': Headers, blocks: seq<Block>, k: nat, size: nat)
    requires k < |blocks|
  {
    var a, n := blocks[k].addr, RestAddr(blocks, k, size);
    Hd(hdr', n).size == blocks[k].size - size - OVERHEAD && Hd(hdr', a) == Hd(hdr, a).(size := size)
    && forall y :: y != n && y != a ==> Hd(hdr', y) == Hd(hdr, y)
  }

  lemma CutStep(hdr: Headers, hdr': Headers, bk: seq<Bucket>, blocks: seq<Block>, lists: seq<seq<int>>, lo: int,
        hi: int, k: nat, size: nat)
    requires k < |blocks| && !blocks[k].free && Sound(hdr, bk, blocks, lists, lo, hi, 0) && hi <= WORD
    requires size % ROUNDTO == 0 && size + OVERHEAD <= blocks[k].size && CutIn(hdr, hdr', blocks, k, size)
    ensures Sound(hdr', bk, Cut(blocks, k, size), lists, lo, hi, RestAddr(blocks, k, size))
  {
    hide Hash; hide NodeOk; hide Cut; hide HeaderOk;
    CutTiled(blocks, k, size, lo, hi);
    BusyUnlisted(hdr, bk, blocks, lists, lo, hi, 0, k);
    NewUnlisted(blocks, lists, lo, hi, k, size);
    CutLists(hdr, hdr', bk, lists, blocks[k].addr, RestAddr(blocks, k, size));
    CutHeaders(hdr, hdr', blocks, lo, hi, k, size);
    CutMembers(blocks, lists, lo, hi, k, size);
  }

  lemma CutHeaders(hdr: Headers, hdr': Headers, blocks: seq<Block>, lo: int, hi: int, k: nat, size: nat)
    requires k < |blocks| && !blocks[k].free && Tiled(blocks, lo, hi) && Headed(hdr, blocks, 0)
    requires size % ROUNDTO == 0 && size + OVERHEAD <= blocks[k].size && CutIn(hdr, hdr', blocks, k, size)
    ensures Headed(hdr', Cut(blocks, k, size), RestAddr(blocks, k, size))
  {
    hide Cut;
    var a, n, b := blocks[k].addr, RestAddr(blocks, k, size), Cut(blocks, k, size);
    CutAt(blocks, k, size, k);
    CutAt(blocks, k, size, k + 1);
    CutTiled(blocks, k, size, lo, hi);
    forall i | 0 <= i < |b| ensures HeaderOk(hdr', b[i], n) {
      CutAt(blocks, k, size, i);
      if i != k + 1 {
        var o := if i <= k then i else i - 1;
        assert HeaderOk(hdr, blocks[o], 0);
        NewAddr(blocks, lo, hi, k, size, o);
        Inside(blocks, lo, hi, o);
        if o != k {
          if blocks[o].addr == a {
            SameAddr(blocks, lo, hi, o, k);
          }
        }
      }
    }
  }

  lemma CutTiled(blocks: seq<Block>, k: nat, size: nat, lo: int, hi: int)
    requires k < |blocks| && Tiled(blocks, lo, hi) && size % ROUNDTO == 0 && size + OVERHEAD <= blocks[k].size
    ensures Tiled(Cut(blocks, k, size), lo, hi)
  {
    hide Cut; hide Tiled;
    var b := Cut(blocks, k, size);
    CutAt(blocks, k, size, 0);
    EndsAtNext(blocks, lo, hi, 0);
    forall i | 0 <= i < |b| ensures b[i].End() == NextAddr(b, i, hi) && b[i].size % ROUNDTO == 0 {
      CutTiledAt(blocks, k, size, lo, hi, i);
    }
    TiledIf(b, lo, hi);
  }

  lemma CutTiledAt(blocks: seq<Block>, k: nat, size: nat, lo: int, hi: int, i: nat)
    requires k < |blocks| && Tiled(blocks, lo, hi) && size % ROUNDTO == 0 && size + OVERHEAD <= blocks[k].size
             && i <= |blocks|
    ensures |Cut(blocks, k, size)| == |blocks| + 1
    ensures var b := Cut(blocks, k, size); b[i].End() == NextAddr(b, i, hi) && b[i].size % ROUNDTO == 0
  {
    hide Cut; hide Tiled;
    EndsAtNext(blocks, lo, hi, if i <= k then i else i - 1);
    CutAt(blocks, k, size, i);
    if i < |blocks| {
      CutAt(blocks, k, size, i + 1);
    }
  }

  /** No list mentions the address where the cut puts the new header. */
  lemma NewUnlisted(blocks: seq<Block>, lists: seq<seq<int>>, lo: int, hi: int, k: nat, size: nat)
    requires k < |blocks| && Tiled(blocks, lo, hi) && size % ROUNDTO == 0 && size + OVERHEAD <= blocks[k].size
    requires Members(blocks, lists)
    ensures forall g | 0 <= g < |lists| :: RestAddr(blocks, k, size) !in lists[g]
  {
    hide Cut; hide Hash;
    forall a | a in Addrs(blocks) ensures a != RestAddr(blocks, k, size) {
      var x :| x in blocks && x.addr == a;
      var o :| 0 <= o < |blocks| && blocks[o] == x;
      NewAddr(blocks, lo, hi, k, size, o);
    }
  }

  lemma NewAddr(blocks: seq<Block>, lo: int, hi: int, k: nat, size: nat, o: nat)
    requires k < |blocks| && Tiled(blocks, lo, hi) && size + OVERHEAD <= blocks[k].size && o < |blocks|
    ensures blocks[o].addr != RestAddr(blocks, k, size)
  {
    if o < k {
      Apart(blocks, lo, hi, o, k);
    } else if o > k {
      Apart(blocks, lo, hi, k, o);
    }
  }

  lemma CutLists(hdr: Headers, hdr': Headers, bk: seq<Bucket>, lists: seq<seq<int>>, a: int, n: int)
    requires ListsOk(hdr, bk, lists) && (forall g | 0 <= g < HASH_SIZE :: a !in lists[g] && n !in lists[g])
    requires forall y :: y != n && y != a ==> Hd(hdr', y) == Hd(hdr, y)
    ensures ListsOk(hdr', bk, lists)
  {
    forall g | 0 <= g < HASH_SIZE ensures BucketOk(hdr', bk[g], lists[g], g) {
      BucketFrame(hdr, hdr', bk[g], lists[g], g);
    }
  }

  lemma CutMembers(blocks: seq<Block>, lists: seq<seq<int>>, lo: int, hi: int, k: nat, size: nat)
    requires k < |blocks| && !blocks[k].free && Tiled(blocks, lo, hi) && Members(blocks, lists) && |lists| == HASH_SIZE
             && hi <= WORD
    requires size + OVERHEAD <= blocks[k].size
    requires forall g | 0 <= g < |lists| :: blocks[k].addr !in lists[g] && RestAddr(blocks, k, size) !in lists[g]
    ensures Members(Cut(blocks, k, size), lists)
  {
    hide Hash; hide Cut; hide Tiled;
    var b := Cut(blocks, k, size);
    CutAt(blocks, k, size, k);
    Inside(blocks, lo, hi, k);
    EndsAtNext(blocks, lo, hi, 0);
    HashRange(size);
    HashRange(blocks[k].size - size - OVERHEAD);
    forall i | 0 <= i < |b| ensures Hash(b[i].size) < |lists| && (b[i].free <==> b[i].addr in lists[Hash(b[i].size)]) {
      CutAt(blocks, k, size, i);
    }
    forall g, y | 0 <= g < |lists| && y in lists[g] ensures y in Addrs(b) {
      var x :| x in blocks && x.addr == y;
      var o :| 0 <= o < |blocks| && blocks[o] == x;
      var i := if o < k then o else o + 1;
      CutAt(blocks, k, size, i);
      assert b[i] == x;
    }
  }
}
