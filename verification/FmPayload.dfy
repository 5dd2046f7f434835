/** Moving a payload to another fragment. */
module FmPayload {
  import opened FmHash
  import opened FmBlocks
  import opened FmCount

  ghost predicate SameByte(m: Bytes, p: int, m': Bytes, q: int, i: int) {
    (p + i in m <==> q + i in m') && (p + i in m ==> m[p + i] == m'[q + i])
  }

  /** The `n` bytes at `p` in `m` are those at `q` in `m'`. */
  ghost predicate SamePayload(m: Bytes, p: int, m': Bytes, q: int, n: int) {
    forall i | 0 <= i < n :: SameByte(m, p, m', q, i)
  }

  /** Where `memcpy` takes the byte at `x` from. */
  function Origin(dst: int, src: int, n: nat, x: int): int {
    if dst <= x < dst + n then x - dst + src else x
  }

  function Shifted(keys: set<int>, d: int): set<int> {
    set y | y in keys :: y + d
  }

  /** `memcpy`. */
  function Copied(m: Bytes, dst: int, src: int, n: nat): Bytes {
    map x | x in m.Keys + Shifted(m.Keys, dst - src) && Origin(dst, src, n, x) in m :: m[Origin(dst, src, n, x)]
  }

  lemma CopiedAt(m: Bytes, dst: int, src: int, n: nat, x: int)
    ensures if dst <= x < dst + n then SameByte(m, x - dst + src, Copied(m, dst, src, n), x, 0)
              else SameAt(m, Copied(m, dst, src, n), x)
  {
    if dst <= x < dst + n && x - dst + src in m {
      var y := x - dst + src;
      assert y in m.Keys && y + (dst - src) == x;
      assert x in Shifted(m.Keys, dst - src);
      assert x in Copied(m, dst, src, n);
    }
  }

  /** The copy carries the payload over and touches nothing outside the fragment it fills. */
  lemma CopyStep(m: Bytes, blocks: seq<Block>, lo: int, hi: int, b: Block, c: Block)
    requires Tiled(blocks, lo, hi) && b in Live(blocks) && c in Live(blocks) && b != c && b.size <= c.size
    ensures var m' := Copied(m, c.addr + OVERHEAD, b.addr + OVERHEAD, b.size);
            SamePayload(m, b.addr + OVERHEAD, m', c.addr + OVERHEAD, b.size) && Kept(m, m', Live(blocks) - {c})
  {
    hide Copied; hide Tiled;
    var p, q, n := b.addr + OVERHEAD, c.addr + OVERHEAD, b.size;
    var m' := Copied(m, q, p, n);
    forall i | 0 <= i < n ensures SameByte(m, p, m', q, i) {
      CopiedAt(m, q, p, n, q + i);
    }
    forall x | x in Live(blocks) - {c} ensures KeptIn(m, m', x) {
      LiveDisjoint(blocks, lo, hi, c, x);
      forall a | x.addr + OVERHEAD <= a < x.End() ensures SameAt(m, m', a) {
        CopiedAt(m, q, p, n, a);
      }
    }
  }

  lemma KeptPayload(m: Bytes, m': Bytes, b: Block, n: nat)
    requires KeptIn(m, m', b) && n <= b.size
    ensures SamePayload(m, b.addr + OVERHEAD, m', b.addr + OVERHEAD, n)
  {
    var p := b.addr + OVERHEAD;
    forall i | 0 <= i < n ensures SameByte(m, p, m', p, i) {
      assert SameAt(m, m', p + i);
    }
  }

  /** Kept, copied, kept: the payload has arrived. */
  lemma Carried(m0: Bytes, m1: Bytes, m2: Bytes, m3: Bytes, b: Block, c: Block)
    requires KeptIn(m0, m1, b) && SamePayload(m1, b.addr + OVERHEAD, m2, c.addr + OVERHEAD, b.size)
    requires KeptIn(m2, m3, c) && b.size <= c.size
    ensures SamePayload(m0, b.addr + OVERHEAD, m3, c.addr + OVERHEAD, b.size)
  {
    var p, q := b.addr + OVERHEAD, c.addr + OVERHEAD;
    forall i | 0 <= i < b.size ensures SameByte(m0, p, m3, q, i) {
      assert SameAt(m0, m1, p + i) && SameByte(m1, p, m2, q, i) && SameAt(m2, m3, q + i);
    }
  }

  lemma KeptOne(m: Bytes, m': Bytes, s: set<Block>, b: Block)
    requires Kept(m, m', s) && b in s
    ensures KeptIn(m, m', b)
  {
  }

  lemma KeptSubset(m: Bytes, m': Bytes, s: set<Block>, t: set<Block>)
    requires Kept(m, m', s) && t <= s
    ensures Kept(m, m', t)
  {
  }
}
