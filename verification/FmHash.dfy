/** Sizes and buckets of the fragment allocator, for 64-bit longs, without the debug fields. */
module FmHash {

  const WORD: nat := 0x1_0000_0000_0000_0000
  const ROUNDTO: nat := 8
  const OPTIMIZE_FACTOR: nat := 14
  const OPTIMIZE: nat := 16384
  const HASH_SIZE: nat := OPTIMIZE / ROUNDTO + (64 - OPTIMIZE_FACTOR) + 1
  /** `sizeof(struct fm_frag)`: a size, a link and a back link. */
  const OVERHEAD: nat := 24
  const LARGE_LIMIT: nat := 65536
  const DEFRAG_LIMIT: nat := LARGE_LIMIT * 20
  const DEFRAG_PERCENT: nat := 10
  const MIN_FRAG_SIZE: nat := ROUNDTO
  /** `sizeof(struct fm_block)` with the statistics counters; already a multiple of ROUNDTO. */
  const BLOCK_SIZE: nat := 8 * 8 + 16 * HASH_SIZE
  const INIT_OVERHEAD: nat := BLOCK_SIZE + OVERHEAD

  type Word = x: int | 0 <= x < WORD

  /** `ROUNDUP`: the addition is of unsigned longs and wraps. */
  function RoundUp(s: Word): Word {
    (s + 7) % WORD / 8 * 8
  }

  function RoundDown(s: Word): Word {
    s / 8 * 8
  }

  /** Rounding gives the least multiple of 8 not below the request, exactly when the request is below 2^64 - 7;
      above that the result wraps to 0. */
  lemma RoundUpExact(s: Word)
    ensures RoundUp(s) % 8 == 0
    ensures RoundUp(s) >= s <==> s <= WORD - 8
    ensures s <= WORD - 8 ==> RoundUp(s) < s + 8
    ensures s > WORD - 8 ==> RoundUp(s) == 0
  {
    if s <= WORD - 8 {
      assert (s + 7) % WORD == s + 7;
    } else {
      assert (s + 7) % WORD == s + 7 - WORD;
    }
  }

  function Pow2(k: nat): nat {
    if k == 0 then 1 else 2 * Pow2(k - 1)
  }

  /** The index of the highest bit. */
  function Log2(s: nat): nat
    requires s > 0
  {
    if s == 1 then 0 else 1 + Log2(s / 2)
  }

  lemma {:induction false} Log2Bounds(s: nat)
    requires s > 0
    ensures Pow2(Log2(s)) <= s < 2 * Pow2(Log2(s))
  {
    if s > 1 {
      Log2Bounds(s / 2);
    }
  }

  lemma {:induction false} Pow2Monotone(a: nat, b: nat)
    requires a <= b
    ensures Pow2(a) <= Pow2(b)
  {
    if a < b {
      Pow2Monotone(a, b - 1);
    }
  }

  lemma Pow2Strict(a: nat, b: nat)
    requires Pow2(a) < Pow2(b)
    ensures a < b
  {
    if b <= a {
      Pow2Monotone(b, a);
    }
  }

  /** The highest bit is the only index whose power of two brackets the number. */
  lemma Log2Unique(s: nat, k: nat)
    requires s > 0 && Pow2(k) <= s < 2 * Pow2(k)
    ensures Log2(s) == k
  {
    Log2Bounds(s);
    Pow2Strict(k, Log2(s) + 1);
    Pow2Strict(Log2(s), k + 1);
  }

  lemma Log2Monotone(a: nat, b: nat)
    requires 0 < a <= b
    ensures Log2(a) <= Log2(b)
  {
    Log2Bounds(a);
    Log2Bounds(b);
    Pow2Strict(Log2(a), Log2(b) + 1);
  }

  lemma Pow2At()
    ensures Pow2(14) == 16384 && Pow2(63) == 0x8000_0000_0000_0000
  {
    assert Pow2(7) == 128;
    assert Pow2(14) == 16384;
    assert Pow2(21) == 0x20_0000;
    assert Pow2(28) == 0x1000_0000;
    assert Pow2(35) == 0x8_0000_0000;
    assert Pow2(42) == 0x400_0000_0000;
    assert Pow2(49) == 0x2_0000_0000_0000;
    assert Pow2(56) == 0x100_0000_0000_0000;
    assert Pow2(63) == 0x8000_0000_0000_0000;
  }

  /** `big_hash_idx`: shift left until the top bit is set. */
  method BigHashIdx(s0: Word) returns (idx: nat)
    requires s0 > 0
    ensures idx == Log2(s0) && idx < 64
  {
    var s: Word := s0;
    idx := 63;
    ghost var shift := 0;
    Pow2At();
    while s < 0x8000_0000_0000_0000
      invariant idx + shift == 63 && s == s0 * Pow2(shift) && s > 0
      decreases WORD - s
    {
      hide Log2;
      ScaleUp(s0, shift);
      Pow2Strict(shift, 63);
      Doubled(s0, shift);
      s := (s * 2) % WORD;
      idx := idx - 1;
      shift := shift + 1;
    }
    TopBit(s0, idx, shift);
  }

  lemma Doubled(s: nat, k: nat)
    ensures s * Pow2(k + 1) == 2 * (s * Pow2(k))
  {
  }

  lemma ScaleUp(s: nat, k: nat)
    requires s > 0
    ensures s * Pow2(k) >= Pow2(k)
  {
  }

  lemma TwiceOver(p: nat, q: nat)
    ensures (2 * p) * q == 2 * (p * q)
  {
  }

  lemma {:induction false} Pow2Add(a: nat, b: nat)
    ensures Pow2(a + b) == Pow2(a) * Pow2(b)
  {
    if a > 0 {
      Pow2Add(a - 1, b);
      TwiceOver(Pow2(a - 1), Pow2(b));
    }
  }

  lemma TopBit(s: nat, idx: nat, shift: nat)
    requires s > 0 && idx + shift == 63 && Pow2(63) <= s * Pow2(shift) < 2 * Pow2(63)
    ensures Log2(s) == idx
  {
    hide Pow2; hide Log2;
    Pow2Add(idx, shift);
    Pow2Positive(shift);
    Bracket(Pow2(idx), s, Pow2(shift));
    Log2Unique(s, idx);
  }

  lemma Bracket(p: nat, s: nat, q: nat)
    requires q > 0 && p * q <= s * q < 2 * (p * q)
    ensures p <= s < 2 * p
  {
    assert 2 * (p * q) == (2 * p) * q;
    Cancel(s, 2 * p, q);
    assert (s + 1) * q == s * q + q;
    Cancel(p, s + 1, q);
  }

  lemma Cancel(a: nat, b: nat, q: nat)
    requires a * q < b * q
    ensures a < b
  {
    if b <= a {
      MulLeq(b, a, q);
    }
  }

  lemma {:induction false} Pow2Positive(k: nat)
    ensures Pow2(k) > 0
  {
    if k > 0 {
      Pow2Positive(k - 1);
    }
  }

  lemma MulLeq(a: nat, b: nat, q: nat)
    requires a <= b
    ensures a * q <= b * q
  {
  }

  /** `GET_HASH`. */
  function Hash(s: nat): nat {
    if s <= OPTIMIZE then s / ROUNDTO
    else OPTIMIZE / ROUNDTO + Log2(s) - OPTIMIZE_FACTOR + 1
  }

  method GetHash(s: Word) returns (h: nat)
    ensures h == Hash(s)
  {
    if s <= OPTIMIZE {
      h := s / ROUNDTO;
    } else {
      var idx := BigHashIdx(s);
      Log2Monotone(OPTIMIZE, s);
      Pow2At();
      Log2Unique(OPTIMIZE, 14);
      h := OPTIMIZE / ROUNDTO + idx - OPTIMIZE_FACTOR + 1;
    }
  }

  lemma HashRange(s: Word)
    ensures Hash(s) < HASH_SIZE
    ensures s > OPTIMIZE <==> Hash(s) > OPTIMIZE / ROUNDTO
  {
    Pow2At();
    Log2Unique(OPTIMIZE, 14);
    if s > OPTIMIZE {
      Log2Bounds(s);
      Log2Monotone(OPTIMIZE, s);
      assert Pow2(64) == 2 * Pow2(63);
      Pow2Strict(Log2(s), 64);
    }
  }

  /** Larger sizes never hash lower, so a strictly lower bucket holds strictly smaller sizes. */
  lemma HashMonotone(a: nat, b: nat)
    requires a <= b
    ensures Hash(a) <= Hash(b)
  {
    Pow2At();
    Log2Unique(OPTIMIZE, 14);
    if a > OPTIMIZE {
      Log2Monotone(a, b);
    } else if b > OPTIMIZE {
      Log2Monotone(OPTIMIZE, b);
    }
  }

  /** A small bucket holds one size. */
  lemma SmallBucket(a: nat, b: nat)
    requires a % 8 == 0 && b % 8 == 0 && Hash(a) == Hash(b) && a <= OPTIMIZE
    ensures a == b
  {
    if b > OPTIMIZE {
      Pow2At();
      Log2Unique(OPTIMIZE, 14);
      Log2Monotone(OPTIMIZE, b);
    }
  }
}
