/** What freeing a fragment does to the arena: it joins its free neighbours on both sides. */
module QmJoin {
  import opened FmHash
  import opened FmBlocks
  import opened FmCount
  import opened FmJoin
  import opened QmLists
  import opened QmBlocks
  import opened QmCount

  ghost predicate FreeRight(b: seq<Block>, k: nat) {
    k + 1 < |b| && b[k + 1].free
  }

  ghost predicate FreeLeft(b: seq<Block>, k: nat) {
    0 < k < |b| && b[k - 1].free
  }

  /** The free left neighbour joined to the busy fragment at `k`. */
  ghost function JoinedLeft(b: seq<Block>, k: nat): seq<Block>
    requires 0 < k < |b|
  {
    Merged(Marked(b, k - 1, false), k - 1)
  }

  /** The busy fragment at `k` with its free neighbours. */
  ghost function Joined(b: seq<Block>, k: nat): seq<Block>
    requires k < |b|
  {
    var c := if FreeRight(b, k) then Absorbed(b, k) else b;
    if FreeLeft(b, k) then (if k < |c| then JoinedLeft(c, k) else c) else c
  }

  /** Where the joined fragment stands. */
  ghost function Place(b: seq<Block>, k: nat): nat {
    if FreeLeft(b, k) then k - 1 else k
  }

  lemma LeftAt(b: seq<Block>, k: nat, i: nat)
    requires 0 < k < |b| && i + 1 < |b|
    ensures |JoinedLeft(b, k)| == |b| - 1
    ensures JoinedLeft(b, k)[i] ==
            if i == k - 1 then Block(b[k - 1].addr, b[k - 1].size + OVERHEAD + b[k].size, false)
              else b[if i < k - 1 then i else i + 1]
  {
    MergedAt(Marked(b, k - 1, false), k - 1, i);
  }

  /** Joining on the left replaces the busy fragment among the live ones. */
  lemma LeftLive(b: seq<Block>, lo: int, hi: int, k: nat)
    requires Tiled(b, lo, hi) && 0 < k < |b| && !b[k].free && b[k - 1].free
    ensures |JoinedLeft(b, k)| == |b| - 1
    ensures Live(JoinedLeft(b, k)) - {JoinedLeft(b, k)[k - 1]} == Live(b) - {b[k]}
  {
    hide JoinedLeft; hide Tiled;
    var c := JoinedLeft(b, k);
    LeftAt(b, k, k - 1);
    forall x | x in Live(c) && x != c[k - 1] ensures x in Live(b) && x != b[k] {
      var i :| 0 <= i < |c| && c[i] == x;
      LeftAt(b, k, i);
      var o := if i < k - 1 then i else i + 1;
      if x == b[k] {
        SameAddr(b, lo, hi, o, k);
      }
    }
    forall x | x in Live(b) && x != b[k] ensures x in Live(c) && x != c[k - 1] {
      var o :| 0 <= o < |b| && b[o] == x;
      LeftAt(b, k, if o < k - 1 then o else o - 1);
      if x == c[k - 1] {
        SameAddr(b, lo, hi, o, k - 1);
      }
    }
  }

  ghost function Times(n: bool): nat {
    if n then QM_OVERHEAD else 0
  }

  /** Bytes and pairs after joining on the right. */
  lemma RightFacts(b: seq<Block>, lo: int, hi: int, k: nat)
    requires Tiled(b, lo, hi) && k < |b| && !b[k].free && FreeRight(b, k) && Big(b)
    ensures var c := Absorbed(b, k);
            |c| == |b| - 1 && !c[k].free && c[k].addr == b[k].addr && Big(c) && (FreeLeft(c, k) <==> FreeLeft(b, k))
            && (NoFreePair(b) ==> NoFreePair(c) && !FreeRight(c, k))
            && Payload(c[k]) == Payload(b[k]) + QM_OVERHEAD + Payload(b[k + 1])
            && Payloads(c, true) == Payloads(b, true) - Payload(b[k + 1])
            && Payloads(c, false) == Payloads(b, false) + Payload(b[k + 1]) + QM_OVERHEAD
            && Live(c) - {c[k]} == Live(b) - {b[k]} && Tiled(c, lo, hi)
            && (FreeLeft(b, k) ==> c[k - 1] == b[k - 1])
  {
    hide Payloads; hide Tiled; hide Merged; hide NoFreePair; hide Live; hide Marked;
    var d := Marked(b, k + 1, false);
    MarkedIs(b, k + 1, false);
    PayloadsMarked(b, k + 1, false, true);
    PayloadsMarked(b, k + 1, false, false);
    BigAt(b, k);
    BigAt(b, k + 1);
    PayloadsMerged(d, k, true);
    PayloadsMerged(d, k, false);
    AbsorbedAt(b, k, k);
    if k > 0 {
      AbsorbedAt(b, k, k - 1);
    }
    if k + 2 < |b| {
      AbsorbedAt(b, k, k + 1);
    }
    if NoFreePair(b) {
      if k + 2 < |b| {
        NoPairAt(b, k + 2);
      }
      PairTaken(b, k + 1);
      PairMerged(d, k);
    }
    AbsorbedLive(b, lo, hi, k);
    MarkedTiled(b, k + 1, false, lo, hi);
    MergeTiled(d, k, lo, hi);
    BigMerged(d, k);
  }

  lemma NoPairAt(b: seq<Block>, i: nat)
    requires NoFreePair(b) && 1 <= i < |b|
    ensures !(b[i - 1].free && b[i].free)
  {
  }

  lemma MarkedIs(b: seq<Block>, k: nat, free: bool)
    requires k < |b|
    ensures var c := Marked(b, k, free);
            |c| == |b| && c[k] == b[k].(free := free)
            && (forall i | 0 <= i < |b| && i != k :: c[i] == b[i])
    ensures Big(b) ==> Big(Marked(b, k, free))
  {
  }

  /** Every block has room for its tags. */
  ghost predicate Big(b: seq<Block>) {
    forall i | 0 <= i < |b| :: b[i].size >= EXTRA
  }

  lemma BigAt(b: seq<Block>, i: nat)
    requires Big(b) && i < |b|
    ensures b[i].size >= EXTRA && b[i].size == Payload(b[i]) + EXTRA
  {
  }

  lemma BigMerged(b: seq<Block>, k: nat)
    requires Big(b) && k + 1 < |b|
    ensures Big(Merged(b, k))
  {
    hide Merged;
    MergedAt(b, k, k);
    forall i | 0 <= i < |Merged(b, k)| ensures Merged(b, k)[i].size >= EXTRA {
      MergedAt(b, k, i);
    }
  }

  /** Bytes and pairs after joining on the left. */
  lemma LeftFacts(b: seq<Block>, lo: int, hi: int, k: nat)
    requires Tiled(b, lo, hi) && FreeLeft(b, k) && !b[k].free && Big(b)
    ensures var c := JoinedLeft(b, k);
            |c| == |b| - 1 && !c[k - 1].free && c[k - 1].addr == b[k - 1].addr && Big(c)
            && (FreeRight(c, k - 1) <==> FreeRight(b, k)) && (NoFreePair(b) ==> NoFreePair(c) && !FreeLeft(c, k - 1))
            && Payload(c[k - 1]) == Payload(b[k]) + QM_OVERHEAD + Payload(b[k - 1])
            && Payloads(c, true) == Payloads(b, true) - Payload(b[k - 1])
            && Payloads(c, false) == Payloads(b, false) + Payload(b[k - 1]) + QM_OVERHEAD
            && Live(c) - {c[k - 1]} == Live(b) - {b[k]} && Tiled(c, lo, hi)
  {
    hide Payloads; hide Tiled; hide Merged; hide NoFreePair; hide Live; hide Marked;
    var d := Marked(b, k - 1, false);
    MarkedIs(b, k - 1, false);
    PayloadsMarked(b, k - 1, false, true);
    PayloadsMarked(b, k - 1, false, false);
    BigAt(b, k);
    BigAt(b, k - 1);
    PayloadsMerged(d, k - 1, true);
    PayloadsMerged(d, k - 1, false);
    LeftAt(b, k, k - 1);
    if k + 1 < |b| {
      LeftAt(b, k, k);
    }
    if k > 1 {
      LeftAt(b, k, k - 2);
    }
    if NoFreePair(b) {
      if k > 1 {
        NoPairAt(b, k - 1);
      }
      PairTaken(b, k - 1);
      PairMerged(d, k - 1);
    }
    LeftLive(b, lo, hi, k);
    MarkedTiled(b, k - 1, false, lo, hi);
    MergeTiled(d, k - 1, lo, hi);
    BigMerged(d, k - 1);
  }

  /** The fragment at `k` freed. */
  ghost function Freed(b: seq<Block>, k: nat): seq<Block>
    requires k < |b|
  {
    if Place(b, k) < |Joined(b, k)| then Marked(Joined(b, k), Place(b, k), true) else b
  }

  /** The joined fragment has busy neighbours and counts what its parts and the headers between them had. */
  lemma JoinedFacts(b: seq<Block>, lo: int, hi: int, k: nat)
    requires Tiled(b, lo, hi) && k < |b| && !b[k].free && Big(b)
    ensures var c, p := Joined(b, k), Place(b, k);
            p < |c| && !c[p].free && Big(c) && Tiled(c, lo, hi)
            && (NoFreePair(b) ==> NoFreePair(c) && !FreeRight(c, p) && !FreeLeft(c, p))
            && Live(c) - {c[p]} == Live(b) - {b[k]}
            && Payload(c[p]) == Payload(b[k]) + JoinedBytes(b, k)
            && Payloads(c, true) == Payloads(b, true) - JoinedBytes(b, k) + Times(FreeRight(b, k))
            + Times(FreeLeft(b, k))
            && Payloads(c, false) == Payloads(b, false) + JoinedBytes(b, k)
  {
    hide Payloads; hide Tiled; hide Absorbed; hide NoFreePair; hide Live; hide JoinedLeft; hide Big;
    if FreeRight(b, k) {
      RightFacts(b, lo, hi, k);
      if FreeLeft(b, k) {
        LeftFacts(Absorbed(b, k), lo, hi, k);
      }
    } else if FreeLeft(b, k) {
      LeftFacts(b, lo, hi, k);
    }
  }

  /** What the neighbours add to the payload. */
  ghost function JoinedBytes(b: seq<Block>, k: nat): nat {
    (if FreeRight(b, k) then QM_OVERHEAD + Payload(b[k + 1]) else 0)
      + (if FreeLeft(b, k) then QM_OVERHEAD + Payload(b[k - 1]) else 0)
  }

  lemma FreedFacts(b: seq<Block>, lo: int, hi: int, k: nat)
    requires Tiled(b, lo, hi) && k < |b| && !b[k].free && Big(b)
    ensures var c := Freed(b, k);
            (NoFreePair(b) ==> NoFreePair(c)) && Live(c) == Live(b) - {b[k]}
            && Payloads(c, true) == Payloads(b, true) + Payload(b[k]) + Times(FreeRight(b, k)) + Times(FreeLeft(b, k))
            && Payloads(c, false) == Payloads(b, false) - Payload(b[k])
  {
    hide Payloads; hide Tiled; hide NoFreePair; hide Live; hide Joined; hide Marked;
    JoinedFacts(b, lo, hi, k);
    var c, p := Joined(b, k), Place(b, k);
    LiveMarked(c, lo, hi, p, true);
    PayloadsMarked(c, p, true, true);
    PayloadsMarked(c, p, true, false);
    if NoFreePair(b) {
      PairFreed(c, p);
    }
  }

  // ---------- the memory ----------

  /** Marking the left neighbour and joining the right one commute. */
  lemma MarkThenMerge(b: seq<Block>, k: nat)
    requires 0 < k && k + 1 < |b|
    ensures |Merged(b, k)| == |b| - 1 && Merged(Marked(b, k - 1, false), k) == Marked(Merged(b, k), k - 1, false)
  {
    var c, d := Merged(Marked(b, k - 1, false), k), Marked(Merged(b, k), k - 1, false);
    MergedAt(b, k, k);
    MergedAt(Marked(b, k - 1, false), k, k);
    forall i | 0 <= i < |c| ensures c[i] == d[i] {
      MergedAt(b, k, i);
      MergedAt(Marked(b, k - 1, false), k, i);
    }
  }

  /** The free neighbours taken off their lists. */
  ghost function RightTaken(b: seq<Block>, k: nat): seq<Block> {
    if FreeRight(b, k) then Marked(b, k + 1, false) else b
  }

  ghost function LeftTaken(b: seq<Block>, k: nat): seq<Block> {
    if FreeLeft(b, k) then Marked(b, k - 1, false) else b
  }

  lemma TakenBoth(b: seq<Block>, k: nat)
    requires k < |b|
    ensures var d := LeftTaken(RightTaken(b, k), k);
            |d| == |b| && d[k] == b[k] && (FreeLeft(RightTaken(b, k), k) <==> FreeLeft(b, k))
            && (FreeRight(b, k) ==> d[k + 1] == b[k + 1].(free := false))
            && (FreeLeft(b, k) ==> d[k - 1] == b[k - 1].(free := false))
            && (k > 0 ==> RightTaken(b, k)[k - 1] == b[k - 1]) && RightTaken(b, k)[k] == b[k]
            && |RightTaken(b, k)| == |b|
  {
  }

  /** Taking both neighbours off first and merging then comes to the same. */
  lemma JoinedAnyway(b: seq<Block>, k: nat)
    requires k < |b|
    ensures var d := LeftTaken(RightTaken(b, k), k);
            |d| == |b|
            && var c := if FreeRight(b, k) then Merged(d, k) else d;
               Joined(b, k) == if FreeLeft(b, k) then (if k < |c| then Merged(c, k - 1) else c) else c
  {
    hide Merged;
    var r := RightTaken(b, k);
    if FreeRight(b, k) {
      MergedAt(r, k, k);
      if FreeLeft(b, k) {
        MarkThenMerge(r, k);
      }
    }
  }

  /** The two sizes written at the end of `qm_free` join whatever was taken off its list on either side. */
  lemma Rejoin(m: Mem, b: seq<Block>, lists: seq<seq<int>>, lo: int, hi: int, stale: set<int>, k: nat, right: bool,
        left: bool)
    requires QSound(m, b, lists, lo, hi, stale) && hi <= WORD && k < |b| && !b[k].free
    requires right ==> k + 1 < |b| && !b[k + 1].free
    requires left ==> k > 0 && !b[k - 1].free
    ensures var c := if right then Merged(b, k) else b;
            var d := if left then (if k < |c| then Merged(c, k - 1) else c) else c;
            var f := if left then b[k - 1].addr else b[k].addr;
            var n := Payload(b[k]) + (if right then QM_OVERHEAD + Payload(b[k + 1]) else 0)
              + (if left then QM_OVERHEAD + Payload(b[k - 1]) else 0);
            QSound(SetSize(m, f, n), d, lists, lo, hi, stale)
  {
    hide QSound; hide Merged; hide SetSize; hide QmHash; hide Tiled; hide Big; hide Payload;
    SizesOk(m, b, lists, lo, hi, stale);
    TaggedBig(m, b, stale);
    BigAt(b, k);
    if right {
      MergedAt(b, k, k);
      BigAt(b, k + 1);
      QFuse(m, b, lists, lo, hi, stale, k);
      if left {
        MergedAt(b, k, k - 1);
        BigAt(b, k - 1);
        BothSides(m, b, lists, lo, hi, stale, k);
      }
    } else if left {
      QFuse(m, b, lists, lo, hi, stale, k - 1);
    } else {
      SameSize(m, b, lists, lo, hi, stale, k);
    }
  }

  lemma TaggedBig(m: Mem, b: seq<Block>, stale: set<int>)
    requires Tagged(m, b, stale)
    ensures Big(b)
  {
    forall i | 0 <= i < |b| ensures b[i].size >= EXTRA {
      assert TagOk(m, b[i], stale);
    }
  }

  lemma SameSize(m: Mem, b: seq<Block>, lists: seq<seq<int>>, lo: int, hi: int, stale: set<int>, k: nat)
    requires QSound(m, b, lists, lo, hi, stale) && k < |b|
    ensures QSound(SetSize(m, b[k].addr, Payload(b[k])), b, lists, lo, hi, stale)
  {
    hide QLists; hide QMembers; hide Tiled; hide QmHash;
    assert TagOk(m, b[k], stale);
    forall i | 0 <= i < |b|
      ensures var m' := SetSize(m, b[k].addr, Payload(b[k]));
              Hd(m', b[i].addr) == Hd(m, b[i].addr)
              && Tl(m', b[i].End() - TAIL) == Tl(m, b[i].End() - TAIL)
    {
    }
    QFrame(m, SetSize(m, b[k].addr, Payload(b[k])), b, lists, lo, hi, stale);
  }

  lemma BothSides(m: Mem, b: seq<Block>, lists: seq<seq<int>>, lo: int, hi: int, stale: set<int>, k: nat)
    requires 0 < k && k + 1 < |b| && !b[k - 1].free && !b[k].free && !b[k + 1].free && Tiled(b, lo, hi)
    requires QSound(SetSize(m, b[k].addr, Fused(b, k)), Merged(b, k), lists, lo, hi, stale) && hi <= WORD
    requires b[k - 1].size >= EXTRA && b[k].size >= EXTRA && b[k + 1].size >= EXTRA
    requires |Merged(b, k)| == |b| - 1
    ensures var n := Payload(b[k]) + (QM_OVERHEAD + Payload(b[k + 1])) + (QM_OVERHEAD + Payload(b[k - 1]));
            QSound(SetSize(m, b[k - 1].addr, n), Merged(Merged(b, k), k - 1), lists, lo, hi, stale)
  {
    hide QSound; hide Merged; hide Tiled;
    var m1, c := SetSize(m, b[k].addr, Fused(b, k)), Merged(b, k);
    MergedAt(b, k, k);
    MergedAt(b, k, k - 1);
    QFuse(m1, c, lists, lo, hi, stale, k - 1);
    MergedAt(c, k - 1, k - 1);
    var d := Merged(c, k - 1);
    var n := Fused(c, k - 1);
    var f := b[k - 1].addr;
    var m2, m' := SetSize(m1, f, n), SetSize(m, f, n);
    EndsAtNext(b, lo, hi, k - 1);
    EndsAtNext(b, lo, hi, k);
    assert f + HEAD + n == b[k].addr + HEAD + Fused(b, k);
    forall i | 0 <= i < |d|
      ensures Hd(m', d[i].addr) == Hd(m2, d[i].addr) && Tl(m', d[i].End() - TAIL) == Tl(m2, d[i].End() - TAIL)
    {
      NotTheMiddle(b, lo, hi, k, i);
    }
    QFrame(m2, m', d, lists, lo, hi, stale);
  }

  lemma NotTheMiddle(b: seq<Block>, lo: int, hi: int, k: nat, i: nat)
    requires Tiled(b, lo, hi) && 0 < k && k + 1 < |b| && |Merged(b, k)| == |b| - 1 && i + 2 < |b|
    ensures |Merged(Merged(b, k), k - 1)| == |b| - 2
    ensures Merged(Merged(b, k), k - 1)[i].addr != b[k].addr
  {
    hide Merged; hide Tiled;
    var c := Merged(b, k);
    MergedAt(c, k - 1, i);
    var j := if i <= k - 1 then i else i + 1;
    MergedAt(b, k, j);
    var o := if j <= k then j else j + 1;
    if b[o].addr == b[k].addr {
      SameAddr(b, lo, hi, o, k);
    }
  }

  /** Addresses that are no fragment's any more are not stale either. */
  lemma StaleGone(m: Mem, b: seq<Block>, lists: seq<seq<int>>, lo: int, hi: int, stale: set<int>)
    requires QSound(m, b, lists, lo, hi, stale) && forall i | 0 <= i < |b| :: b[i].addr !in stale
    ensures QSound(m, b, lists, lo, hi, {})
  {
    hide QLists; hide QMembers; hide Tiled;
    forall i | 0 <= i < |b| ensures TagOk(m, b[i], {}) {
      assert TagOk(m, b[i], stale);
    }
  }

  /** The right neighbour that was joined is no fragment any more. */
  lemma RightGone(b: seq<Block>, lo: int, hi: int, k: nat)
    requires Tiled(b, lo, hi) && k < |b| && FreeRight(b, k)
    ensures forall i | 0 <= i < |Joined(b, k)| :: Joined(b, k)[i].addr != b[k + 1].addr
  {
    hide Absorbed; hide JoinedLeft; hide Tiled;
    var c := Absorbed(b, k);
    AbsorbedAt(b, k, k);
    forall i | 0 <= i < |c| ensures c[i].addr != b[k + 1].addr {
      AbsorbedAt(b, k, i);
      var o := if i <= k then i else i + 1;
      if b[o].addr == b[k + 1].addr {
        SameAddr(b, lo, hi, o, k + 1);
      }
    }
    if FreeLeft(b, k) {
      LeftAt(c, k, k - 1);
      forall i | 0 <= i < |JoinedLeft(c, k)| ensures JoinedLeft(c, k)[i].addr != b[k + 1].addr {
        LeftAt(c, k, i);
      }
    }
  }
}
