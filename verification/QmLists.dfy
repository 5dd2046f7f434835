/** The free lists of the boundary-tag allocator: circular, doubly linked through the head and the end tag of each
    fragment. */
module QmLists {
  import opened FmHash
  import L = FmLists

  const QM_ROUNDTO: nat := 16
  const QM_SMALL: nat := OPTIMIZE / QM_ROUNDTO
  const QM_HASH_SIZE: nat := QM_SMALL + (64 - OPTIMIZE_FACTOR) + 1
  /** `sizeof(struct qm_frag)` and `sizeof(struct qm_frag_end)`. */
  const HEAD: nat := 16
  const TAIL: nat := 16

  /** `ROUNDUP` to multiples of 16; the addition wraps. */
  function QmRoundUp(s: Word): Word {
    (s + 15) % WORD / 16 * 16
  }

  /** `GET_HASH` of q_malloc.c. */
  function QmHash(s: nat): nat {
    if s <= OPTIMIZE then s / QM_ROUNDTO else QM_SMALL + Log2(s) - OPTIMIZE_FACTOR + 1
  }

  method QmGetHash(s: Word) returns (h: nat)
    ensures h == QmHash(s)
  {
    if s <= OPTIMIZE {
      h := s / QM_ROUNDTO;
    } else {
      var idx := BigHashIdx(s);
      Log2Monotone(OPTIMIZE, s);
      Pow2At();
      Log2Unique(OPTIMIZE, 14);
      h := QM_SMALL + idx - OPTIMIZE_FACTOR + 1;
    }
  }

  lemma QmHashRange(s: Word)
    ensures QmHash(s) < QM_HASH_SIZE
  {
    Pow2At();
    if s > OPTIMIZE {
      Log2Bounds(s);
      assert Pow2(64) == 2 * Pow2(63);
      Pow2Strict(Log2(s), 64);
    }
  }

  lemma QmHashMonotone(a: nat, b: nat)
    requires a <= b
    ensures QmHash(a) <= QmHash(b)
  {
    Pow2At();
    Log2Unique(OPTIMIZE, 14);
    if a > OPTIMIZE {
      Log2Monotone(a, b);
    } else if b > OPTIMIZE {
      Log2Monotone(OPTIMIZE, b);
    }
  }

  // ---------- memory ----------

  /** A `struct qm_frag *`: null, the head of a bucket, or a fragment. */
  datatype Ref = Null | Bkt(h: nat) | At(a: int)

  datatype Head = Head(size: nat, nxt: Ref)
  datatype Tail = Tail(size: nat, prev: Ref)
  /** `struct qm_frag_lnk`; its head has size 0, so its end tag follows at once. */
  datatype Lnk = Lnk(first: Ref, last: Ref, no: int)

  /** Heads by address, end tags by address, and the buckets. */
  datatype Mem = Mem(heads: map<int, Head>, tails: map<int, Tail>, bk: seq<Lnk>)

  function Hd(m: Mem, a: int): Head {
    if a in m.heads then m.heads[a] else Head(0, Null)
  }

  function Tl(m: Mem, loc: int): Tail {
    if loc in m.tails then m.tails[loc] else Tail(0, Null)
  }

  /** `FRAG_END`. */
  function TailLoc(m: Mem, a: int): int {
    a + HEAD + Hd(m, a).size
  }

  function Nxt(m: Mem, r: Ref): Ref {
    match r
    case Null => Null
    case Bkt(h) => if h < |m.bk| then m.bk[h].first else Null
    case At(a) => Hd(m, a).nxt
  }

  function Prv(m: Mem, r: Ref): Ref {
    match r
    case Null => Null
    case Bkt(h) => if h < |m.bk| then m.bk[h].last else Null
    case At(a) => Tl(m, TailLoc(m, a)).prev
  }

  function SetNxt(m: Mem, r: Ref, x: Ref): Mem {
    match r
    case Null => m
    case Bkt(h) => if h < |m.bk| then m.(bk := m.bk[h := m.bk[h].(first := x)]) else m
    case At(a) => m.(heads := m.heads[a := Hd(m, a).(nxt := x)])
  }

  function SetPrv(m: Mem, r: Ref, x: Ref): Mem {
    match r
    case Null => m
    case Bkt(h) => if h < |m.bk| then m.(bk := m.bk[h := m.bk[h].(last := x)]) else m
    case At(a) => m.(tails := m.tails[TailLoc(m, a) := Tl(m, TailLoc(m, a)).(prev := x)])
  }

  /** A reference whose fields can be written. */
  predicate Real(m: Mem, r: Ref) {
    match r case Null => false case Bkt(h) => h < |m.bk| case At(_) => true
  }

  /** The end tags of these fragments do not coincide. */
  ghost predicate Spread(m: Mem, s: set<int>) {
    forall a, b | a in s && b in s && a != b :: TailLoc(m, a) != TailLoc(m, b)
  }

  ghost predicate InSet(r: Ref, s: set<int>) {
    match r case Null => false case Bkt(_) => true case At(a) => a in s
  }

  /** Nothing but links differs. */
  ghost predicate SameTags(m: Mem, m': Mem) {
    |m'.bk| == |m.bk| && (forall a :: Hd(m', a).size == Hd(m, a).size)
    && (forall loc :: Tl(m', loc).size == Tl(m, loc).size)
    && forall h | 0 <= h < |m.bk| :: m'.bk[h].no == m.bk[h].no
  }

  lemma SetNxtIs(m: Mem, r: Ref, x: Ref)
    requires Real(m, r)
    ensures var m' := SetNxt(m, r, x);
            SameTags(m, m') && (forall q :: Nxt(m', q) == if q == r then x else Nxt(m, q)) && forall q ::
              Prv(m', q) == Prv(m, q)
  {
  }

  lemma SetPrvIs(m: Mem, r: Ref, x: Ref, s: set<int>)
    requires Real(m, r) && InSet(r, s) && Spread(m, s)
    ensures var m' := SetPrv(m, r, x);
            SameTags(m, m') && (forall q :: Nxt(m', q) == Nxt(m, q)) && forall q | InSet(q, s) ::
              Prv(m', q) == if q == r then x else Prv(m, q)
  {
  }

  lemma SpreadSame(m: Mem, m': Mem, s: set<int>)
    requires SameTags(m, m') && Spread(m, s)
    ensures Spread(m', s)
  {
    forall a, b | a in s && b in s && a != b ensures TailLoc(m', a) != TailLoc(m', b) {
      assert TailLoc(m, a) != TailLoc(m, b);
    }
  }

  // ---------- lists ----------

  ghost function RefAt(l: seq<int>, i: int, h: nat): Ref {
    if 0 <= i < |l| then At(l[i]) else Bkt(h)
  }

  /** The links between position `i` and the next. */
  ghost predicate LinkOk(m: Mem, l: seq<int>, i: int, h: nat) {
    Nxt(m, RefAt(l, i, h)) == RefAt(l, i + 1, h) && Prv(m, RefAt(l, i + 1, h)) == RefAt(l, i, h)
  }

  ghost predicate Linked(m: Mem, l: seq<int>, h: nat) {
    forall i | -1 <= i < |l| :: LinkOk(m, l, i, h)
  }

  ghost predicate Ascending(m: Mem, l: seq<int>) {
    forall i, j | 0 <= i < j < |l| :: Hd(m, l[i]).size <= Hd(m, l[j]).size
  }

  ghost predicate BucketOk(m: Mem, l: seq<int>, h: nat) {
    h < |m.bk| && m.bk[h].no == |l| && L.NoRepeats(l) && Linked(m, l, h) && Ascending(m, l) && forall a | a in l ::
      QmHash(Hd(m, a).size) == h
  }

  /** The links of `qm_insert_free`, for position `j`. */
  ghost function LinkIn(m: Mem, l: seq<int>, j: nat, a: int, h: nat): Mem {
    var p, f := RefAt(l, j - 1, h), RefAt(l, j, h);
    SetPrv(SetNxt(SetPrv(SetNxt(m, p, At(a)), At(a), p), At(a), f), f, At(a))
  }

  /** What `LinkIn` leaves in the links of the fragments of `s` and of the buckets. */
  lemma LinkInIs(m: Mem, l: seq<int>, j: nat, a: int, h: nat, s: set<int>)
    requires h < |m.bk| && j <= |l| && a !in l && a in s && (forall x | x in l :: x in s) && Spread(m, s)
    ensures var m', p, f := LinkIn(m, l, j, a, h), RefAt(l, j - 1, h), RefAt(l, j, h);
            SameTags(m, m')
            && (forall q :: Nxt(m', q) == if q == At(a) then f else if q == p then At(a) else Nxt(m, q))
            && forall q | InSet(q, s) :: Prv(m', q) == if q == f then At(a) else if q == At(a) then p else Prv(m, q)
  {
    hide SetNxt; hide SetPrv; hide Nxt; hide Prv; hide Spread; hide SameTags;
    var p, f := RefAt(l, j - 1, h), RefAt(l, j, h);
    var m1 := SetNxt(m, p, At(a));
    SetNxtIs(m, p, At(a));
    SpreadSame(m, m1, s);
    var m2 := SetPrv(m1, At(a), p);
    SetPrvIs(m1, At(a), p, s);
    SpreadSame(m1, m2, s);
    var m3 := SetNxt(m2, At(a), f);
    SetNxtIs(m2, At(a), f);
    SpreadSame(m2, m3, s);
    SameReal(m, m1, m2, m3, f);
    SetPrvIs(m3, f, At(a), s);
    TagsChain(m, m1, m2, m3, SetPrv(m3, f, At(a)));
  }

  lemma SameReal(m: Mem, m1: Mem, m2: Mem, m3: Mem, r: Ref)
    requires SameTags(m, m1) && SameTags(m1, m2) && SameTags(m2, m3) && Real(m, r)
    ensures Real(m3, r)
  {
  }

  lemma TagsChain(m: Mem, m1: Mem, m2: Mem, m3: Mem, m4: Mem)
    requires SameTags(m, m1) && SameTags(m1, m2) && SameTags(m2, m3) && SameTags(m3, m4)
    ensures SameTags(m, m4)
  {
  }

  lemma LinkInLinked(m: Mem, l: seq<int>, j: nat, a: int, h: nat, s: set<int>)
    requires h < |m.bk| && j <= |l| && a !in l && a in s && (forall x | x in l :: x in s) && Spread(m, s)
             && Linked(m, l, h) && L.NoRepeats(l)
    ensures Linked(LinkIn(m, l, j, a, h), L.Inserted(l, j, a), h)
  {
    hide LinkIn; hide Nxt; hide Prv; hide Spread; hide SameTags; hide Linked; hide L.NoRepeats;
    LinkInIs(m, l, j, a, h, s);
    var m', g := LinkIn(m, l, j, a, h), L.Inserted(l, j, a);
    forall i | -1 <= i < |g| ensures LinkOk(m', g, i, h) {
      InsertedRef(l, j, a, h, i);
      InsertedRef(l, j, a, h, i + 1);
      OnlyRef(l, h, j - 1, if i < j then i else i - 1);
      OnlyRef(l, h, j, if i < j then i + 1 else i);
      LinkAt(m, l, h, if i < j then i else i - 1);
      RefIn(l, h, s, if i < j then i + 1 else i);
    }
    LinkedIf(m', g, h);
  }

  lemma LinkedIf(m: Mem, l: seq<int>, h: nat)
    requires forall i | -1 <= i < |l| :: LinkOk(m, l, i, h)
    ensures Linked(m, l, h)
  {
  }

  lemma LinkAt(m: Mem, l: seq<int>, h: nat, i: int)
    requires Linked(m, l, h)
    ensures -1 <= i < |l| ==> LinkOk(m, l, i, h)
  {
  }

  lemma RefIn(l: seq<int>, h: nat, s: set<int>, i: int)
    requires forall x | x in l :: x in s
    ensures InSet(RefAt(l, i, h), s)
  {
  }

  lemma InsertedRef(l: seq<int>, j: nat, a: int, h: nat, i: int)
    requires j <= |l|
    ensures |L.Inserted(l, j, a)| == |l| + 1
    ensures RefAt(L.Inserted(l, j, a), i, h) == if i < j then RefAt(l, i, h) else if i == j then At(a)
              else RefAt(l, i - 1, h)
  {
  }

  /** Two positions hold the same reference only if they are the same or both outside the list. */
  lemma OnlyRef(l: seq<int>, h: nat, i: int, j: int)
    requires L.NoRepeats(l)
    ensures RefAt(l, i, h) == RefAt(l, j, h) ==> i == j || (!(0 <= i < |l|) && !(0 <= j < |l|))
  {
  }

  /** The links of `qm_detach_free`, for position `j`. */
  ghost function LinkOut(m: Mem, l: seq<int>, j: nat, h: nat): Mem {
    var p, n := RefAt(l, j - 1, h), RefAt(l, j + 1, h);
    SetPrv(SetNxt(m, p, n), n, p)
  }

  lemma LinkOutIs(m: Mem, l: seq<int>, j: nat, h: nat, s: set<int>)
    requires h < |m.bk| && j < |l| && (forall x | x in l :: x in s) && Spread(m, s)
    ensures var m', p, n := LinkOut(m, l, j, h), RefAt(l, j - 1, h), RefAt(l, j + 1, h);
            SameTags(m, m') && (forall q :: Nxt(m', q) == if q == p then n else Nxt(m, q))
            && forall q | InSet(q, s) :: Prv(m', q) == if q == n then p else Prv(m, q)
  {
    hide SetNxt; hide SetPrv; hide Nxt; hide Prv; hide Spread; hide SameTags;
    var p, n := RefAt(l, j - 1, h), RefAt(l, j + 1, h);
    var m1 := SetNxt(m, p, n);
    SetNxtIs(m, p, n);
    SpreadSame(m, m1, s);
    SameReal1(m, m1, n);
    SetPrvIs(m1, n, p, s);
    TagsChain(m, m1, SetPrv(m1, n, p), SetPrv(m1, n, p), SetPrv(m1, n, p)) by { TagsRefl(SetPrv(m1, n, p)); }
  }

  lemma TagsRefl(m: Mem)
    ensures SameTags(m, m)
  {
  }

  lemma SameReal1(m: Mem, m1: Mem, r: Ref)
    requires SameTags(m, m1) && Real(m, r)
    ensures Real(m1, r)
  {
  }

  lemma DroppedRef(l: seq<int>, j: nat, h: nat, i: int)
    requires j < |l|
    ensures |L.Dropped(l, j)| == |l| - 1
    ensures RefAt(L.Dropped(l, j), i, h) == if i < j then RefAt(l, i, h) else RefAt(l, i + 1, h)
  {
  }

  lemma LinkOutLinked(m: Mem, l: seq<int>, j: nat, h: nat, s: set<int>)
    requires h < |m.bk| && j < |l| && (forall x | x in l :: x in s) && Spread(m, s) && Linked(m, l, h) && L.NoRepeats(l)
    ensures Linked(LinkOut(m, l, j, h), L.Dropped(l, j), h)
  {
    hide LinkOut; hide Nxt; hide Prv; hide Spread; hide SameTags; hide Linked; hide L.NoRepeats;
    LinkOutIs(m, l, j, h, s);
    var m', g := LinkOut(m, l, j, h), L.Dropped(l, j);
    DroppedRef(l, j, h, 0);
    forall i | -1 <= i < |g| ensures LinkOk(m', g, i, h) {
      DroppedRef(l, j, h, i);
      DroppedRef(l, j, h, i + 1);
      var o := if i < j then i else i + 1;
      var o' := if i + 1 < j then i + 1 else i + 2;
      OnlyRef(l, h, j - 1, o);
      OnlyRef(l, h, j + 1, o');
      LinkAt(m, l, h, o);
      LinkAt(m, l, h, o' - 1);
      RefIn(l, h, s, o');
    }
    LinkedIf(m', g, h);
  }

  /** A list whose links are not touched stays linked. */
  lemma LinkedFrame(m: Mem, m': Mem, l: seq<int>, h: nat)
    requires Linked(m, l, h)
    requires forall i | -1 <= i <= |l| ::
               Nxt(m', RefAt(l, i, h)) == Nxt(m, RefAt(l, i, h)) && Prv(m', RefAt(l, i, h)) == Prv(m, RefAt(l, i, h))
    ensures Linked(m', l, h)
  {
    hide Nxt; hide Prv; hide RefAt;
    forall i | -1 <= i < |l| ensures LinkOk(m', l, i, h) {
      assert LinkOk(m, l, i, h);
    }
  }
}
