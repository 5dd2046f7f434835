/** The free lists of the fragment allocator, as the headers in memory hold them. */
module FmLists {
  import opened FmHash

  /** A `struct fm_frag **`: the head of a bucket, the link field of a fragment, or null. */
  datatype Slot = Null | Head(h: nat) | Nxt(a: int)

  /** A fragment header: size, next free fragment (0 for none), and the slot that points here if free. */
  datatype Frag = Frag(size: nat, nxt: int, prev: Slot)

  datatype Bucket = Bucket(first: int, no: nat)

  /** The headers in memory by address; memory never written as a header reads as zeroes. */
  type Headers = map<int, Frag>

  function Hd(hdr: Headers, a: int): Frag {
    if a in hdr then hdr[a] else Frag(0, 0, Null)
  }

  ghost function At(l: seq<int>, i: nat): int {
    if i < |l| then l[i] else 0
  }

  /** The slot that must point to position `i` of bucket `h`. */
  ghost function SlotOf(l: seq<int>, i: nat, h: nat): Slot
    requires i <= |l|
  {
    if i == 0 then Head(h) else Nxt(l[i - 1])
  }

  ghost predicate NodeOk(hdr: Headers, l: seq<int>, i: nat, h: nat)
    requires i < |l|
  {
    l[i] != 0 && Hd(hdr, l[i]).nxt == At(l, i + 1) && Hd(hdr, l[i]).prev == SlotOf(l, i, h)
    && Hash(Hd(hdr, l[i]).size) == h
  }

  ghost predicate NoRepeats(l: seq<int>) {
    forall i, j | 0 <= i < j < |l| :: l[i] != l[j]
  }

  ghost predicate SortedBySize(hdr: Headers, l: seq<int>)
  {
    forall i, j | 0 <= i < j < |l| :: Hd(hdr, l[i]).size <= Hd(hdr, l[j]).size
  }

  /** Bucket `h` holds exactly the fragments of `l`, doubly linked, counted, and by ascending size if it is a big
      bucket. */
  ghost predicate BucketOk(hdr: Headers, b: Bucket, l: seq<int>, h: nat) {
    b.no == |l| && b.first == At(l, 0) && NoRepeats(l) && (forall i | 0 <= i < |l| :: NodeOk(hdr, l, i, h))
    && (h > OPTIMIZE / ROUNDTO ==> SortedBySize(hdr, l))
  }

  /** A bucket does not notice changes to headers that are not on it. */
  lemma BucketFrame(hdr: Headers, hdr': Headers, b: Bucket, l: seq<int>, h: nat)
    requires BucketOk(hdr, b, l, h)
    requires forall a | a in l :: Hd(hdr', a) == Hd(hdr, a)
    ensures BucketOk(hdr', b, l, h)
  {
    forall i | 0 <= i < |l| ensures NodeOk(hdr', l, i, h) {
      assert NodeOk(hdr, l, i, h);
    }
  }

  // ---------- linking in ----------

  /** The headers once `a` stands at position `j` of `l`. */
  ghost function LinkIn(hdr: Headers, l: seq<int>, j: nat, a: int, h: nat): Headers
    requires j <= |l|
  {
    var h1 := hdr[a := Frag(Hd(hdr, a).size, At(l, j), SlotOf(l, j, h))];
    var h2 := if j < |l| then h1[l[j] := Hd(h1, l[j]).(prev := Nxt(a))] else h1;
    if j > 0 then h2[l[j - 1] := Hd(h2, l[j - 1]).(nxt := a)] else h2
  }

  ghost function Inserted(l: seq<int>, j: nat, a: int): seq<int>
    requires j <= |l|
  {
    l[..j] + [a] + l[j..]
  }

  /** Position `j` is right for a fragment of this size. */
  ghost predicate FitsAt(hdr: Headers, l: seq<int>, j: nat, size: nat, h: nat)
    requires j <= |l|
  {
    h > OPTIMIZE / ROUNDTO ==>
      (forall i | 0 <= i < j :: Hd(hdr, l[i]).size <= size) && (forall i | j <= i < |l| :: size <= Hd(hdr, l[i]).size)
  }

  /** What linking in leaves in the header at each position of the new list. */
  lemma LinkInAt(hdr: Headers, l: seq<int>, j: nat, a: int, h: nat, i: nat)
    requires NoRepeats(l) && j <= |l| && a !in l && i <= |l|
    ensures var l' := Inserted(l, j, a); var was := Hd(hdr, l'[i]);
            Hd(LinkIn(hdr, l, j, a, h), l'[i]) ==
            if i == j then Frag(was.size, At(l, j), SlotOf(l, j, h))
            else if i == j + 1 then was.(prev := Nxt(a))
            else if i + 1 == j then was.(nxt := a)
            else was
  {
    assert Inserted(l, j, a)[i] == if i < j then l[i] else if i == j then a else l[i - 1];
  }

  lemma LinkInNode(hdr: Headers, l: seq<int>, j: nat, a: int, h: nat, i: nat)
    requires NoRepeats(l) && j <= |l| && a !in l && a != 0 && i <= |l| && Hash(Hd(hdr, a).size) == h
    requires forall k | 0 <= k < |l| :: NodeOk(hdr, l, k, h)
    ensures NodeOk(LinkIn(hdr, l, j, a, h), Inserted(l, j, a), i, h)
  {
    hide Hash; hide LinkIn; hide NoRepeats;
    LinkInAt(hdr, l, j, a, h, i);
    if i < j {
      assert NodeOk(hdr, l, i, h);
    } else if i > j {
      assert NodeOk(hdr, l, i - 1, h);
    }
  }

  lemma LinkInSorted(hdr: Headers, l: seq<int>, j: nat, a: int, h: nat)
    requires NoRepeats(l) && j <= |l| && a !in l && SortedBySize(hdr, l)
    requires FitsAt(hdr, l, j, Hd(hdr, a).size, h) && h > OPTIMIZE / ROUNDTO
    ensures SortedBySize(LinkIn(hdr, l, j, a, h), Inserted(l, j, a))
  {
    hide LinkIn; hide NoRepeats;
    var l' := Inserted(l, j, a);
    forall i, k | 0 <= i < k < |l'|
      ensures Hd(LinkIn(hdr, l, j, a, h), l'[i]).size <= Hd(LinkIn(hdr, l, j, a, h), l'[k]).size
    {
      LinkInAt(hdr, l, j, a, h, i);
      LinkInAt(hdr, l, j, a, h, k);
    }
  }

  lemma LinkInOk(hdr: Headers, b: Bucket, l: seq<int>, j: nat, a: int, h: nat)
    requires BucketOk(hdr, b, l, h) && j <= |l| && a != 0 && a !in l && Hash(Hd(hdr, a).size) == h
    requires FitsAt(hdr, l, j, Hd(hdr, a).size, h)
    ensures BucketOk(LinkIn(hdr, l, j, a, h), Bucket(if j == 0 then a else b.first, b.no + 1), Inserted(l, j, a), h)
  {
    hide Hash; hide LinkIn; hide NodeOk; hide SortedBySize; hide FitsAt;
    forall i | 0 <= i < |Inserted(l, j, a)| ensures NodeOk(LinkIn(hdr, l, j, a, h), Inserted(l, j, a), i, h) {
      LinkInNode(hdr, l, j, a, h, i);
    }
    if h > OPTIMIZE / ROUNDTO {
      LinkInSorted(hdr, l, j, a, h);
    }
  }

  // ---------- linking out ----------

  ghost function LinkOut(hdr: Headers, l: seq<int>, j: nat): Headers
    requires j < |l|
  {
    var pf := Hd(hdr, l[j]).prev;
    var h1 := if j > 0 then hdr[l[j - 1] := Hd(hdr, l[j - 1]).(nxt := At(l, j + 1))] else hdr;
    var h2 := if j + 1 < |l| then h1[l[j + 1] := Hd(h1, l[j + 1]).(prev := pf)] else h1;
    h2[l[j] := Hd(h2, l[j]).(prev := Null)]
  }

  ghost function Dropped(l: seq<int>, j: nat): seq<int>
    requires j < |l|
  {
    l[..j] + l[j + 1..]
  }

  /** What linking out leaves in the header at each position of the new list. */
  lemma LinkOutAt(hdr: Headers, l: seq<int>, j: nat, i: nat)
    requires NoRepeats(l) && j < |l| && i + 1 < |l|
    ensures var l' := Dropped(l, j); var was := Hd(hdr, l'[i]);
            Hd(LinkOut(hdr, l, j), l'[i]) ==
            if i == j then was.(prev := Hd(hdr, l[j]).prev) else if i + 1 == j then was.(nxt := At(l, j + 1)) else was
  {
    assert Dropped(l, j)[i] == if i < j then l[i] else l[i + 1];
  }

  lemma LinkOutNode(hdr: Headers, l: seq<int>, j: nat, h: nat, i: nat)
    requires NoRepeats(l) && j < |l| && i + 1 < |l|
    requires forall k | 0 <= k < |l| :: NodeOk(hdr, l, k, h)
    ensures NodeOk(LinkOut(hdr, l, j), Dropped(l, j), i, h)
  {
    hide Hash; hide LinkOut; hide NoRepeats;
    LinkOutAt(hdr, l, j, i);
    assert NodeOk(hdr, l, j, h);
    if i < j {
      assert NodeOk(hdr, l, i, h);
    } else {
      assert NodeOk(hdr, l, i + 1, h);
    }
  }

  lemma LinkOutSorted(hdr: Headers, l: seq<int>, j: nat)
    requires NoRepeats(l) && j < |l| && SortedBySize(hdr, l)
    ensures SortedBySize(LinkOut(hdr, l, j), Dropped(l, j))
  {
    hide LinkOut; hide NoRepeats;
    var l' := Dropped(l, j);
    forall i, k | 0 <= i < k < |l'| ensures Hd(LinkOut(hdr, l, j), l'[i]).size <= Hd(LinkOut(hdr, l, j), l'[k]).size {
      LinkOutAt(hdr, l, j, i);
      LinkOutAt(hdr, l, j, k);
    }
  }

  lemma LinkOutOk(hdr: Headers, b: Bucket, l: seq<int>, j: nat, h: nat)
    requires BucketOk(hdr, b, l, h) && j < |l|
    ensures BucketOk(LinkOut(hdr, l, j), Bucket(if j == 0 then At(l, 1) else b.first, b.no - 1), Dropped(l, j), h)
    ensures l[j] !in Dropped(l, j)
  {
    hide Hash; hide LinkOut; hide NodeOk; hide SortedBySize;
    forall i | 0 <= i < |Dropped(l, j)| ensures NodeOk(LinkOut(hdr, l, j), Dropped(l, j), i, h) {
      LinkOutNode(hdr, l, j, h, i);
    }
    if h > OPTIMIZE / ROUNDTO {
      LinkOutSorted(hdr, l, j);
    }
  }
}
