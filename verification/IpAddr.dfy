/** `str2ip`, `str2ip6` and `ip_addr2a`. */
module IpAddr {
  import opened IpText

  // ---------- str2ip ----------

  /** The octets read so far. */
  ghost predicate V4Read(s: string, k: nat, addr: seq<int>, i: nat)
    requires k <= |s|
  {
    var p := Split(s[..k], '.');
    V4Chars(s[..k]) && |addr| == 4 && i < 4 && |p| == i + 1
    && (forall j | 0 <= j <= i :: addr[j] == Octet(p[j])) && forall j | i < j < 4 :: addr[j] == 0
  }

  lemma V4More(s: string, k: nat, addr: seq<int>, i: nat)
    requires k < |s| && V4Read(s, k, addr, i)
    ensures s[k] == '.' && i < 3 ==> V4Read(s, k + 1, addr, i + 1)
    ensures DecValue(s[k]) >= 0 ==> V4Read(s, k + 1, addr[i := (addr[i] * 10 + DecValue(s[k])) % 256], i)
    ensures s[k] == '.' ==> |Split(s[..k + 1], '.')| == i + 2
  {
    hide Split; hide Octet; hide DecValue;
    assert s[..k + 1] == s[..k] + [s[k]];
    SplitMore(s[..k], s[k], '.');
    if s[k] == '.' {
      EmptyOctet();
    } else {
      OctetNext(Split(s[..k], '.')[i], s[k]);
    }
    DotIsNoDigit(s[k]);
  }

  lemma EmptyOctet()
    ensures Octet("") == 0
  {
  }

  lemma DotIsNoDigit(c: char)
    ensures DecValue(c) >= 0 ==> c != '.'
  {
    DigitIs(c);
  }

  lemma OctetNext(t: string, c: char)
    ensures Octet(t + [c]) == (Octet(t) * 10 + DecValue(c)) % 256
  {
    assert (t + [c])[..|t + [c]| - 1] == t;
  }

  lemma {:induction false} PiecesGrow(s: string, k: nat, sep: char)
    requires k <= |s|
    ensures |Split(s[..k], sep)| <= |Split(s, sep)|
    decreases |s| - k
  {
    if k < |s| {
      assert s[..k + 1] == s[..k] + [s[k]];
      SplitMore(s[..k], s[k], sep);
      PiecesGrow(s, k + 1, sep);
    } else {
      assert s[..k] == s;
    }
  }

  lemma V4Start(s: string)
    ensures V4Read(s, 0, [0, 0, 0, 0], 0)
  {
    assert s[..0] == "";
  }

  lemma V4Rejects(s: string, k: nat)
    requires k < |s| && ((s[k] != '.' && DecValue(s[k]) < 0) || |Split(s[..k + 1], '.')| > 4)
    ensures ParseV4(s) == None
  {
    PiecesGrow(s, k + 1, '.');
  }

  lemma V4Done(s: string, addr: seq<int>, i: nat)
    requires V4Read(s, |s|, addr, i)
    ensures ParseV4(s) == if i == 3 then Some(addr) else None
  {
    assert s[..|s|] == s;
    assert addr == [addr[0], addr[1], addr[2], addr[3]];
  }

  lemma V4Bounds(s: string, k: nat, addr: seq<int>, i: nat)
    requires k <= |s| && V4Read(s, k, addr, i)
    ensures i < 4 == |addr|
  {
  }

  /** `str2ip`. */
  method Str2Ip(s: string) returns (ret: Opt<seq<int>>)
    ensures ret == ParseV4(s)
  {
    hide V4Read; hide ParseV4;
    var addr := new int[4](_ => 0);
    assert addr[..] == [0, 0, 0, 0];
    V4Start(s);
    var i, k := 0, 0;
    while k < |s|
      invariant k <= |s| && V4Read(s, k, addr[..], i)
    {
      V4Bounds(s, k, addr[..], i);
      V4More(s, k, addr[..], i);
      DigitIs(s[k]);
      if s[k] == '.' {
        i := i + 1;
        if i > 3 {
          V4Rejects(s, k);
          return None;
        }
      } else if IsDigit(s[k]) {
        addr[i] := (addr[i] * 10 + Digit(s[k])) % 256;
      } else {
        V4Rejects(s, k);
        return None;
      }
      k := k + 1;
    }
    V4Done(s, addr[..], i);
    V4Bounds(s, k, addr[..], i);
    if i < 3 {
      return None;
    }
    return Some(addr[..]);
  }

  // ---------- str2ip6 ----------

  /** `addr_start` and `addr_end` after the text `t`; `gap` is the piece of the "::" seen, or 0. */
  ghost predicate V6Read(t: string, first: seq<int>, last: seq<int>, i: nat, idx1: nat, colons: nat, dc: bool,
        inEnd: bool) {
    var p := Split(t, ':');
    V6Chars(t) && |first| == 8 && |last| == 8 && |p| == colons + 1 <= 8 && (dc <==> |p| > 1 && p[|p| - 1] == "")
    && if !inEnd then
         NoGap(p) && i == colons && idx1 == 0 && Stored(first, p, 0, i) && last == Zeros(8)
       else
         OnlyGap(p, idx1) && i + idx1 + 1 == colons && Kept(first, p, idx1) && Stored(last, p, idx1 + 1, i)
  }

  /** Groups `from..from + i` stand in `a` in network order, and group `from + i` as it is being read. */
  ghost predicate Stored(a: seq<int>, p: seq<string>, from: nat, i: nat) {
    i < |a| && from + i < |p|
    && (forall j | 0 <= j < i :: a[j] == Htons(Group(p[from + j]))) && a[i] == Group(p[from + i])
    && forall j | i < j < |a| :: a[j] == 0
  }

  /** The groups before the gap, and zeros. */
  ghost predicate Kept(a: seq<int>, p: seq<string>, n: nat) {
    n <= |a| && n <= |p| && (forall j | 0 <= j < n :: a[j] == Htons(Group(p[j]))) && forall j | n <= j < |a| ::
      a[j] == 0
  }

  lemma V6Start()
    ensures V6Read("", Zeros(8), Zeros(8), 0, 0, 0, false, false)
  {
  }

  lemma V6Bounds(t: string, first: seq<int>, last: seq<int>, i: nat, idx1: nat, colons: nat, dc: bool, inEnd: bool)
    requires V6Read(t, first, last, i, idx1, colons, dc, inEnd)
    ensures i < 8 == |first| == |last| && colons <= 7 && i + idx1 <= 7 && (inEnd ==> idx1 >= 1)
  {
  }

  lemma LastMore(p: seq<string>, c: char)
    requires |p| > 0 && HexValue(c) >= 0
    ensures var q := p[..|p| - 1] + [p[|p| - 1] + [c]];
            (NoGap(p) ==> NoGap(q)) && (forall j :: OnlyGap(p, j) ==> OnlyGap(q, j))
            && Group(q[|q| - 1]) == (Group(p[|p| - 1]) * 16 + HexValue(c)) % 65536 && q[|q| - 1] != ""
  {
    var q := p[..|p| - 1] + [p[|p| - 1] + [c]];
    assert forall j :: Gap(p, j) <==> Gap(q, j);
    var last := p[|p| - 1] + [c];
    assert last[..|last| - 1] == p[|p| - 1];
  }

  /** A hexadecimal digit extends the group being read. */
  lemma V6Hex(t: string, c: char, first: seq<int>, last: seq<int>, i: nat, idx1: nat, colons: nat, dc: bool,
        inEnd: bool)
    requires V6Read(t, first, last, i, idx1, colons, dc, inEnd) && HexValue(c) >= 0
    ensures i < |first| && i < |last|
    ensures !inEnd ==>
              V6Read(t + [c], first[i := (first[i] * 16 + HexValue(c)) % 65536], last, i, idx1, colons, false, inEnd)
    ensures inEnd ==>
              V6Read(t + [c], first, last[i := (last[i] * 16 + HexValue(c)) % 65536], i, idx1, colons, false, inEnd)
  {
    hide Group; hide Gap; hide Zeros; hide NoGap; hide OnlyGap; hide Split; hide HexValue;
    HexRange(c);
    SplitMore(t, c, ':');
    LastMore(Split(t, ':'), c);
  }

  lemma NoMoreGap(p: seq<string>)
    requires |p| > 0 && (|p| > 1 ==> p[|p| - 1] != "")
    ensures (NoGap(p) ==> NoGap(p + [""])) && (forall j :: OnlyGap(p, j) ==> OnlyGap(p + [""], j))
  {
    assert forall j :: Gap(p, j) <==> Gap(p + [""], j);
  }

  lemma NewGap(p: seq<string>)
    requires |p| > 1 && p[|p| - 1] == ""
    ensures Gap(p + [""], |p| - 1) && (NoGap(p) ==> OnlyGap(p + [""], |p| - 1))
            && (forall j :: Gap(p, j) ==> Gap(p + [""], j))
  {
    assert forall j :: j != |p| - 1 ==> (Gap(p, j) <==> Gap(p + [""], j));
  }

  /** A single ':' ends a group. */
  lemma V6Colon(t: string, first: seq<int>, last: seq<int>, i: nat, idx1: nat, colons: nat, inEnd: bool)
    requires V6Read(t, first, last, i, idx1, colons, false, inEnd) && colons < 7
    ensures i < |first| && i < |last|
    ensures !inEnd ==> V6Read(t + [':'], first[i := Htons(first[i])], last, i + 1, idx1, colons + 1, true, inEnd)
    ensures inEnd ==> V6Read(t + [':'], first, last[i := Htons(last[i])], i + 1, idx1, colons + 1, true, inEnd)
  {
    hide Gap; hide Zeros; hide NoGap; hide OnlyGap; hide Split; hide Htons;
    SplitMore(t, ':', ':');
    NoMoreGap(Split(t, ':'));
    GapBefore(Split(t, ':'));
  }

  lemma GapBefore(p: seq<string>)
    ensures forall j :: OnlyGap(p, j) ==> 1 <= j < |p| - 1
  {
  }

  /** The second ':' of a "::" opens the second buffer. */
  lemma V6Gap(t: string, first: seq<int>, last: seq<int>, i: nat, idx1: nat, colons: nat)
    requires V6Read(t, first, last, i, idx1, colons, true, false) && colons < 7
    ensures V6Read(t + [':'], first, last, 0, i, colons + 1, true, true)
  {
    hide Gap; hide NoGap; hide OnlyGap; hide Split;
    SplitMore(t, ':', ':');
    NewGap(Split(t, ':'));
  }

  // ---------- rejections ----------

  /** Pieces that have been closed stay as they are. */
  lemma {:induction false} PiecesStay(s: string, k: nat, sep: char)
    requires k <= |s|
    ensures var p, q := Split(s[..k], sep), Split(s, sep);
            0 < |p| <= |q| && forall j | 0 <= j < |p| - 1 :: q[j] == p[j]
    decreases |s| - k
  {
    SplitNotEmpty(s[..k], sep);
    if k < |s| {
      assert s[..k + 1] == s[..k] + [s[k]];
      SplitMore(s[..k], s[k], sep);
      PiecesStay(s, k + 1, sep);
    } else {
      assert s[..k] == s;
    }
  }

  ghost predicate Rejected(s: string) {
    forall g :: !ParsesV6(s, g)
  }

  lemma V6BadChar(s: string, k: nat)
    requires k < |s| && s[k] != ':' && HexValue(s[k]) < 0
    ensures Rejected(s)
  {
  }

  lemma V6TooMany(s: string, k: nat, first: seq<int>, last: seq<int>, i: nat, idx1: nat, dc: bool, inEnd: bool)
    requires k < |s| && V6Read(s[..k], first, last, i, idx1, 7, dc, inEnd) && s[k] == ':'
    ensures Rejected(s)
  {
    assert s[..k + 1] == s[..k] + [s[k]];
    SplitMore(s[..k], ':', ':');
    PiecesStay(s, k + 1, ':');
  }

  lemma V6TwoGaps(s: string, k: nat, first: seq<int>, last: seq<int>, i: nat, idx1: nat, colons: nat)
    requires k < |s| && V6Read(s[..k], first, last, i, idx1, colons, true, true) && s[k] == ':'
    ensures Rejected(s)
  {
    hide Split; hide Stored; hide Kept;
    var p, q := Split(s[..k], ':'), Split(s, ':');
    assert s[..k + 1] == s[..k] + [s[k]];
    SplitMore(s[..k], ':', ':');
    PiecesStay(s, k + 1, ':');
    NewGap(p);
    assert Gap(q, idx1) && Gap(q, |p| - 1);
  }

  // ---------- the end of the text ----------

  /** What the end of the text does to the buffer in use: the last group is closed unless the text ends in ':'. */
  ghost function Closed(a: seq<int>, i: nat, dc: bool): seq<int>
    requires i < |a|
  {
    if dc then a else a[i := Htons(a[i])]
  }

  lemma StoredHost(a: seq<int>, p: seq<string>, from: nat, i: nat, j: nat)
    requires Stored(a, p, from, i) && j <= i
    ensures j < i ==> Htons(a[j]) == Group(p[from + j])
    ensures Htons(Htons(a[i])) == Group(p[from + i])
    ensures 0 <= a[j] < 65536
  {
    GroupRange(p[from + j]);
    GroupRange(p[from + i]);
    HtonsTwice(Group(p[from + j]));
    HtonsTwice(Group(p[from + i]));
  }

  /** Without a gap it takes eight pieces. */
  lemma V6Plain(s: string, first: seq<int>, last: seq<int>, i: nat, idx1: nat, colons: nat, dc: bool)
    requires V6Read(s, first, last, i, idx1, colons, dc, false)
    ensures i < |first|
    ensures colons < 7 ==> Rejected(s)
    ensures colons == 7 ==> ParsesV6(s, Host(Closed(first, i, dc)))
  {
    hide Split; hide Group; hide Htons;
    var p := Split(s, ':');
    if colons == 7 {
      var a := Closed(first, i, dc);
      forall j | 0 <= j < 8 ensures Htons(a[j]) == Group(p[j]) {
        StoredHost(first, p, 0, i, j);
        if j == i && dc {
          EmptyGroup();
        }
      }
      HostIs(a);
      assert Host(a) == Groups(p);
    }
  }

  lemma EmptyGroup()
    ensures Group("") == 0 && Htons(0) == 0
  {
  }

  /** `memcpy(addr_start+idx1+rest, addr_end, i*sizeof(unsigned short))`. */
  ghost function Joined(first: seq<int>, last: seq<int>, n: nat, m: nat): seq<int>
    requires n <= |last| && m <= |first|
  {
    first[..m] + last[..n]
  }

  /** With a gap the two buffers and the zeros between them are the address. */
  lemma V6Filled(s: string, first: seq<int>, last: seq<int>, i: nat, idx1: nat, colons: nat, dc: bool)
    requires V6Read(s, first, last, i, idx1, colons, dc, true)
    ensures var n := if dc then i else i + 1;
            i < |last| && n + idx1 <= 7 && n <= 8
            && ParsesV6(s, Host(Joined(first, Closed(last, i, dc), n, 8 - n)))
  {
    hide Split; hide Group; hide Htons;
    var p := Split(s, ':');
    var n := if dc then i else i + 1;
    var a := Joined(first, Closed(last, i, dc), n, 8 - n);
    assert OnlyGap(p, idx1);
    assert |Behind(p, idx1)| == n;
    forall j | 0 <= j < 8 ensures Htons(a[j]) == Filled(p, idx1)[j] {
      FilledAt(p, first, last, i, idx1, dc, j);
    }
    HostIs(a);
    assert Host(a) == Filled(p, idx1);
  }

  lemma FilledAt(p: seq<string>, first: seq<int>, last: seq<int>, i: nat, idx1: nat, dc: bool, j: nat)
    requires |first| == 8 && |last| == 8 && 1 <= idx1 && idx1 + i + 2 == |p| <= 8 && Kept(first, p, idx1)
             && Stored(last, p, idx1 + 1, i) && j < 8
    requires dc <==> p[|p| - 1] == ""
    ensures var n := if dc then i else i + 1;
            |Behind(p, idx1)| == n && |Filled(p, idx1)| == 8
            && Htons(Joined(first, Closed(last, i, dc), n, 8 - n)[j]) == Filled(p, idx1)[j]
  {
    hide Group; hide Htons;
    var n := if dc then i else i + 1;
    var b := Behind(p, idx1);
    EmptyGroup();
    if j < idx1 {
      GroupRange(p[j]);
      HtonsTwice(Group(p[j]));
    } else if j >= 8 - n {
      var m := j - (8 - n);
      assert b[m] == p[idx1 + 1 + m];
      StoredHost(last, p, idx1 + 1, i, m);
    }
  }

  /** All that is ever stored fits a word. */
  lemma V6Words(t: string, first: seq<int>, last: seq<int>, i: nat, idx1: nat, colons: nat, dc: bool, inEnd: bool)
    requires V6Read(t, first, last, i, idx1, colons, dc, inEnd)
    ensures Words(first, 65536) && Words(last, 65536)
  {
    hide Gap; hide NoGap; hide OnlyGap; hide Split; hide Group; hide Htons;
    forall s: string ensures 0 <= Group(s) < 65536 && 0 <= Htons(Group(s)) < 65536 {
      GroupRange(s);
      HtonsTwice(Group(s));
    }
  }

  lemma ClosedWords(a: seq<int>, i: nat, dc: bool)
    requires i < |a| && Words(a, 65536)
    ensures Words(Closed(a, i, dc), 65536)
  {
    hide Htons;
    HtonsTwice(a[i]);
  }

  lemma JoinedWords(first: seq<int>, last: seq<int>, i: nat, dc: bool, n: nat, m: nat)
    requires i < |last| && n <= |last| && m <= |first| && Words(first, 65536) && Words(last, 65536)
    ensures Words(Joined(first, Closed(last, i, dc), n, m), 65536)
  {
    hide Htons;
    ClosedWords(last, i, dc);
  }

  /** The end of `str2ip6`, behind its loop. */
  method Finish6(addrStart: array<int>, addrEnd: array<int>, addr: array<int>, i0: nat, idx1: nat, noColons: nat,
        doubleColon: bool, ghost s: string)
    returns (ret: Opt<seq<int>>)
    requires addr in {addrStart, addrEnd} && addrStart != addrEnd
    requires V6Read(s, addrStart[..], addrEnd[..], i0, idx1, noColons, doubleColon, addr == addrEnd)
    modifies addrStart, addrEnd
    ensures ret.None? ==> Rejected(s)
    ensures ret.Some? ==> |ret.value| == 8 && Words(ret.value, 65536) && ParsesV6(s, Host(ret.value))
  {
    hide V6Read; hide ParsesV6; hide Rejected; hide Closed; hide Joined; hide Htons; hide Words;
    ghost var first, last := addrStart[..], addrEnd[..];
    V6Words(s, first, last, i0, idx1, noColons, doubleColon, addr == addrEnd);
    V6Bounds(s, first, last, i0, idx1, noColons, doubleColon, addr == addrEnd);
    var i := i0;
    if !doubleColon {
      addr[i] := Htons(addr[i]);
      i := i + 1;
    }
    if addr == addrEnd {
      V6Filled(s, first, last, i0, idx1, noColons, doubleColon);
      ClosedIs(addrEnd[..], last, i0, doubleColon);
      assert addrStart[..] == first;
      ghost var closed := addrEnd[..];
      var rest := 8 - i - idx1;
      assert rest >= 1;
      forall j | 0 <= j < i {
        addrStart[idx1 + rest + j] := addrEnd[j];
      }
      JoinedIs(addrStart[..], first, closed, i, 8 - i);
      assert addrStart[..] == Joined(first, Closed(last, i0, doubleColon), i, 8 - i);
      JoinedWords(first, last, i0, doubleColon, i, 8 - i);
    } else {
      V6Plain(s, first, last, i0, idx1, noColons, doubleColon);
      ClosedIs(addrStart[..], first, i0, doubleColon);
      ClosedWords(first, i0, doubleColon);
      if noColons < 7 {
        return None;
      }
    }
    return Some(addrStart[..]);
  }

  /** `str2ip6`: accepts exactly the texts that stand for eight groups, and returns those. The buffers are never
      indexed out of bounds, and at least one zero group fills a gap. */
  method Str2Ip6(st: string) returns (ret: Opt<seq<int>>)
    ensures Unbracket(st).None? ==> ret.None?
    ensures Unbracket(st).Some? && ret.None? ==> Rejected(Unbracket(st).value)
    ensures Unbracket(st).Some? && ret.Some? ==> |ret.value| == 8 && Words(ret.value, 65536)
                                                     && ParsesV6(Unbracket(st).value, Host(ret.value))
  {
    hide V6Read; hide ParsesV6; hide Rejected; hide Closed; hide Joined; hide Htons;
    var s := st;
    if st != "" && st[0] == '[' {
      if st[|st| - 1] != ']' {
        return None;
      }
      s := st[1..|st| - 1];
    }
    var addrStart, addrEnd := new int[8](_ => 0), new int[8](_ => 0);
    var addr := addrStart;
    var i, idx1, noColons := 0, 0, 0;
    var doubleColon := false;
    assert addrStart[..] == Zeros(8) && addrEnd[..] == Zeros(8) && s[..0] == "";
    V6Start();
    var k := 0;
    while k < |s|
      invariant k <= |s| && addr in {addrStart, addrEnd} && fresh(addrStart) && fresh(addrEnd) && addrStart != addrEnd
      invariant V6Read(s[..k], addrStart[..], addrEnd[..], i, idx1, noColons, doubleColon, addr == addrEnd)
    {
      ghost var first, last := addrStart[..], addrEnd[..];
      V6Bounds(s[..k], first, last, i, idx1, noColons, doubleColon, addr == addrEnd);
      assert s[..k + 1] == s[..k] + [s[k]];
      var hex := Hex2I(s[k]);
      Hex2IIs(s[k]);
      if s[k] == ':' {
        if noColons + 1 > 7 {
          V6TooMany(s, k, first, last, i, idx1, doubleColon, addr == addrEnd);
          return None;
        }
        if doubleColon {
          if addr == addrEnd {
            V6TwoGaps(s, k, first, last, i, idx1, noColons);
            return None;
          }
          V6Gap(s[..k], first, last, i, idx1, noColons);
          idx1 := i;
          i := 0;
          addr := addrEnd;
        } else {
          V6Colon(s[..k], first, last, i, idx1, noColons, addr == addrEnd);
          doubleColon := true;
          addr[i] := Htons(addr[i]);
          i := i + 1;
        }
        noColons := noColons + 1;
      } else if hex >= 0 {
        V6Hex(s[..k], s[k], first, last, i, idx1, noColons, doubleColon, addr == addrEnd);
        addr[i] := (addr[i] * 16 + hex) % 65536;
        doubleColon := false;
      } else {
        V6BadChar(s, k);
        return None;
      }
      assert addr == addrStart ==> addrEnd[..] == last;
      assert addr == addrEnd ==> addrStart[..] == first;
      k := k + 1;
    }
    assert s[..k] == s;
    ret := Finish6(addrStart, addrEnd, addr, i, idx1, noColons, doubleColon, s);
  }

  lemma ClosedIs(b: seq<int>, a: seq<int>, i: nat, dc: bool)
    requires i < |a| && b == if dc then a else a[i := Htons(a[i])]
    ensures b == Closed(a, i, dc)
  {
  }

  lemma JoinedIs(b: seq<int>, first: seq<int>, last: seq<int>, n: nat, m: nat)
    requires n <= |last| && m + n == |first| == |b| && (forall j | 0 <= j < m :: b[j] == first[j])
             && forall j | 0 <= j < n :: b[m + j] == last[j]
    ensures b == Joined(first, last, n, m)
  {
  }

  // ---------- ip_addr2a ----------

  const IP_ADDR_MAX_STR_SIZE: nat := 40

  /** One group and the character behind it. */
  method PutHex(buf: array<char>, offset: nat, hex4: int, end: char) returns (next: nat)
    requires 0 <= hex4 < 65536 && offset + 5 <= buf.Length
    modifies buf
    ensures next == offset + |Hex4(hex4)| + 1 <= offset + 5 && buf[..next] == old(buf[..offset]) + Hex4(hex4) + [end]
  {
    hide HexDig;
    var a, b, c, d := hex4 / 4096, hex4 / 256 % 16, hex4 / 16 % 16, hex4 % 16;
    DigitsPrinted(a);
    DigitsPrinted(b);
    DigitsPrinted(c);
    DigitsPrinted(d);
    ghost var before := buf[..offset];
    if a != 0 {
      buf[offset], buf[offset + 1], buf[offset + 2], buf[offset + 3] := HexDig(a), HexDig(b), HexDig(c), HexDig(d);
      buf[offset + 4] := end;
      next := offset + 5;
    } else if b != 0 {
      buf[offset], buf[offset + 1], buf[offset + 2] := HexDig(b), HexDig(c), HexDig(d);
      buf[offset + 3] := end;
      next := offset + 4;
    } else if c != 0 {
      buf[offset], buf[offset + 1] := HexDig(c), HexDig(d);
      buf[offset + 2] := end;
      next := offset + 3;
    } else {
      buf[offset] := HexDig(d);
      buf[offset + 1] := end;
      next := offset + 2;
    }
  }

  /** One octet and the character behind it. */
  method PutDec(buf: array<char>, offset: nat, octet: int, end: char) returns (next: nat)
    requires 0 <= octet < 256 && offset + 4 <= buf.Length
    modifies buf
    ensures next == offset + |Dec3(octet)| + 1 <= offset + 4 && buf[..next] == old(buf[..offset]) + Dec3(octet) + [end]
  {
    hide DecDig;
    var a, c, b := octet / 100, octet % 10, octet % 100 / 10;
    DigitsPrinted(a);
    DigitsPrinted(b);
    DigitsPrinted(c);
    if a != 0 {
      buf[offset], buf[offset + 1], buf[offset + 2] := DecDig(a), DecDig(b), DecDig(c);
      buf[offset + 3] := end;
      next := offset + 4;
    } else if b != 0 {
      buf[offset], buf[offset + 1] := DecDig(b), DecDig(c);
      buf[offset + 2] := end;
      next := offset + 3;
    } else {
      buf[offset] := DecDig(c);
      buf[offset + 1] := end;
      next := offset + 2;
    }
  }

  /** `struct ip_addr`: the words of an IPv6 address as they are in memory, the bytes of an IPv4 address, or another
      family. */
  datatype Ip = V4(octets: seq<int>) | V6(words: seq<int>) | Other

  ghost predicate WellFormed(ip: Ip) {
    match ip
    case V4(o) => |o| == 4 && Words(o, 256)
    case V6(w) => |w| == 8 && Words(w, 65536)
    case Other => true
  }

  lemma HostWords(w: seq<int>)
    requires Words(w, 65536)
    ensures Words(Host(w), 65536) && |Host(w)| == |w| && forall i | 0 <= i < |w| :: Host(w)[i] == Htons(w[i])
  {
    HostIs(w);
  }

  /** The text of an address. */
  ghost function Printed(ip: Ip): string
    requires WellFormed(ip) && !ip.Other?
  {
    match ip
    case V4(o) => PrintV4(o)
    case V6(w) => HostWords(w); PrintV6(Host(w))
  }

  /** `ip_addr2a`: the text and its final NUL fit the buffer. */
  method IpAddr2A(ip: Ip, buf: array<char>) returns (ok: bool)
    requires WellFormed(ip) && buf.Length == IP_ADDR_MAX_STR_SIZE
    modifies buf
    ensures ok <==> !ip.Other?
    ensures ok ==> |Printed(ip)| < buf.Length && buf[..|Printed(ip)| + 1] == Printed(ip) + ['\0']
  {
    hide Hex4; hide Dec3; hide Htons; hide Words;
    var offset := 0;
    match ip
    case V6(w) =>
      HostWords(w);
      ghost var g := Host(w);
      WordsAt(w, 65536);
      WordsAt(g, 65536);
      var r := 0;
      while r < 7
        invariant r <= 7 && offset <= 5 * r && offset == |HexPrefix(g, r)| && buf[..offset] == HexPrefix(g, r)
      {
        offset := PutHex(buf, offset, Htons(w[r]), ':');
        assert HexPrefix(g, r) + Hex4(g[r]) + [':'] == HexPrefix(g, r + 1);
        r := r + 1;
      }
      offset := PutHex(buf, offset, Htons(w[r]), '\0');
      ok := true;
    case V4(o) =>
      WordsAt(o, 256);
      var r := 0;
      while r < 3
        invariant r <= 3 && offset <= 4 * r && offset == |DecPrefix(o, r)| && buf[..offset] == DecPrefix(o, r)
      {
        offset := PutDec(buf, offset, o[r], '.');
        assert DecPrefix(o, r) + Dec3(o[r]) + ['.'] == DecPrefix(o, r + 1);
        r := r + 1;
      }
      offset := PutDec(buf, offset, o[r], '\0');
      ok := true;
    case Other =>
      ok := false;
  }

  lemma WordsAt(g: seq<int>, limit: int)
    requires Words(g, limit)
    ensures forall i | 0 <= i < |g| :: 0 <= g[i] < limit
  {
  }
}
