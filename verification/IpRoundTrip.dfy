/** Parsing a printed address gives it back, and the first two text forms of section 2.2 of RFC 4291 mean what they
    should. */
module IpRoundTrip {
  import opened IpText
  import opened IpAddr

  ghost predicate Plain(w: string, sep: char) {
    forall i | 0 <= i < |w| :: w[i] != sep
  }

  /** A word without separators extends the last piece. */
  lemma {:induction false} SplitWord(t: string, w: string, sep: char)
    requires Plain(w, sep)
    ensures var p := Split(t, sep); |p| > 0 && Split(t + w, sep) == p[..|p| - 1] + [p[|p| - 1] + w]
  {
    hide Split;
    SplitNotEmpty(t, sep);
    var p := Split(t, sep);
    if w == "" {
      assert t + w == t && p[|p| - 1] + w == p[|p| - 1];
      assert p == p[..|p| - 1] + [p[|p| - 1]];
    } else {
      var v, c := w[..|w| - 1], w[|w| - 1];
      SplitWord(t, v, sep);
      assert t + w == (t + v) + [c];
      SplitMore(t + v, c, sep);
      assert (p[|p| - 1] + v) + [c] == p[|p| - 1] + w;
    }
  }

  lemma SplitEmpty(sep: char)
    ensures Split("", sep) == [""]
  {
  }

  /** Words joined by separators. */
  ghost function Join(ws: seq<string>, sep: char): string {
    if ws == [] then "" else if |ws| == 1 then ws[0] else Join(ws[..|ws| - 1], sep) + [sep] + ws[|ws| - 1]
  }

  /** Splitting undoes joining. */
  lemma {:induction false} SplitJoin(ws: seq<string>, sep: char)
    requires ws != [] && forall i | 0 <= i < |ws| :: Plain(ws[i], sep)
    ensures Split(Join(ws, sep), sep) == ws
  {
    hide Split; hide Plain;
    if |ws| == 1 {
      SplitWord("", ws[0], sep);
      assert "" + ws[0] == ws[0];
      SplitEmpty(sep);
    } else {
      var v, w := ws[..|ws| - 1], ws[|ws| - 1];
      SplitJoin(v, sep);
      SplitMore(Join(v, sep), sep, sep);
      SplitWord(Join(v, sep) + [sep], w, sep);
      assert Join(ws, sep) == (Join(v, sep) + [sep]) + w;
      assert "" + w == w;
    }
  }

  // ---------- one group, one octet ----------

  lemma HexDigBack(x: int)
    requires 0 <= x < 16
    ensures HexValue(UPPER[x]) == x && UPPER[x] != ':'
  {
    DigitsPrinted(x);
    Hex2IIs(UPPER[x]);
  }

  lemma GroupMore(s: string, c: char)
    ensures Group(s + [c]) == (Group(s) * 16 + HexValue(c)) % 65536
  {
    assert (s + [c])[..|s + [c]| - 1] == s;
  }

  lemma Group1(x: int)
    requires 0 <= x < 16
    ensures Group([UPPER[x]]) == x
  {
    HexDigBack(x);
    GroupMore("", UPPER[x]);
    assert "" + [UPPER[x]] == [UPPER[x]];
  }

  lemma Group2(x: int, y: int)
    requires 0 <= x < 16 && 0 <= y < 16
    ensures Group([UPPER[x], UPPER[y]]) == x * 16 + y
  {
    Group1(x);
    HexDigBack(y);
    GroupMore([UPPER[x]], UPPER[y]);
    assert [UPPER[x]] + [UPPER[y]] == [UPPER[x], UPPER[y]];
  }

  lemma Group3(x: int, y: int, z: int)
    requires 0 <= x < 16 && 0 <= y < 16 && 0 <= z < 16
    ensures Group([UPPER[x], UPPER[y], UPPER[z]]) == x * 256 + y * 16 + z
  {
    Group2(x, y);
    HexDigBack(z);
    GroupMore([UPPER[x], UPPER[y]], UPPER[z]);
    assert [UPPER[x], UPPER[y]] + [UPPER[z]] == [UPPER[x], UPPER[y], UPPER[z]];
  }

  lemma Group4(x: int, y: int, z: int, u: int)
    requires 0 <= x < 16 && 0 <= y < 16 && 0 <= z < 16 && 0 <= u < 16
    ensures Group([UPPER[x], UPPER[y], UPPER[z], UPPER[u]]) == x * 4096 + y * 256 + z * 16 + u
  {
    Group3(x, y, z);
    HexDigBack(u);
    GroupMore([UPPER[x], UPPER[y], UPPER[z]], UPPER[u]);
    assert [UPPER[x], UPPER[y], UPPER[z]] + [UPPER[u]] == [UPPER[x], UPPER[y], UPPER[z], UPPER[u]];
  }

  lemma Nibbles(x: int)
    requires 0 <= x < 65536
    ensures 0 <= x / 4096 < 16 && x == x / 4096 * 4096 + x / 256 % 16 * 256 + x / 16 % 16 * 16 + x % 16
  {
  }

  lemma Hex4Back(x: int)
    requires 0 <= x < 65536
    ensures Group(Hex4(x)) == x && Plain(Hex4(x), ':') && Hex4(x) != "" && V6Chars(Hex4(x))
  {
    hide Group; hide HexValue;
    var a, b, c, d := x / 4096, x / 256 % 16, x / 16 % 16, x % 16;
    Nibbles(x);
    HexDigBack(a);
    HexDigBack(b);
    HexDigBack(c);
    HexDigBack(d);
    if a != 0 {
      Group4(a, b, c, d);
    } else if b != 0 {
      Group3(b, c, d);
    } else if c != 0 {
      Group2(c, d);
    } else {
      Group1(d);
    }
  }

  lemma Octet1(x: int)
    requires 0 <= x < 10
    ensures Octet([DECIMAL[x]]) == x
  {
    hide Octet; hide DecValue;
    DecDigBack(x);
    EmptyOctet();
    OctetNext("", DECIMAL[x]);
    assert "" + [DECIMAL[x]] == [DECIMAL[x]];
  }

  lemma Octet2(x: int, y: int)
    requires 0 <= x < 10 && 0 <= y < 10
    ensures Octet([DECIMAL[x], DECIMAL[y]]) == x * 10 + y
  {
    hide Octet; hide DecValue;
    DecDigBack(y);
    Octet1(x);
    OctetNext([DECIMAL[x]], DECIMAL[y]);
    assert [DECIMAL[x]] + [DECIMAL[y]] == [DECIMAL[x], DECIMAL[y]];
  }

  lemma Octet3(x: int, y: int, z: int)
    requires 0 <= x < 10 && 0 <= y < 10 && 0 <= z < 10 && x * 100 + y * 10 + z < 256
    ensures Octet([DECIMAL[x], DECIMAL[y], DECIMAL[z]]) == x * 100 + y * 10 + z
  {
    hide Octet; hide DecValue;
    DecDigBack(z);
    Octet2(x, y);
    OctetNext([DECIMAL[x], DECIMAL[y]], DECIMAL[z]);
    assert [DECIMAL[x], DECIMAL[y]] + [DECIMAL[z]] == [DECIMAL[x], DECIMAL[y], DECIMAL[z]];
  }

  lemma Decimals(x: int)
    requires 0 <= x < 256
    ensures 0 <= x / 100 < 10 && 0 <= x % 100 / 10 < 10 && x == x / 100 * 100 + x % 100 / 10 * 10 + x % 10
  {
  }

  lemma Dec3Back(x: int)
    requires 0 <= x < 256
    ensures Octet(Dec3(x)) == x && Plain(Dec3(x), '.') && V4Chars(Dec3(x))
  {
    hide Octet; hide DecValue;
    var a, b, c := x / 100, x % 100 / 10, x % 10;
    Decimals(x);
    DecDigBack(a);
    DecDigBack(b);
    DecDigBack(c);
    if a != 0 {
      Octet3(a, b, c);
    } else if b != 0 {
      Octet2(b, c);
    } else {
      Octet1(c);
    }
  }

  lemma DecDigBack(x: int)
    requires 0 <= x < 10
    ensures DecValue(DECIMAL[x]) == x && DECIMAL[x] != '.' && DecValue(DECIMAL[x]) >= 0
  {
    DigitsPrinted(x);
    DigitIs(DECIMAL[x]);
  }

  /** A printed number starts with a zero only if it is one. */
  lemma NoLeadingZero(x: int)
    requires 0 <= x < 65536
    ensures Hex4(x)[0] == '0' <==> Hex4(x) == "0"
    ensures x < 256 ==> (Dec3(x)[0] == '0' <==> Dec3(x) == "0")
  {
    assert UPPER[0] == DECIMAL[0] == '0';
    assert forall i | 0 < i < 16 :: UPPER[i] != '0';
    assert forall i | 0 < i < 10 :: DECIMAL[i] != '0';
  }

  // ---------- whole addresses ----------

  ghost function Hexes(g: seq<int>): seq<string>
    requires Words(g, 65536)
  {
    seq(|g|, i requires 0 <= i < |g| => Hex4(g[i]))
  }

  ghost function Decs(g: seq<int>): seq<string>
    requires Words(g, 256)
  {
    seq(|g|, i requires 0 <= i < |g| => Dec3(g[i]))
  }

  lemma {:induction false} HexPrefixJoins(g: seq<int>, r: nat)
    requires 0 < r <= |g| && Words(g, 65536)
    ensures HexPrefix(g, r) == Join(Hexes(g)[..r], ':') + ":"
  {
    hide Hex4;
    var h := Hexes(g);
    assert h[..r][..r - 1] == h[..r - 1];
    if r == 1 {
      assert "" + Hex4(g[0]) == Hex4(g[0]);
    } else {
      HexPrefixJoins(g, r - 1);
    }
  }

  lemma {:induction false} DecPrefixJoins(g: seq<int>, r: nat)
    requires 0 < r <= |g| && Words(g, 256)
    ensures DecPrefix(g, r) == Join(Decs(g)[..r], '.') + "."
  {
    hide Dec3;
    var h := Decs(g);
    assert h[..r][..r - 1] == h[..r - 1];
    if r == 1 {
      assert "" + Dec3(g[0]) == Dec3(g[0]);
    } else {
      DecPrefixJoins(g, r - 1);
    }
  }

  lemma {:induction false} JoinChars6(ws: seq<string>)
    requires forall i | 0 <= i < |ws| :: V6Chars(ws[i])
    ensures V6Chars(Join(ws, ':'))
  {
    if |ws| > 1 {
      JoinChars6(ws[..|ws| - 1]);
    }
  }

  lemma {:induction false} JoinChars4(ws: seq<string>)
    requires forall i | 0 <= i < |ws| :: V4Chars(ws[i])
    ensures V4Chars(Join(ws, '.'))
  {
    if |ws| > 1 {
      JoinChars4(ws[..|ws| - 1]);
    }
  }

  /** What `ip_addr2a` prints for an IPv6 address, `str2ip6` reads as that address. */
  lemma RoundTripV6(g: seq<int>)
    requires |g| == 8 && Words(g, 65536)
    ensures ParsesV6(PrintV6(g), g) && Unbracket(PrintV6(g)) == Some(PrintV6(g))
  {
    hide Hex4; hide Group; hide HexValue;
    var h := Hexes(g);
    HexPrefixJoins(g, 7);
    assert PrintV6(g) == Join(h, ':');
    forall i | 0 <= i < 8 ensures Group(h[i]) == g[i] && Plain(h[i], ':') && h[i] != "" && V6Chars(h[i]) {
      Hex4Back(g[i]);
    }
    SplitJoin(h, ':');
    JoinChars6(h);
    assert Groups(h) == g;
    FirstHex(PrintV6(g));
  }

  lemma FirstHex(s: string)
    requires V6Chars(s)
    ensures Unbracket(s) == Some(s)
  {
    if s != "" {
      HexRange(s[0]);
    }
  }

  /** Words are told apart by their groups. */
  lemma HostApart(a: seq<int>, b: seq<int>)
    requires Words(a, 65536) && Words(b, 65536) && Host(a) == Host(b)
    ensures a == b
  {
    hide Htons;
    HostIs(a);
    HostIs(b);
    forall i | 0 <= i < |a| ensures a[i] == b[i] {
      assert Host(a)[i] == Host(b)[i];
      HtonsTwice(a[i]);
      HtonsTwice(b[i]);
    }
  }

  /** The text before the first NUL. */
  method CString(buf: array<char>, ghost t: string) returns (s: string)
    requires |t| < buf.Length && buf[..|t| + 1] == t + ['\0'] && '\0' !in t
    ensures s == t
  {
    var n := 0;
    assert forall i | 0 <= i <= |t| :: buf[i] == buf[..|t| + 1][i];
    while buf[n] != '\0'
      invariant n <= |t|
      decreases |t| - n
    {
      n := n + 1;
    }
    assert buf[..n] == buf[..|t| + 1][..n];
    s := buf[..n];
  }

  /** Printed into the buffer by `ip_addr2a` and read again by `str2ip6`, an address has the same words in memory. */
  method PrintAndRead6(w: seq<int>) returns (ret: Opt<seq<int>>)
    requires |w| == 8 && Words(w, 65536)
    ensures ret == Some(w)
  {
    hide Htons; hide PrintV6; hide ParsesV6; hide Rejected; hide Words; hide Unbracket;
    var buf := new char[IP_ADDR_MAX_STR_SIZE](_ => ' ');
    HostWords(w);
    var g := Host(w);
    assert WellFormed(V6(w));
    var ok := IpAddr2A(V6(w), buf);
    RoundTripV6(g);
    NoNul6(PrintV6(g), g);
    var text := CString(buf, PrintV6(g));
    ret := Str2Ip6(text);
    if ret.None? {
      NotRejected(text, g);
    } else {
      ParsesOne(text, g, Host(ret.value));
      HostApart(w, ret.value);
    }
  }

  lemma NoNul6(s: string, g: seq<int>)
    requires ParsesV6(s, g)
    ensures '\0' !in s
  {
    hide HexValue; hide Split; hide Filled; hide Groups;
    forall i | 0 <= i < |s| ensures s[i] != '\0' {
      HexRange(s[i]);
    }
  }

  lemma NotRejected(s: string, g: seq<int>)
    requires ParsesV6(s, g)
    ensures !Rejected(s)
  {
  }

  /** The same for IPv4. */
  method PrintAndRead4(o: seq<int>) returns (ret: Opt<seq<int>>)
    requires |o| == 4 && Words(o, 256)
    ensures ret == Some(o)
  {
    hide PrintV4; hide ParseV4; hide Words;
    var buf := new char[IP_ADDR_MAX_STR_SIZE](_ => ' ');
    assert WellFormed(V4(o));
    var ok := IpAddr2A(V4(o), buf);
    RoundTripV4(o);
    NoNul4(PrintV4(o));
    var text := CString(buf, PrintV4(o));
    ret := Str2Ip(text);
  }

  lemma NoNul4(s: string)
    requires ParseV4(s).Some?
    ensures '\0' !in s
  {
    hide DecValue; hide Split; hide Octet;
    forall i | 0 <= i < |s| ensures s[i] != '\0' {
      DecRange(s[i]);
    }
  }

  /** What `ip_addr2a` prints for an IPv4 address, `str2ip` reads as that address. */
  lemma RoundTripV4(g: seq<int>)
    requires |g| == 4 && Words(g, 256)
    ensures ParseV4(PrintV4(g)) == Some(g)
  {
    hide Dec3; hide Octet;
    var h := Decs(g);
    DecPrefixJoins(g, 3);
    assert PrintV4(g) == Join(h, '.');
    forall i | 0 <= i < 4 ensures Octet(h[i]) == g[i] && Plain(h[i], '.') && V4Chars(h[i]) {
      Dec3Back(g[i]);
    }
    SplitJoin(h, '.');
    JoinChars4(h);
    assert g == [g[0], g[1], g[2], g[3]];
  }

  // ---------- the text forms of RFC 4291 ----------

  /** One to four hexadecimal digits. */
  ghost predicate HexWord(w: string) {
    1 <= |w| <= 4 && forall i | 0 <= i < |w| :: HexValue(w[i]) >= 0
  }

  /** The number of a group, without regard to any width. */
  ghost function Value(w: string): int {
    if w == "" then 0 else Value(w[..|w| - 1]) * 16 + HexValue(w[|w| - 1])
  }

  ghost function Values(ws: seq<string>): seq<int> {
    seq(|ws|, i requires 0 <= i < |ws| => Value(ws[i]))
  }

  lemma {:induction false} ValueBound(w: string)
    requires forall i | 0 <= i < |w| :: HexValue(w[i]) >= 0
    ensures 0 <= Value(w) && Group(w) == Value(w) % 65536
    ensures |w| == 1 ==> Value(w) < 16
    ensures |w| == 2 ==> Value(w) < 256
    ensures |w| == 3 ==> Value(w) < 4096
    ensures |w| == 4 ==> Value(w) < 65536
  {
    hide HexValue;
    if w != "" {
      HexRange(w[|w| - 1]);
      ValueBound(w[..|w| - 1]);
      ModStep(Value(w[..|w| - 1]), HexValue(w[|w| - 1]));
    }
  }

  lemma ModStep(v: int, h: int)
    ensures (v % 65536 * 16 + h) % 65536 == (v * 16 + h) % 65536
  {
    assert v * 16 + h == v % 65536 * 16 + h + 65536 * (v / 65536 * 16);
    ModAdd(v % 65536 * 16 + h, v / 65536 * 16);
  }

  lemma ModAdd(a: int, k: int)
    ensures (a + 65536 * k) % 65536 == a % 65536
  {
  }

  ghost predicate HexWords(ws: seq<string>) {
    forall i | 0 <= i < |ws| :: HexWord(ws[i])
  }

  lemma WordFacts(w: string)
    requires HexWord(w)
    ensures Group(w) == Value(w) && Plain(w, ':') && V6Chars(w) && w != ""
  {
    hide HexValue; hide Group; hide Value;
    forall i | 0 <= i < |w| ensures w[i] != ':' {
      HexRange(w[i]);
    }
    ValueBound(w);
  }

  lemma GroupsAreValues(ws: seq<string>)
    requires HexWords(ws)
    ensures Groups(ws) == Values(ws)
  {
    forall i | 0 <= i < |ws| ensures Group(ws[i]) == Value(ws[i]) {
      WordFacts(ws[i]);
    }
  }

  /** The first form: eight groups. */
  lemma FormOne(ws: seq<string>)
    requires HexWords(ws) && |ws| == 8
    ensures ParsesV6(Join(ws, ':'), Values(ws))
  {
    hide Group; hide Value; hide HexWord;
    forall i | 0 <= i < 8 ensures Plain(ws[i], ':') && V6Chars(ws[i]) && ws[i] != "" {
      WordFacts(ws[i]);
    }
    SplitJoin(ws, ':');
    JoinChars6(ws);
    GroupsAreValues(ws);
  }

  /** The pieces of the second form: groups, a gap, groups; an empty side leaves an empty piece of its own. */
  ghost function Pieces(left: seq<string>, right: seq<string>): seq<string> {
    (if left == [] then [""] else left) + [""] + (if right == [] then [""] else right)
  }

  /** The address of the second form. */
  ghost function Denoted(left: seq<string>, right: seq<string>): seq<int> {
    Values(left) + Zeros(8 - |left| - |right|) + Values(right)
  }

  /** The second form, "left::right" with at least one group in the gap: accepted with the value it denotes exactly if
      it has at most seven colons. With seven groups on one side and none on the other it has eight, and is refused
      although the form allows it. */
  lemma FormTwo(left: seq<string>, right: seq<string>)
    requires HexWords(left) && HexWords(right) && |left| + |right| <= 7
    ensures var t, p := Join(Pieces(left, right), ':'), Pieces(left, right);
            if |p| <= 8 then ParsesV6(t, Denoted(left, right)) else Rejected(t)
  {
    hide Group; hide Value; hide HexWord; hide Filled;
    var p := Pieces(left, right);
    var t := Join(p, ':');
    PiecesClean(left, right);
    SplitJoin(p, ':');
    JoinChars6(p);
    if |p| <= 8 {
      GapOfForm(left, right);
      FilledForm(left, right);
    }
  }

  lemma PiecesClean(left: seq<string>, right: seq<string>)
    requires HexWords(left) && HexWords(right)
    ensures var p := Pieces(left, right); forall i | 0 <= i < |p| :: Plain(p[i], ':') && V6Chars(p[i])
  {
    hide HexWord; hide HexValue; hide Group; hide Value;
    var p := Pieces(left, right);
    var n := if left == [] then 1 else |left|;
    forall i | 0 <= i < |p| ensures Plain(p[i], ':') && V6Chars(p[i]) {
      if i < n && left != [] {
        WordFacts(left[i]);
      } else if i > n && right != [] {
        WordFacts(right[i - n - 1]);
      }
    }
  }

  lemma GapOfForm(left: seq<string>, right: seq<string>)
    requires HexWords(left) && HexWords(right)
    ensures OnlyGap(Pieces(left, right), if left == [] then 1 else |left|)
  {
    hide HexWord; hide HexValue; hide Group; hide Value;
    var p := Pieces(left, right);
    var n := if left == [] then 1 else |left|;
    forall j | Gap(p, j) ensures j == n {
      if j < n {
        WordFacts(left[j]);
      } else if j > n {
        WordFacts(right[j - n - 1]);
      }
    }
  }

  lemma FilledForm(left: seq<string>, right: seq<string>)
    requires HexWords(left) && HexWords(right) && |left| + |right| <= 7 && |Pieces(left, right)| <= 8
    ensures Filled(Pieces(left, right), if left == [] then 1 else |left|) == Denoted(left, right)
  {
    hide HexWord; hide HexValue; hide Group; hide Value;
    var p := Pieces(left, right);
    var n := if left == [] then 1 else |left|;
    GroupsAreValues(left);
    GroupsAreValues(right);
    EmptyGroup();
    if right != [] {
      WordFacts(right[|right| - 1]);
    }
    assert Behind(p, n) == right;
    if left == [] {
      assert p[..1] == [""];
      assert Groups([""]) == [0];
      assert Zeros(8 - |right|) == [0] + Zeros(7 - |right|);
    } else {
      assert p[..n] == left;
    }
  }
}
