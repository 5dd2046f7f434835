/** Texts of IP addresses: what pieces they have, what a piece stands for, and which texts the parsers accept. */
module IpText {

  datatype Opt<T> = None | Some(value: T)

  /** The pieces between the separators. */
  ghost function Split(s: string, sep: char): seq<string> {
    if s == "" then [""]
    else
      var p := Split(s[..|s| - 1], sep);
      if s[|s| - 1] == sep then p + [""] else if p == [] then p else p[..|p| - 1] + [p[|p| - 1] + [s[|s| - 1]]]
  }

  lemma {:induction false} SplitNotEmpty(s: string, sep: char)
    ensures |Split(s, sep)| > 0
  {
    if s != "" {
      SplitNotEmpty(s[..|s| - 1], sep);
    }
  }

  /** One more character. */
  lemma SplitMore(s: string, c: char, sep: char)
    ensures |Split(s, sep)| > 0
    ensures var p := Split(s, sep);
            Split(s + [c], sep) == if c == sep then p + [""] else p[..|p| - 1] + [p[|p| - 1] + [c]]
  {
    SplitNotEmpty(s, sep);
    assert (s + [c])[..|s + [c]| - 1] == s;
  }

  // ---------- IPv4 ----------

  const DECIMAL := "0123456789"
  const UPPER := "0123456789ABCDEF"
  const LOWER := "0123456789abcdef"

  /** The place of a character in a string of different ones, or -1. */
  ghost function PlaceIn(s: string, c: char): int {
    if s == "" then -1 else if s[|s| - 1] == c then |s| - 1 else PlaceIn(s[..|s| - 1], c)
  }

  /** What a decimal digit stands for, or -1. */
  ghost function DecValue(c: char): int {
    PlaceIn(DECIMAL, c)
  }

  /** What a hexadecimal digit of either case stands for, or -1. */
  ghost function HexValue(c: char): int {
    if PlaceIn(UPPER, c) >= 0 then PlaceIn(UPPER, c) else PlaceIn(LOWER, c)
  }

  lemma {:induction false} PlaceIs(s: string, c: char)
    ensures -1 <= PlaceIn(s, c) < |s|
    ensures PlaceIn(s, c) >= 0 ==> s[PlaceIn(s, c)] == c
    ensures PlaceIn(s, c) < 0 ==> c !in s
  {
    if s != "" {
      PlaceIs(s[..|s| - 1], c);
    }
  }

  predicate IsDigit(c: char) { '0' <= c <= '9' }

  function Digit(c: char): int { c as int - '0' as int }

  /** The test of `str2ip` and its value are right for every character. */
  lemma DigitIs(c: char)
    ensures IsDigit(c) <==> DecValue(c) >= 0
    ensures IsDigit(c) ==> DecValue(c) == Digit(c)
  {
    PlaceIs(DECIMAL, c);
    assert forall i | 0 <= i < 10 :: DECIMAL[i] as int == '0' as int + i;
    if IsDigit(c) {
      assert DECIMAL[Digit(c)] == c;
    }
  }

  /** The number a piece stands for, one byte wide. */
  ghost function Octet(s: string): int {
    if s == "" then 0 else (Octet(s[..|s| - 1]) * 10 + DecValue(s[|s| - 1])) % 256
  }

  ghost predicate V4Chars(s: string) {
    forall i | 0 <= i < |s| :: s[i] == '.' || DecValue(s[i]) >= 0
  }

  /** Digits and exactly three dots; every piece, even an empty one, counts modulo 256. */
  ghost function ParseV4(s: string): Opt<seq<int>> {
    var p := Split(s, '.');
    if V4Chars(s) && |p| == 4 then Some([Octet(p[0]), Octet(p[1]), Octet(p[2]), Octet(p[3])]) else None
  }

  // ---------- IPv6 ----------

  /** `HEX2I`. */
  function Hex2I(c: char): int {
    if '0' <= c <= '9' then c as int - '0' as int
    else if 'A' <= c <= 'F' then c as int - 'A' as int + 10
    else if 'a' <= c <= 'f' then c as int - 'a' as int + 10
    else -1
  }

  /** `HEX2I` is right for every character. */
  lemma Hex2IIs(c: char)
    ensures Hex2I(c) == HexValue(c)
  {
    PlaceIs(UPPER, c);
    PlaceIs(LOWER, c);
    assert forall i | 0 <= i < 10 :: UPPER[i] == LOWER[i] == DECIMAL[i] && DECIMAL[i] as int == '0' as int + i;
    assert forall i | 10 <= i < 16 :: UPPER[i] as int == 'A' as int + i - 10 && LOWER[i] as int == 'a' as int + i - 10;
    if Hex2I(c) >= 0 {
      assert UPPER[Hex2I(c)] == c || LOWER[Hex2I(c)] == c;
    }
  }

  /** The number a piece stands for, one group wide. */
  ghost function Group(s: string): int {
    if s == "" then 0 else (Group(s[..|s| - 1]) * 16 + HexValue(s[|s| - 1])) % 65536
  }

  ghost function Groups(p: seq<string>): seq<int> {
    seq(|p|, i requires 0 <= i < |p| => Group(p[i]))
  }

  ghost predicate V6Chars(s: string) {
    forall i | 0 <= i < |s| :: s[i] == ':' || HexValue(s[i]) >= 0
  }

  ghost function Zeros(n: int): seq<int> {
    seq(if n > 0 then n else 0, i => 0)
  }

  /** Piece `j` is the gap of a "::". */
  ghost predicate Gap(p: seq<string>, j: int) {
    1 <= j < |p| - 1 && p[j] == ""
  }

  ghost predicate NoGap(p: seq<string>) {
    forall j :: !Gap(p, j)
  }

  ghost predicate OnlyGap(p: seq<string>, j: int) {
    Gap(p, j) && forall i :: Gap(p, i) ==> i == j
  }

  /** The pieces behind the gap; a last empty one does not count. */
  ghost function Behind(p: seq<string>, j: int): seq<string>
    requires 0 <= j < |p|
  {
    if p[|p| - 1] == "" then (if j + 1 < |p| then p[j + 1..|p| - 1] else []) else p[j + 1..]
  }

  /** The eight groups the pieces stand for: zeros fill the gap. */
  ghost function Filled(p: seq<string>, j: int): seq<int>
    requires 0 <= j < |p|
  {
    Groups(p[..j]) + Zeros(8 - j - |Behind(p, j)|) + Groups(Behind(p, j))
  }

  /** What `str2ip6` accepts between the brackets, and as what. */
  ghost predicate ParsesV6(s: string, g: seq<int>) {
    var p := Split(s, ':');
    V6Chars(s) && |p| <= 8
    && ((NoGap(p) && |p| == 8 && g == Groups(p)) || exists j :: OnlyGap(p, j) && g == Filled(p, j))
  }

  /** The text without its brackets; None if there is only an opening one. */
  ghost function Unbracket(s: string): Opt<string> {
    if s != "" && s[0] == '[' then (if s[|s| - 1] == ']' then Some(s[1..|s| - 1]) else None) else Some(s)
  }

  /** At most one gap, so at most one result. */
  lemma ParsesOne(s: string, g: seq<int>, h: seq<int>)
    requires ParsesV6(s, g) && ParsesV6(s, h)
    ensures g == h
  {
    var p := Split(s, ':');
    if NoGap(p) {
    } else {
      var i :| OnlyGap(p, i) && g == Filled(p, i);
      var j :| OnlyGap(p, j) && h == Filled(p, j);
    }
  }

  // ---------- bytes ----------

  /** `htons` and `ntohs` on a machine that stores the low byte first. */
  function Htons(x: int): int {
    x % 256 * 256 + x / 256 % 256
  }

  /** The bytes of the words, in the order in which such a machine has them in memory. */
  ghost function Memory(a: seq<int>): seq<int> {
    seq(2 * |a|, i requires 0 <= i < 2 * |a| => if i % 2 == 0 then a[i / 2] % 256 else a[i / 2] / 256 % 256)
  }

  /** The groups those bytes are in network order, high byte first. */
  ghost function Host(a: seq<int>): seq<int> {
    seq(|a|, i requires 0 <= i < |a| => Memory(a)[2 * i] * 256 + Memory(a)[2 * i + 1])
  }

  lemma HostIs(a: seq<int>)
    ensures |Host(a)| == |a| && forall i | 0 <= i < |a| :: Host(a)[i] == Htons(a[i])
  {
    forall i | 0 <= i < |a| ensures Host(a)[i] == Htons(a[i]) {
      assert Memory(a)[2 * i] == a[i] % 256;
      assert Memory(a)[2 * i + 1] == a[i] / 256 % 256;
    }
  }

  lemma HtonsTwice(x: int)
    requires 0 <= x < 65536
    ensures Htons(Htons(x)) == x && 0 <= Htons(x) < 65536
  {
  }

  lemma HexRange(c: char)
    ensures -1 <= HexValue(c) < 16
    ensures HexValue(c) >= 0 ==> c !in {':', '[', '\0'}
  {
    Hex2IIs(c);
  }

  lemma DecRange(c: char)
    ensures -1 <= DecValue(c) < 10
    ensures DecValue(c) >= 0 ==> c !in {'.', '\0'}
  {
    PlaceIs(DECIMAL, c);
    DigitIs(c);
  }

  lemma {:induction false} GroupRange(s: string)
    ensures 0 <= Group(s) < 65536
  {
  }

  // ---------- printed forms ----------

  /** `HEXDIG`. */
  function HexDig(x: int): char
    requires 0 <= x < 16
  {
    if x >= 10 then (x - 10 + 'A' as int) as char else (x + '0' as int) as char
  }

  function DecDig(x: int): char
    requires 0 <= x < 10
  {
    (x + '0' as int) as char
  }

  /** The characters printed are the digits. */
  lemma DigitsPrinted(x: int)
    requires 0 <= x < 16
    ensures HexDig(x) == UPPER[x] && (x < 10 ==> DecDig(x) == DECIMAL[x])
  {
    assert forall i | 0 <= i < 10 :: UPPER[i] == DECIMAL[i] && DECIMAL[i] as int == '0' as int + i;
    assert forall i | 10 <= i < 16 :: UPPER[i] as int == 'A' as int + i - 10;
  }

  /** A group in hexadecimal, without leading zeros. */
  function Hex4(x: int): string
    requires 0 <= x < 65536
  {
    var a, b, c, d := x / 4096, x / 256 % 16, x / 16 % 16, x % 16;
    if a != 0 then [UPPER[a], UPPER[b], UPPER[c], UPPER[d]]
    else if b != 0 then [UPPER[b], UPPER[c], UPPER[d]]
    else if c != 0 then [UPPER[c], UPPER[d]]
    else [UPPER[d]]
  }

  /** An octet in decimal, without leading zeros. */
  function Dec3(x: int): string
    requires 0 <= x < 256
  {
    var a, b, c := x / 100, x % 100 / 10, x % 10;
    if a != 0 then [DECIMAL[a], DECIMAL[b], DECIMAL[c]] else if b != 0 then [DECIMAL[b], DECIMAL[c]] else [DECIMAL[c]]
  }

  predicate Words(g: seq<int>, limit: int) {
    forall i | 0 <= i < |g| :: 0 <= g[i] < limit
  }

  /** The first `r` groups, each followed by ':'. */
  function HexPrefix(g: seq<int>, r: nat): string
    requires r <= |g| && Words(g, 65536)
  {
    if r == 0 then "" else HexPrefix(g, r - 1) + Hex4(g[r - 1]) + ":"
  }

  function PrintV6(g: seq<int>): string
    requires |g| == 8 && Words(g, 65536)
  {
    HexPrefix(g, 7) + Hex4(g[7])
  }

  function DecPrefix(g: seq<int>, r: nat): string
    requires r <= |g| && Words(g, 256)
  {
    if r == 0 then "" else DecPrefix(g, r - 1) + Dec3(g[r - 1]) + "."
  }

  function PrintV4(g: seq<int>): string
    requires |g| == 4 && Words(g, 256)
  {
    DecPrefix(g, 3) + Dec3(g[3])
  }
}
