/** Whatever `parse_uri` accepts as a SIP or SIPS URI, the slices it returns reassemble to the text it was given. */
module SipUriLayout {
  import opened SipUri

  // ---------- what the slices say about the text ----------

  ghost predicate Is(buf: string, i: int, c: char) {
    0 <= i < |buf| && buf[i] == c
  }

  /** User, password and '@' fill `[base, e)`, or there are none and `e` is `base`. */
  ghost predicate UserPart(buf: string, base: int, u: Uri, e: int) {
    if u.user.s == NIL then u.passwd.s == NIL && e == base
    else
      u.user.s == base && u.user.len >= 0
      && var ue := base + u.user.len;
         if u.passwd.s == NIL then Is(buf, ue, '@') && e == ue + 1
         else Is(buf, ue, ':') && u.passwd.s == ue + 1 && u.passwd.len >= 0
              && Is(buf, u.passwd.s + u.passwd.len, '@') && e == u.passwd.s + u.passwd.len + 1
  }

  ghost predicate HostPart(buf: string, base: int, u: Uri, e: int) {
    UserPart(buf, base, u, u.host.s) && u.host.s >= base && u.host.len >= 0 && e == u.host.s + u.host.len
  }

  ghost predicate PortPart(buf: string, base: int, u: Uri, e: int) {
    if u.port.s == NIL then HostPart(buf, base, u, e)
    else
      HostPart(buf, base, u, u.port.s - 1) && Is(buf, u.port.s - 1, ':') && u.port.len >= 0
      && e == u.port.s + u.port.len
         && e <= |buf| && Digits(buf, u.port.s, e)
  }

  ghost predicate ParamsPart(buf: string, base: int, u: Uri, e: int) {
    if u.params.s == NIL then PortPart(buf, base, u, e)
    else
      PortPart(buf, base, u, u.params.s - 1) && Is(buf, u.params.s - 1, ';') && u.params.len >= 0
      && e == u.params.s + u.params.len
  }

  ghost predicate HeadersPart(buf: string, base: int, u: Uri, e: int) {
    if u.headers.s == NIL then ParamsPart(buf, base, u, e)
    else
      ParamsPart(buf, base, u, u.headers.s - 1) && Is(buf, u.headers.s - 1, '?') && u.headers.len >= 0
      && e == u.headers.s + u.headers.len
  }

  // ---------- the port number ----------

  ghost predicate Digits(buf: string, a: int, e: int) {
    forall i | a <= i < e && 0 <= i < |buf| :: IsDigit(buf[i])
  }

  /** The number a string of decimal digits stands for. */
  ghost function Dec(s: string): int {
    if s == "" then 0 else Dec(s[..|s| - 1]) * 10 + Digit(s[|s| - 1])
  }

  ghost function Cut(buf: string, a: int, e: int): string {
    if 0 <= a <= e <= |buf| then buf[a..e] else ""
  }

  ghost function Text(buf: string, f: Field): string {
    Cut(buf, f.s, f.s + f.len)
  }

  ghost function Find(buf: string, a: nat, c: char): nat
    ensures Find(buf, a, c) >= a
    decreases |buf| - a
  {
    if a >= |buf| || buf[a] == c then a else Find(buf, a + 1, c)
  }

  ghost function DigitsEnd(buf: string, a: nat): nat
    ensures DigitsEnd(buf, a) >= a && (a <= |buf| ==> DigitsEnd(buf, a) <= |buf|)
    decreases |buf| - a
  {
    if a < |buf| && IsDigit(buf[a]) then DigitsEnd(buf, a + 1) else a
  }

  /** The digits that follow "]:" when the text after the scheme starts with a bracketed address. */
  ghost function BracketPort(buf: string, base: nat): string {
    if !Is(buf, base, '[') then ""
    else var j := Find(buf, base + 1, ']'); if Is(buf, j + 1, ':') then Cut(buf, j + 2, DigitsEnd(buf, j + 2)) else ""
  }

  /** The digits already counted when the port proper begins: none without a user part, otherwise those of
      `BracketPort`. */
  ghost function Stale(buf: string, base: nat, u: Uri): string {
    if u.user.s == NIL then "" else BracketPort(buf, base)
  }

  /** All the digits counted for the port. */
  ghost function CountedDigits(buf: string, base: nat, u: Uri): string {
    if u.port.s == NIL then Stale(buf, base, u) else Stale(buf, base, u) + Text(buf, u.port)
  }

  ghost predicate PortNoIs(buf: string, base: nat, u: Uri) {
    u.portNo == if u.port.s == NIL then 0 else Dec(CountedDigits(buf, base, u)) % 65536
  }

  // ---------- the invariant of the loop ----------

  ghost predicate NoHeaders(u: Uri) { u.headers == UNSET }
  ghost predicate NoParams(u: Uri) { u.params == UNSET && NoHeaders(u) }
  ghost predicate NoPort(u: Uri) { u.port == UNSET && u.portNo == 0 && NoParams(u) }
  ghost predicate NoHost(u: Uri) { u.host == UNSET && NoPort(u) }
  ghost predicate NoUser(u: Uri) { u.user == UNSET && u.passwd == UNSET }

  ghost predicate NoneIn(buf: string, a: int, e: int, c: char) {
    forall i | a <= i < e && 0 <= i < |buf| :: buf[i] != c
  }

  /** `[base, e)` is a bracketed address. */
  ghost predicate Bracketed(buf: string, base: nat, e: int) {
    Is(buf, base, '[') && base + 1 < e && Is(buf, e - 1, ']') && NoneIn(buf, base + 1, e - 1, ']')
  }

  /** A host found before any '@' may still turn out to be the user. */
  ghost predicate Tentative(buf: string, base: nat, v: Vars) {
    var u := v.uri;
    !v.foundUser ==> NoUser(u) && u.host.s == base && u.host.len >= 0
                     && (Is(buf, base, '[') ==> Bracketed(buf, base, base + u.host.len))
                     && (u.port.s != NIL ==> Is(buf, base, '['))
  }

  /** A password candidate starts behind a ':' that has been read. */
  ghost predicate PassOk(buf: string, base: nat, v: Vars, p: int) {
    v.pass != NIL && !v.foundUser ==>
      base <= v.pass < p && Is(buf, v.pass, ':') && v.uri.host.s + v.uri.host.len <= v.pass
  }

  ghost predicate Counted(buf: string, base: nat, v: Vars) {
    PortNoIs(buf, base, v.uri) && v.portNo == Dec(CountedDigits(buf, base, v.uri))
  }

  /** Nothing has been found yet. */
  ghost predicate Untouched(v: Vars) {
    NoUser(v.uri) && NoHost(v.uri) && !v.foundUser && v.pass == NIL && v.portNo == 0
  }

  /** A user candidate and its ':' have been read. */
  ghost predicate GoodPassword(buf: string, base: nat, v: Vars, p: nat) {
    var u := v.uri;
    u.user.s == base && u.user.len >= 0 && u.passwd == UNSET && NoHost(u) && !v.foundUser && v.pass == NIL
    && !Is(buf, base, '[')
    && Is(buf, base + u.user.len, ':') && v.s == base + u.user.len + 1 <= p
    && if v.state == URI_PASSWORD then Digits(buf, v.s, p) && v.portNo == Dec(Cut(buf, v.s, p)) else v.portNo == 0
  }

  ghost predicate GoodHost(buf: string, base: nat, v: Vars, p: nat) {
    UserPart(buf, base, v.uri, v.s) && NoHost(v.uri) && base <= v.s <= p && v.portNo == Dec(Stale(buf, base, v.uri))
    && (v.state == URI_HOST ==> v.s == p) && (v.state != URI_HOST ==> v.s < p)
    && (v.state in {URI_HOST, URI_HOST_P} ==> v.foundUser)
    && (!v.foundUser ==> NoUser(v.uri) && v.pass == NIL && v.s == base && Is(buf, base, '[')
                         && if v.state == URI_HOST6_P then NoneIn(buf, base + 1, p, ']') else Bracketed(buf, base, p))
  }

  ghost predicate GoodPort(buf: string, base: nat, v: Vars, p: nat) {
    var u := v.uri;
    HostPart(buf, base, u, v.s - 1) && Is(buf, v.s - 1, ':') && v.s <= p && NoPort(u) && Digits(buf, v.s, p)
    && v.portNo == Dec(Stale(buf, base, u) + Cut(buf, v.s, p))
    && Tentative(buf, base, v) && (!v.foundUser ==> v.pass == NIL && Is(buf, base, '['))
  }

  ghost predicate GoodLead(buf: string, base: nat, v: Vars, p: nat) {
    match v.state
    case URI_INIT => p == base == v.s && Untouched(v)
    case URI_USER => base == v.s < p && Untouched(v) && !Is(buf, base, '[')
    case URI_PASSWORD | URI_PASSWORD_ALPHA => GoodPassword(buf, base, v, p)
    case URI_HOST | URI_HOST_P | URI_HOST6_P | URI_HOST6_END => GoodHost(buf, base, v, p)
    case URI_PORT => GoodPort(buf, base, v, p)
    case _ => false
  }

  ghost predicate GoodParam(buf: string, base: nat, v: Vars, p: nat) {
    PortPart(buf, base, v.uri, v.s - 1) && Is(buf, v.s - 1, ';') && v.s <= p && NoParams(v.uri)
    && Counted(buf, base, v) && Tentative(buf, base, v) && PassOk(buf, base, v, p)
  }

  ghost predicate GoodHeaders(buf: string, base: nat, v: Vars, p: nat) {
    ParamsPart(buf, base, v.uri, v.s - 1) && Is(buf, v.s - 1, '?') && v.s <= p && NoHeaders(v.uri)
    && Counted(buf, base, v) && Tentative(buf, base, v) && PassOk(buf, base, v, p)
  }

  ghost predicate Good(buf: string, base: nat, v: Vars, p: nat) {
    base <= p <= |buf|
    && match KindOf(v.state)
       case Lead => GoodLead(buf, base, v, p)
       case Headers => GoodHeaders(buf, base, v, p)
       case _ => GoodParam(buf, base, v, p)
  }

  // ---------- numbers ----------

  lemma DecMore(s: string, c: char)
    ensures Dec(s + [c]) == Dec(s) * 10 + Digit(c)
  {
    assert (s + [c])[..|s|] == s;
  }

  lemma CutMore(buf: string, pre: string, a: int, p: int)
    requires 0 <= a <= p < |buf|
    ensures Dec(pre + Cut(buf, a, p + 1)) == Dec(pre + Cut(buf, a, p)) * 10 + Digit(buf[p])
  {
    assert pre + Cut(buf, a, p + 1) == (pre + Cut(buf, a, p)) + [buf[p]];
    DecMore(pre + Cut(buf, a, p), buf[p]);
  }

  lemma {:induction false} FindIs(buf: string, a: nat, c: char, j: nat)
    requires a <= j < |buf| && buf[j] == c && forall i | a <= i < j :: buf[i] != c
    ensures Find(buf, a, c) == j
    decreases j - a
  {
    if a < j {
      FindIs(buf, a + 1, c, j);
    }
  }

  lemma {:induction false} DigitsEndIs(buf: string, a: nat, e: nat)
    requires a <= e < |buf| && Digits(buf, a, e) && !IsDigit(buf[e])
    ensures DigitsEnd(buf, a) == e
    decreases e - a
  {
    if a < e {
      DigitsEndIs(buf, a + 1, e);
    }
  }

  /** When a host turns out to be the user, the digits counted so far are those behind its bracket. */
  lemma StaleAt(buf: string, base: nat, v: Vars, e: int)
    requires Tentative(buf, base, v) && !v.foundUser && PortPart(buf, base, v.uri, e) && Counted(buf, base, v)
    requires Is(buf, e, ';') || Is(buf, e, '?')
    ensures v.portNo == Dec(BracketPort(buf, base))
  {
    hide Dec; hide Digits; hide Find; hide DigitsEnd; hide Cut; hide NoneIn;
    var u := v.uri;
    var h := base + u.host.len;
    if Is(buf, base, '[') {
      BracketIs(buf, base, h);
      if u.port.s != NIL {
        DigitsRun(buf, u.port.s, e);
        assert "" + Text(buf, u.port) == Text(buf, u.port);
      }
    }
  }

  lemma BracketIs(buf: string, base: nat, h: int)
    requires Bracketed(buf, base, h)
    ensures Find(buf, base + 1, ']') == h - 1
  {
    FindIs(buf, base + 1, ']', h - 1);
  }

  lemma DigitsRun(buf: string, a: int, e: int)
    requires 0 <= a <= e && Digits(buf, a, e) && (Is(buf, e, ';') || Is(buf, e, '?'))
    ensures DigitsEnd(buf, a) == e
  {
    DigitsEndIs(buf, a, e);
  }

  // ---------- one turn keeps the invariant ----------

  lemma AtKeeps(buf: string, base: nat, v: Vars, p: nat, e: int)
    requires base <= p < |buf| && buf[p] == '@' && !v.foundUser && Tentative(buf, base, v) && PassOk(buf, base, v, p)
    requires PortPart(buf, base, v.uri, e) && Counted(buf, base, v) && (Is(buf, e, ';') || Is(buf, e, '?')) && e < p
    ensures var w := StillAtUser(v, p).value; w.state == URI_HOST && GoodHost(buf, base, w, p + 1)
  {
    hide BracketPort; hide Dec; hide Digits; hide Bracketed; hide Cut; hide Counted; hide PortPart; hide UserPart;
    hide Tentative; hide PassOk; hide StillAtUser;
    StaleAt(buf, base, v, e);
    AtUser(buf, base, v, p);
  }

  lemma AtUser(buf: string, base: nat, v: Vars, p: nat)
    requires base <= p < |buf| && buf[p] == '@' && !v.foundUser && Tentative(buf, base, v) && PassOk(buf, base, v, p)
    ensures StillAtUser(v, p).Ok?
    ensures var w := StillAtUser(v, p).value;
            UserPart(buf, base, w.uri, p + 1) && w.uri.user.s == base && NoHost(w.uri) && w.foundUser && w.s == p + 1
            && w.state == URI_HOST && w.portNo == v.portNo
  {
    hide Bracketed;
  }

  lemma DigitsMore(buf: string, pre: string, a: int, p: nat)
    requires 0 <= a <= p < |buf| && Digits(buf, a, p) && IsDigit(buf[p])
    ensures Digits(buf, a, p + 1)
    ensures Dec(pre + Cut(buf, a, p + 1)) == Dec(pre + Cut(buf, a, p)) * 10 + Digit(buf[p])
    ensures Dec(Cut(buf, a, p + 1)) == Dec(Cut(buf, a, p)) * 10 + Digit(buf[p])
  {
    CutMore(buf, pre, a, p);
    CutMore(buf, "", a, p);
    assert "" + Cut(buf, a, p) == Cut(buf, a, p) && "" + Cut(buf, a, p + 1) == Cut(buf, a, p + 1);
  }

  lemma Empty(buf: string, pre: string, a: nat)
    requires a <= |buf|
    ensures pre + Cut(buf, a, a) == pre && Cut(buf, a, a) == "" && Dec("") == 0 && Digits(buf, a, a)
  {
  }

  lemma LeadKeeps(buf: string, base: nat, v: Vars, p: nat, w: Vars)
    requires base <= p < |buf| && KindOf(v.state) == Lead && GoodLead(buf, base, v, p)
             && LeadStep(v, buf[p], p) == Ok(w)
    ensures Good(buf, base, w, p + 1)
  {
    hide Dec; hide Digits; hide BracketPort; hide NoneIn;
    hide GoodPassword; hide GoodPort; hide GoodHost; hide GoodParam; hide GoodHeaders; hide LeadStep;
    match v.state
    case URI_INIT => InitKeeps(buf, base, v, p, w);
    case URI_USER => UserKeeps(buf, base, v, p, w);
    case URI_PASSWORD => PasswordKeeps(buf, base, v, p, w);
    case URI_PASSWORD_ALPHA => PasswordKeeps(buf, base, v, p, w);
    case URI_HOST => InHostKeeps(buf, base, v, p, w);
    case URI_HOST6_P => InHostKeeps(buf, base, v, p, w);
    case URI_HOST_P => if Special(buf[p]) { HostKeeps(buf, base, v, p, w); } else { InHostKeeps(buf, base, v, p, w); }
    case URI_HOST6_END => HostKeeps(buf, base, v, p, w);
    case URI_PORT => PortKeeps(buf, base, v, p, w);
    case _ =>
  }

  lemma InitKeeps(buf: string, base: nat, v: Vars, p: nat, w: Vars)
    requires base <= p < |buf| && v.state == URI_INIT && GoodLead(buf, base, v, p) && LeadStep(v, buf[p], p) == Ok(w)
    ensures Good(buf, base, w, p + 1)
  {
    hide BracketPort;
    Empty(buf, "", p);
  }

  lemma UserKeeps(buf: string, base: nat, v: Vars, p: nat, w: Vars)
    requires base <= p < |buf| && v.state == URI_USER && GoodLead(buf, base, v, p) && LeadStep(v, buf[p], p) == Ok(w)
    ensures Good(buf, base, w, p + 1)
  {
    hide GoodParam; hide GoodHeaders; hide GoodHost; hide GoodPassword; hide Dec; hide Digits; hide BracketPort;
    hide HostReady;
    if buf[p] == '@' {
      UserAt(buf, base, v, p);
    } else if buf[p] == ':' {
      UserColon(buf, base, v, p);
    } else if buf[p] == ';' || buf[p] == '?' {
      UserReady(buf, base, v, p);
      AfterHost(buf, base, v, p, w);
    }
  }

  lemma UserAt(buf: string, base: nat, v: Vars, p: nat)
    requires base <= p < |buf| && base == v.s < p && Untouched(v) && !Is(buf, base, '[') && buf[p] == '@'
    ensures GoodHost(buf, base, v.(state := URI_HOST, foundUser := true, s := p + 1,
              uri := v.uri.(user := FromTo(v.s, p))), p + 1)
  {
    Empty(buf, "", p);
  }

  lemma UserColon(buf: string, base: nat, v: Vars, p: nat)
    requires base <= p < |buf| && base == v.s < p && Untouched(v) && !Is(buf, base, '[') && buf[p] == ':'
    ensures GoodPassword(buf, base, v.(state := URI_PASSWORD, s := p + 1, uri := v.uri.(user := FromTo(v.s, p))), p + 1)
  {
    Empty(buf, "", p + 1);
  }

  lemma UserReady(buf: string, base: nat, v: Vars, p: nat)
    requires base == v.s < p && Untouched(v) && !Is(buf, base, '[')
    ensures HostReady(buf, base, v, p)
  {
  }

  /** `[v.s, p)` is a host, or what may still turn out to be a user. */
  ghost predicate HostReady(buf: string, base: nat, v: Vars, p: nat) {
    UserPart(buf, base, v.uri, v.s) && NoHost(v.uri) && base <= v.s < p && v.portNo == Dec(Stale(buf, base, v.uri))
    && (!v.foundUser ==>
          NoUser(v.uri) && v.pass == NIL && v.s == base && (Is(buf, base, '[') ==> Bracketed(buf, base, p)))
  }

  /** The character behind a host opens port, parameters or headers. */
  lemma AfterHost(buf: string, base: nat, v: Vars, p: nat, w: Vars)
    requires HostReady(buf, base, v, p) && p < |buf| && w.uri == v.uri.(host := FromTo(v.s, p)) && w.s == p + 1
    requires w.portNo == v.portNo && w.pass == v.pass && w.foundUser == v.foundUser
    requires w.state in {URI_PORT, URI_PARAM, URI_HEADERS}
             && (w.state == URI_PORT && !v.foundUser ==> Is(buf, base, '['))
    requires buf[p] == if w.state == URI_PORT then ':' else if w.state == URI_PARAM then ';' else '?'
    ensures Good(buf, base, w, p + 1)
  {
    hide Dec; hide Digits; hide BracketPort; hide NoneIn; hide Bracketed; hide GoodHost; hide GoodPassword;
    hide UserPart; hide HostReady;
    HostIs(buf, base, v, p, w);
    if w.state == URI_PORT {
      Empty(buf, Stale(buf, base, w.uri), p + 1);
    }
  }

  lemma HostIs(buf: string, base: nat, v: Vars, p: nat, w: Vars)
    requires HostReady(buf, base, v, p) && w.uri == v.uri.(host := FromTo(v.s, p))
    requires w.portNo == v.portNo && w.pass == v.pass && w.foundUser == v.foundUser
    ensures HostPart(buf, base, w.uri, p) && NoPort(w.uri) && base <= p && Tentative(buf, base, w)
            && PassOk(buf, base, w, p + 1)
    ensures CountedDigits(buf, base, w.uri) == Stale(buf, base, w.uri) && w.portNo == Dec(Stale(buf, base, w.uri))
    ensures !v.foundUser ==> v.pass == NIL
  {
    hide Dec; hide Digits; hide BracketPort; hide NoneIn; hide Bracketed;
  }

  lemma PasswordKeeps(buf: string, base: nat, v: Vars, p: nat, w: Vars)
    requires base <= p < |buf| && v.state in {URI_PASSWORD, URI_PASSWORD_ALPHA} && GoodPassword(buf, base, v, p)
             && LeadStep(v, buf[p], p) == Ok(w)
    ensures Good(buf, base, w, p + 1)
  {
    hide GoodParam; hide GoodHeaders; hide GoodHost; hide GoodPassword; hide Dec; hide Digits; hide BracketPort;
    hide UserIsHost;
    AlphaZero(buf, base, v, p);
    if buf[p] == '@' {
      PasswordAt(buf, base, v, p, w);
    } else if buf[p] == ';' {
      UserIsHostKeeps(buf, base, v, p, URI_PARAM);
    } else if buf[p] == '?' {
      UserIsHostKeeps(buf, base, v, p, URI_HEADERS);
    } else {
      PasswordOn(buf, base, v, p, w);
    }
  }

  lemma AlphaZero(buf: string, base: nat, v: Vars, p: nat)
    requires GoodPassword(buf, base, v, p)
    ensures v.state == URI_PASSWORD || v.portNo == 0
  {
  }

  lemma PasswordAt(buf: string, base: nat, v: Vars, p: nat, w: Vars)
    requires base <= p < |buf| && GoodPassword(buf, base, v, p) && buf[p] == '@'
    requires w == v.(state := URI_HOST, portNo := 0, foundUser := true, s := p + 1,
               uri := v.uri.(passwd := FromTo(v.s, p)))
    ensures GoodHost(buf, base, w, p + 1)
  {
    hide Digits; hide Dec; hide Cut; hide BracketPort; hide Bracketed; hide NoneIn;
    Empty(buf, "", p);
    NoStale(buf, base, w.uri);
  }

  lemma NoStale(buf: string, base: nat, u: Uri)
    requires !Is(buf, base, '[')
    ensures Stale(buf, base, u) == "" && Dec("") == 0
  {
  }

  lemma PasswordOn(buf: string, base: nat, v: Vars, p: nat, w: Vars)
    requires base <= p < |buf| && GoodPassword(buf, base, v, p) && w == v.(state := w.state, portNo := w.portNo)
    requires if v.state == URI_PASSWORD && IsDigit(buf[p]) then w == v.(portNo := v.portNo * 10 + Digit(buf[p]))
             else w.state == URI_PASSWORD_ALPHA && w.portNo == 0
    ensures GoodPassword(buf, base, w, p + 1)
  {
    hide Digits; hide Dec; hide Cut;
    if w.state == URI_PASSWORD {
      DigitsMore(buf, "", v.s, p);
    }
  }

  lemma UserIsHostKeeps(buf: string, base: nat, v: Vars, p: nat, next: State)
    requires base <= p < |buf| && v.state == URI_PASSWORD && GoodPassword(buf, base, v, p)
    requires buf[p] == (if next == URI_PARAM then ';' else '?') && next in {URI_PARAM, URI_HEADERS}
    ensures Good(buf, base, UserIsHost(v, p, next), p + 1)
  {
    hide Dec; hide Digits; hide NoneIn; hide BracketPort;
    assert "" + Cut(buf, v.s, p) == Cut(buf, v.s, p);
  }

  /** Inside a host. */
  lemma InHostKeeps(buf: string, base: nat, v: Vars, p: nat, w: Vars)
    requires base <= p < |buf| && v.state in {URI_HOST, URI_HOST_P, URI_HOST6_P}
             && !(v.state == URI_HOST_P && Special(buf[p]))
    requires GoodHost(buf, base, v, p) && LeadStep(v, buf[p], p) == Ok(w)
    ensures Good(buf, base, w, p + 1)
  {
    hide Dec; hide Digits; hide BracketPort; hide UserPart; hide GoodParam; hide GoodHeaders; hide GoodPort;
    hide GoodPassword;
  }

  /** At the end of a host. */
  lemma HostKeeps(buf: string, base: nat, v: Vars, p: nat, w: Vars)
    requires base <= p < |buf| && v.state in {URI_HOST_P, URI_HOST6_END}
             && (Special(buf[p]) || v.state == URI_HOST6_END)
    requires GoodHost(buf, base, v, p) && LeadStep(v, buf[p], p) == Ok(w)
    ensures Good(buf, base, w, p + 1)
  {
    hide GoodParam; hide GoodHeaders; hide GoodHost; hide GoodPort; hide GoodPassword; hide Dec; hide Digits;
    hide BracketPort; hide HostReady; hide Good;
    EndReady(buf, base, v, p);
    AfterHost(buf, base, v, p, w);
  }

  lemma EndReady(buf: string, base: nat, v: Vars, p: nat)
    requires v.state in {URI_HOST_P, URI_HOST6_END} && GoodHost(buf, base, v, p)
    ensures HostReady(buf, base, v, p) && (!v.foundUser ==> Is(buf, base, '['))
  {
    hide Dec; hide BracketPort; hide UserPart;
  }

  lemma PortKeeps(buf: string, base: nat, v: Vars, p: nat, w: Vars)
    requires base <= p < |buf| && v.state == URI_PORT && GoodPort(buf, base, v, p) && LeadStep(v, buf[p], p) == Ok(w)
    ensures Good(buf, base, w, p + 1)
  {
    hide Dec; hide Digits; hide BracketPort; hide HostPart; hide GoodHost; hide GoodPassword; hide GoodPort; hide Cut;
    hide Counted; hide Tentative; hide PortPart; hide PassOk;
    if IsDigit(buf[p]) {
      hide GoodParam; hide GoodHeaders;
      PortDigit(buf, base, v, p);
    } else {
      PortIs(buf, base, v, p, w);
    }
  }

  lemma PortDigit(buf: string, base: nat, v: Vars, p: nat)
    requires base <= p < |buf| && GoodPort(buf, base, v, p) && IsDigit(buf[p])
    ensures GoodPort(buf, base, v.(portNo := v.portNo * 10 + Digit(buf[p])), p + 1)
  {
    hide Dec; hide Digits; hide BracketPort; hide HostPart; hide Cut; hide Bracketed;
    DigitsMore(buf, Stale(buf, base, v.uri), v.s, p);
  }

  lemma PortIs(buf: string, base: nat, v: Vars, p: nat, w: Vars)
    requires base <= p < |buf| && v.state == URI_PORT && GoodPort(buf, base, v, p) && LeadStep(v, buf[p], p) == Ok(w)
             && !IsDigit(buf[p])
    ensures PortPart(buf, base, w.uri, p) && NoParams(w.uri) && Tentative(buf, base, w) && PassOk(buf, base, w, p + 1)
    ensures w.s == p + 1 && Counted(buf, base, w)
            && (if w.state == URI_PARAM then buf[p] == ';' else w.state == URI_HEADERS && buf[p] == '?')
  {
    hide Dec; hide Digits; hide BracketPort; hide Bracketed; hide Cut;
  }

  // ---------- the parameter states ----------

  /** The fields the layout is about are the same. */
  ghost predicate SameLayout(a: Uri, b: Uri) {
    a.user == b.user && a.passwd == b.passwd && a.host == b.host && a.port == b.port && a.params == b.params
    && a.headers == b.headers
    && a.portNo == b.portNo && a.ty == b.ty
  }

  /** State, notes about parameters and the parameter slices do not matter to the layout. */
  lemma ParamOnly(buf: string, base: nat, v: Vars, w: Vars, p: nat)
    requires SameLayout(v.uri, w.uri) && w.s == v.s && w.portNo == v.portNo && w.foundUser == v.foundUser
             && w.pass == v.pass
    ensures GoodParam(buf, base, v, p) ==> GoodParam(buf, base, w, p)
    ensures GoodHeaders(buf, base, v, p) ==> GoodHeaders(buf, base, w, p)
  {
    hide Dec; hide Digits; hide BracketPort; hide Bracketed; hide Cut;
  }

  lemma ParamOneMore(buf: string, base: nat, v: Vars, p: nat)
    requires p < |buf|
    ensures GoodParam(buf, base, v, p) ==> GoodParam(buf, base, v, p + 1)
    ensures GoodHeaders(buf, base, v, p) ==> GoodHeaders(buf, base, v, p + 1)
  {
    hide Counted; hide Tentative; hide PortPart;
  }

  lemma PassKept(buf: string, base: nat, v: Vars, p: nat)
    ensures GoodParam(buf, base, v, p) ==> GoodParam(buf, base, DropPass(v), p)
    ensures GoodHeaders(buf, base, v, p) ==> GoodHeaders(buf, base, DropPass(v), p)
  {
    hide Dec; hide Digits; hide BracketPort; hide Bracketed; hide Cut; hide PortPart;
  }

  lemma QuestionKeeps(buf: string, base: nat, v: Vars, p: nat)
    requires base <= p < |buf| && buf[p] == '?' && GoodParam(buf, base, v, p)
    ensures GoodHeaders(buf, base, Question(v, p), p + 1)
  {
    hide Dec; hide Digits; hide BracketPort; hide Bracketed; hide Cut;
  }

  lemma ColonKeeps(buf: string, base: nat, v: Vars, p: nat)
    requires base <= p < |buf| && buf[p] == ':'
    ensures GoodParam(buf, base, v, p) ==> GoodParam(buf, base, Colon(v, p), p + 1)
    ensures GoodHeaders(buf, base, v, p) ==> GoodHeaders(buf, base, Colon(v, p), p + 1)
  {
    hide Dec; hide Digits; hide BracketPort; hide Bracketed; hide Cut;
  }

  lemma AtCommon(buf: string, base: nat, v: Vars, p: nat, w: Vars)
    requires base <= p < |buf| && GoodParam(buf, base, v, p) && buf[p] == '@' && StillAtUser(v, p) == Ok(w)
    ensures Good(buf, base, w, p + 1)
  {
    hide GoodParam; hide GoodHeaders; hide GoodHost; hide StillAtUser; hide Tentative; hide PassOk; hide Counted;
    hide PortPart;
    InParam(buf, base, v, p);
    AtIsOk(v, p);
    AtKeeps(buf, base, v, p, v.s - 1);
  }

  lemma CommonKeeps(buf: string, base: nat, v: Vars, p: nat, w: Vars)
    requires base <= p < |buf| && GoodParam(buf, base, v, p) && Special(buf[p]) && ParamCommon(v, buf[p], p) == Ok(w)
    ensures Good(buf, base, w, p + 1)
  {
    hide GoodParam; hide GoodHeaders; hide GoodHost; hide StillAtUser; hide Question; hide Semicolon; hide Colon;
    hide GoodPassword; hide GoodPort; hide Tentative; hide PassOk; hide Counted; hide PortPart; hide Dec; hide Digits;
    hide BracketPort; hide UserPart;
    if buf[p] == '@' {
      AtCommon(buf, base, v, p, w);
    } else if buf[p] == ';' {
      PassKept(buf, base, v, p);
      ToParam(v, w);
      ParamOnly(buf, base, DropPass(v), w, p);
      ParamOneMore(buf, base, w, p);
    } else if buf[p] == '?' {
      QuestionKeeps(buf, base, v, p);
      ToHeaders(v, p);
    } else {
      ColonKeeps(buf, base, v, p);
      ToPlain(v, p);
    }
  }

  lemma InParam(buf: string, base: nat, v: Vars, p: nat)
    requires GoodParam(buf, base, v, p)
    ensures Tentative(buf, base, v) && PassOk(buf, base, v, p) && Counted(buf, base, v)
            && PortPart(buf, base, v.uri, v.s - 1)
    ensures Is(buf, v.s - 1, ';') && v.s <= p && NoParams(v.uri)
  {
  }

  lemma AtIsOk(v: Vars, p: int)
    ensures StillAtUser(v, p).Ok? ==> !v.foundUser && StillAtUser(v, p).value.state == URI_HOST
  {
  }

  lemma ToParam(v: Vars, w: Vars)
    requires w == Semicolon(v)
    ensures w.state == URI_PARAM && w == DropPass(v).(state := URI_PARAM) && SameLayout(DropPass(v).uri, w.uri)
  {
  }

  lemma ToHeaders(v: Vars, p: int)
    ensures Question(v, p).state == URI_HEADERS
  {
  }

  lemma ToPlain(v: Vars, p: int)
    ensures Colon(v, p).state == URI_PARAM_P
  {
  }

  /** Two states of the parameter kinds, or the same state, with the same layout. */
  ghost predicate Alike(x: Vars, w: Vars) {
    SameLayout(x.uri, w.uri) && w.s == x.s && w.portNo == x.portNo && w.foundUser == x.foundUser && w.pass == x.pass
    && (w.state == x.state || (KindOf(x.state) !in {Lead, Headers} && KindOf(w.state) !in {Lead, Headers}))
  }

  lemma AlikeKeeps(buf: string, base: nat, x: Vars, w: Vars, p: nat)
    requires Good(buf, base, x, p) && Alike(x, w) && (KindOf(x.state) == Lead ==> w == x)
    ensures Good(buf, base, w, p)
  {
    hide GoodParam; hide GoodHeaders; hide GoodLead;
    ParamOnly(buf, base, x, w, p);
  }

  /** A value or a flag ends as any parameter does, but for what is recorded. */
  lemma EndsAlike(v: Vars, c: char, p: int, proto: int)
    requires Special(c)
    ensures ValueCommon(v, c, p, proto).Ok? ==> ParamCommon(v, c, p).Ok?
    ensures var x, w := ParamCommon(v, c, p), ValueCommon(v, c, p, proto);
            w.Ok? ==>
              (if c == '@' then w == x else Alike(x.value, w.value))
    ensures ValueCommon(v, c, p, proto).Ok? && c != '@' ==> KindOf(ParamCommon(v, c, p).value.state) != Lead
  {
    hide StillAtUser;
  }

  lemma FlagAlike(v: Vars, c: char, p: int)
    requires Special(c)
    ensures FlagStep(v, c, p).Ok? ==> ParamCommon(v, c, p).Ok?
    ensures var x, w := ParamCommon(v, c, p), FlagStep(v, c, p);
            w.Ok? ==>
              (if c == '@' then w == x else Alike(x.value, w.value))
    ensures FlagStep(v, c, p).Ok? && c != '@' ==> KindOf(ParamCommon(v, c, p).value.state) != Lead
  {
    hide StillAtUser;
  }

  lemma ValueKeeps(buf: string, base: nat, v: Vars, p: nat, w: Vars, proto: int)
    requires base <= p < |buf| && GoodParam(buf, base, v, p) && Special(buf[p])
             && ValueCommon(v, buf[p], p, proto) == Ok(w)
    ensures Good(buf, base, w, p + 1)
  {
    hide GoodParam; hide Good; hide ParamCommon; hide ValueCommon; hide Alike;
    EndsAlike(v, buf[p], p, proto);
    var x := ParamCommon(v, buf[p], p).value;
    CommonKeeps(buf, base, v, p, x);
    if buf[p] != '@' {
      AlikeKeeps(buf, base, x, w, p + 1);
    }
  }

  lemma FlagKeeps(buf: string, base: nat, v: Vars, p: nat, w: Vars)
    requires base <= p < |buf| && GoodParam(buf, base, v, p) && v.state in {PLR_R_FIN, PR2_2_FIN}
             && FlagStep(v, buf[p], p) == Ok(w)
    ensures Good(buf, base, w, p + 1)
  {
    hide GoodParam; hide GoodHeaders; hide ParamCommon; hide GoodLead;
    if Special(buf[p]) {
      hide Good; hide FlagStep; hide Alike;
      FlagAlike(v, buf[p], p);
      var x := ParamCommon(v, buf[p], p).value;
      CommonKeeps(buf, base, v, p, x);
      if buf[p] != '@' {
        AlikeKeeps(buf, base, x, w, p + 1);
      }
    } else {
      ParamOnly(buf, base, v, w, p);
      ParamOneMore(buf, base, w, p);
    }
  }

  lemma HeadersKeep(buf: string, base: nat, v: Vars, p: nat, w: Vars)
    requires base <= p < |buf| && GoodHeaders(buf, base, v, p) && v.state == URI_HEADERS
             && HeadersStep(v, buf[p], p) == Ok(w)
    ensures Good(buf, base, w, p + 1)
  {
    hide GoodParam; hide GoodHeaders; hide GoodHost; hide StillAtUser; hide DropPass; hide Colon;
    if buf[p] == '@' {
      AtIsOk(v, p);
      var e := InHeaders(buf, base, v, p);
      AtKeeps(buf, base, v, p, e);
    } else if buf[p] == ':' {
      ColonKeeps(buf, base, v, p);
      ParamOnly(buf, base, Colon(v, p), w, p + 1);
    } else if buf[p] == '?' {
      PassKept(buf, base, v, p);
      DropState(v);
      ParamOneMore(buf, base, w, p);
    } else {
      ParamOnly(buf, base, v, w, p);
      ParamOneMore(buf, base, w, p);
    }
  }

  lemma DropState(v: Vars)
    ensures DropPass(v).state == v.state
  {
  }

  lemma InHeaders(buf: string, base: nat, v: Vars, p: nat) returns (e: int)
    requires GoodHeaders(buf, base, v, p)
    ensures Tentative(buf, base, v) && PassOk(buf, base, v, p) && Counted(buf, base, v) && PortPart(buf, base, v.uri, e)
    ensures (Is(buf, e, ';') || Is(buf, e, '?')) && e < p
  {
    hide Counted; hide Tentative; hide PortPart;
    e := if v.uri.params.s == NIL then v.s - 1 else v.uri.params.s - 1;
  }

  /** One turn of the loop keeps the invariant. */
  lemma StepKeeps(buf: string, base: nat, v: Vars, p: nat, w: Vars)
    requires p < |buf| && Good(buf, base, v, p) && Step(v, buf[p], p) == Ok(w)
    ensures Good(buf, base, w, p + 1)
  {
    hide GoodParam; hide GoodHeaders; hide GoodLead; hide LeadStep; hide FlagStep; hide HeadersStep; hide ParamCommon;
    hide ValueCommon;
    match KindOf(v.state)
    case Lead => LeadKeeps(buf, base, v, p, w);
    case Headers => HeadersKeep(buf, base, v, p, w);
    case Flag => FlagKeeps(buf, base, v, p, w);
    case Val =>
      if Special(buf[p]) { ValueKeeps(buf, base, v, p, w, ProtoOf(v.state)); } else { OtherKeeps(buf, base, v, p, w); }
    case Eq =>
      var u := v.(param := To(EqParam(v.state)));
      ParamOnly(buf, base, v, u, p);
      if Special(buf[p]) { CommonKeeps(buf, base, u, p, w); } else { OtherKeeps(buf, base, v, p, w); }
    case _ =>
      if Special(buf[p]) { CommonKeeps(buf, base, v, p, w); } else { OtherKeeps(buf, base, v, p, w); }
  }

  lemma OtherKeeps(buf: string, base: nat, v: Vars, p: nat, w: Vars)
    requires base <= p < |buf| && GoodParam(buf, base, v, p) && Step(v, buf[p], p) == Ok(w)
    requires KindOf(v.state) in {Start, Plain, Name, Eq, Val} && !Special(buf[p])
    ensures Good(buf, base, w, p + 1)
  {
    hide GoodParam; hide GoodHeaders; hide GoodLead; hide StartNext; hide NameNext; hide EqNext; hide ValNext;
    hide EqParam; hide Marks;
    ParamOnly(buf, base, v, w, p);
    ParamOneMore(buf, base, w, p);
    StaysInParams(v, buf[p]);
  }

  /** The tables never leave the parameter states. */
  lemma StaysInParams(v: Vars, c: char)
    ensures KindOf(StartNext(c)) !in {Lead, Headers} && KindOf(NameNext(v.state, c)) !in {Lead, Headers}
    ensures KindOf(EqNext(v.state, c)) !in {Lead, Headers} && KindOf(ValNext(v.state, c)) !in {Lead, Headers}
  {
  }

  lemma {:induction false} ScanKeeps(buf: string, base: nat, v: Vars, p: nat, w: Vars)
    requires Good(buf, base, v, p) && Scan(buf, v, p) == Ok(w)
    ensures Good(buf, base, w, |buf|)
    decreases |buf| - p
  {
    hide Step; hide Good;
    PositionOk(buf, base, v, p);
    if p < |buf| {
      StepKeeps(buf, base, v, p, Step(v, buf[p], p).value);
      ScanKeeps(buf, base, Step(v, buf[p], p).value, p + 1, w);
    }
  }

  lemma PositionOk(buf: string, base: nat, v: Vars, p: nat)
    requires Good(buf, base, v, p)
    ensures base <= p <= |buf|
  {
  }

  // ---------- the result ----------

  /** The slices of `u` cover the text from `base` to the end, and the port number is that of the digits counted. */
  ghost predicate Covers(buf: string, base: nat, u: Uri) {
    HeadersPart(buf, base, u, |buf|) && PortNoIs(buf, base, u)
  }

  lemma FinishCovers(buf: string, base: nat, v: Vars, u: Uri)
    requires Good(buf, base, v, |buf|) && Finish(v, |buf|) == Ok(u)
    ensures Covers(buf, base, u) && u.ty == v.uri.ty
  {
    hide GoodParam; hide GoodHeaders; hide GoodLead; hide Covers;
    match KindOf(v.state)
    case Lead => FinishLead(buf, base, v, u);
    case Headers => FinishHeaders(buf, base, v, u);
    case _ => FinishParam(buf, base, v, u);
  }

  lemma FinishLead(buf: string, base: nat, v: Vars, u: Uri)
    requires base <= |buf| && KindOf(v.state) == Lead && GoodLead(buf, base, v, |buf|) && Finish(v, |buf|) == Ok(u)
    ensures Covers(buf, base, u) && u.ty == v.uri.ty
  {
    hide Dec; hide Digits; hide BracketPort; hide Bracketed; hide NoneIn; hide Tentative; hide Cut;
    assert "" + Cut(buf, v.s, |buf|) == Cut(buf, v.s, |buf|);
  }

  lemma FinishHeaders(buf: string, base: nat, v: Vars, u: Uri)
    requires base <= |buf| && v.state == URI_HEADERS && GoodHeaders(buf, base, v, |buf|) && Finish(v, |buf|) == Ok(u)
    ensures Covers(buf, base, u) && u.ty == v.uri.ty
  {
    hide Dec; hide Digits; hide BracketPort; hide Tentative; hide Cut; hide PassOk;
  }

  lemma FinishParam(buf: string, base: nat, v: Vars, u: Uri)
    requires base <= |buf| && KindOf(v.state) !in {Lead, Headers} && GoodParam(buf, base, v, |buf|)
             && Finish(v, |buf|) == Ok(u)
    ensures Covers(buf, base, u) && u.ty == v.uri.ty
  {
    hide Dec; hide Digits; hide BracketPort; hide Tentative; hide Cut; hide PassOk; hide GoodParam;
    FinishSame(v, |buf|, u);
    var w := v.(uri := u.(params := UNSET));
    InParam(buf, base, v, |buf|);
    ParamOnly(buf, base, v, w, |buf|);
    InParam(buf, base, w, |buf|);
  }

  lemma FinishSame(v: Vars, p: int, u: Uri)
    requires KindOf(v.state) !in {Lead, Headers} && Finish(v, p) == Ok(u)
    ensures SameLayout(u, v.uri.(params := FromTo(v.s, p)))
  {
    hide ProtoOf; hide FromTo; hide EqParam;
    if KindOf(v.state) == Val {
      SetSame(v, p);
    }
  }

  lemma SetSame(v: Vars, p: int)
    ensures SameLayout(SetProto(ParamSet(v, p), ProtoOf(v.state)).uri, v.uri)
  {
    hide ProtoOf;
  }

  /** The type of the URI is the one the scheme gave it. */
  lemma {:induction false} ScanType(buf: string, v: Vars, p: nat, w: Vars)
    requires p <= |buf| && Scan(buf, v, p) == Ok(w)
    ensures w.uri.ty == v.uri.ty
    decreases |buf| - p
  {
    hide Step;
    if p < |buf| {
      StepType(v, buf[p], p);
      ScanType(buf, Step(v, buf[p], p).value, p + 1, w);
    }
  }

  lemma StepType(v: Vars, c: char, p: int)
    ensures Step(v, c, p).Ok? ==> Step(v, c, p).value.uri.ty == v.uri.ty
  {
    hide NameNext; hide EqNext; hide ValNext; hide StartNext; hide Marks; hide EqParam; hide ProtoOf; hide LeadStep;
    hide FlagStep;
    hide HeadersStep; hide ParamCommon; hide ValueCommon;
    LeadType(v, c, p);
    FlagType(v, c, p);
    if Special(c) {
      CommonType(v, c, p);
      CommonType(v.(param := To(EqParam(v.state))), c, p);
    }
  }

  lemma LeadType(v: Vars, c: char, p: int)
    ensures LeadStep(v, c, p).Ok? ==> LeadStep(v, c, p).value.uri.ty == v.uri.ty
  {
  }

  lemma PiecesType(v: Vars, p: int)
    ensures StillAtUser(v, p).Ok? ==> StillAtUser(v, p).value.uri.ty == v.uri.ty
    ensures Semicolon(v).uri.ty == Question(v, p).uri.ty == Colon(v, p).uri.ty == DropPass(v).uri.ty == v.uri.ty
  {
  }

  lemma FlagType(v: Vars, c: char, p: int)
    ensures FlagStep(v, c, p).Ok? ==> FlagStep(v, c, p).value.uri.ty == v.uri.ty
    ensures HeadersStep(v, c, p).Ok? ==> HeadersStep(v, c, p).value.uri.ty == v.uri.ty
  {
    hide StillAtUser; hide Semicolon; hide Question; hide Colon; hide DropPass;
    PiecesType(v, p);
  }

  lemma CommonType(v: Vars, c: char, p: int)
    requires Special(c)
    ensures ParamCommon(v, c, p).Ok? ==> ParamCommon(v, c, p).value.uri.ty == v.uri.ty
    ensures ValueCommon(v, c, p, ProtoOf(v.state)).Ok? ==>
              ValueCommon(v, c, p, ProtoOf(v.state)).value.uri.ty == v.uri.ty
  {
    hide ProtoOf; hide StillAtUser; hide Semicolon; hide Question; hide Colon;
    PiecesType(v, p);
  }

  lemma StartGood(buf: string, base: nat, ty: UriType)
    requires base <= |buf|
    ensures Good(buf, base, Initial(ty, base), base)
  {
  }

  /** Any text accepted as a SIP or SIPS URI, `user=phone` apart, is covered by the slices. */
  lemma AcceptedCovers(buf: string, u: Uri)
    requires Parsed(buf) == Ok(u) && u.ty in {SipUri.SipUri, SipsUri}
    ensures Scheme(buf).Ok? && u.ty == Scheme(buf).value.0 && 4 <= Scheme(buf).value.1 <= |buf|
            && Covers(buf, Scheme(buf).value.1, u)
  {
    hide Scan; hide Finish; hide Good; hide Covers; hide PhoneFix;
    var (ty, base) := Scheme(buf).value;
    var v := Scan(buf, Initial(ty, base), base).value;
    StartGood(buf, base, ty);
    ScanKeeps(buf, base, Initial(ty, base), base, v);
    ScanType(buf, Initial(ty, base), base, v);
    FinishCovers(buf, base, v, Finish(v, |buf|).value);
    PhoneChanges(buf, Finish(v, |buf|).value);
  }

  lemma PhoneChanges(buf: string, u: Uri)
    ensures PhoneFix(buf, u, TelUri).ty == TelUri && PhoneFix(buf, u, TelsUri).ty == TelsUri
  {
  }

  // ---------- reassembly ----------

  ghost function Prefixed(buf: string, mark: string, f: Field): string {
    if f.s == NIL then "" else mark + Text(buf, f)
  }

  ghost function UserText(buf: string, u: Uri): string {
    if u.user.s == NIL then "" else Text(buf, u.user) + Prefixed(buf, ":", u.passwd) + "@"
  }

  /** `[user [":" passwd] "@"] host [":" port] [";" params] ["?" headers]`. */
  ghost function Reassembled(buf: string, u: Uri): string {
    UserText(buf, u) + Text(buf, u.host) + Prefixed(buf, ":", u.port) + Prefixed(buf, ";", u.params)
      + Prefixed(buf, "?", u.headers)
  }

  lemma Joined(buf: string, a: int, m: int, e: int)
    requires 0 <= a <= m <= e <= |buf|
    ensures Cut(buf, a, e) == Cut(buf, a, m) + Cut(buf, m, e)
  {
  }

  lemma Marked(buf: string, a: int, m: int, e: int, c: char)
    requires 0 <= a <= m < e <= |buf| && Is(buf, m, c)
    ensures Cut(buf, a, e) == Cut(buf, a, m) + ([c] + Cut(buf, m + 1, e))
  {
    assert buf[m..e] == [c] + buf[m + 1..e];
    Joined(buf, a, m, e);
  }

  lemma UserJoins(buf: string, base: nat, u: Uri, e: int)
    requires UserPart(buf, base, u, e) && base <= e <= |buf|
    ensures Cut(buf, base, e) == UserText(buf, u)
  {
    hide Cut;
    Nothing(buf);
    if u.user.s != NIL {
      var ue := base + u.user.len;
      Marked(buf, base, ue, e, buf[ue]);
      if u.passwd.s != NIL {
        Marked(buf, ue + 1, e - 1, e, '@');
        assert Text(buf, u.user) + (":" + (Text(buf, u.passwd) + "@")) == Text(buf, u.user)
                 + (":" + Text(buf, u.passwd)) + "@";
      } else {
        assert Text(buf, u.user) + "" + "@" == Text(buf, u.user) + "@";
      }
    }
  }

  lemma Nothing(buf: string)
    ensures forall a | 0 <= a <= |buf| :: Cut(buf, a, a) == ""
    ensures forall s: string, c: char :: s + ([c] + "") == s + [c]
  {
    forall s: string, c: char ensures s + ([c] + "") == s + [c] {
    }
  }

  lemma HostJoins(buf: string, base: nat, u: Uri, e: int)
    requires HostPart(buf, base, u, e) && e <= |buf|
    ensures Cut(buf, base, e) == UserText(buf, u) + Text(buf, u.host)
  {
    hide Cut; hide UserPart;
    UserJoins(buf, base, u, u.host.s);
    Joined(buf, base, u.host.s, e);
  }

  lemma PortJoins(buf: string, base: nat, u: Uri, e: int)
    requires PortPart(buf, base, u, e) && e <= |buf|
    ensures Cut(buf, base, e) == UserText(buf, u) + Text(buf, u.host) + Prefixed(buf, ":", u.port) && base <= e
  {
    hide Cut; hide UserPart; hide Digits; hide UserText;
    HostJoins(buf, base, u, if u.port.s == NIL then e else u.port.s - 1);
    if u.port.s != NIL {
      Marked(buf, base, u.port.s - 1, e, ':');
    }
  }

  lemma ParamsJoin(buf: string, base: nat, u: Uri, e: int)
    requires ParamsPart(buf, base, u, e) && e <= |buf|
    ensures Cut(buf, base, e) == UserText(buf, u) + Text(buf, u.host) + Prefixed(buf, ":", u.port)
              + Prefixed(buf, ";", u.params) && base <= e
  {
    hide Cut; hide PortPart; hide UserText;
    PortJoins(buf, base, u, if u.params.s == NIL then e else u.params.s - 1);
    if u.params.s != NIL {
      Marked(buf, base, u.params.s - 1, e, ';');
    }
  }

  /** The slices put together again, with the marks between them, are the text after the scheme. */
  lemma Reassembles(buf: string, u: Uri)
    requires Parsed(buf) == Ok(u) && u.ty in {SipUri.SipUri, SipsUri}
    ensures Scheme(buf).Ok? && 4 <= Scheme(buf).value.1 <= |buf|
    ensures var base := Scheme(buf).value.1; buf == buf[..base] + Reassembled(buf, u)
  {
    hide Cut; hide ParamsPart; hide Parsed; hide UserText;
    AcceptedCovers(buf, u);
    var base := Scheme(buf).value.1;
    var e := if u.headers.s == NIL then |buf| else u.headers.s - 1;
    ParamsJoin(buf, base, u, e);
    if u.headers.s != NIL {
      Marked(buf, base, e, |buf|, '?');
    }
    CutAll(buf, base);
  }

  lemma CutAll(buf: string, base: nat)
    requires base <= |buf|
    ensures buf == buf[..base] + Cut(buf, base, |buf|)
  {
  }

  /** The port number is that of the port text, unless the text after the scheme starts with '['; there the digits
      behind the bracket of the user part are counted in. */
  lemma PortNumber(buf: string, u: Uri)
    requires Parsed(buf) == Ok(u) && u.ty in {SipUri.SipUri, SipsUri}
    ensures u.portNo == if u.port.s == NIL then 0
              else Dec(Stale(buf, Scheme(buf).value.1, u) + Text(buf, u.port)) % 65536
    ensures u.user.s == NIL || !Is(buf, Scheme(buf).value.1, '[') ==> u.portNo == Dec(Text(buf, u.port)) % 65536
  {
    hide Parsed; hide HeadersPart; hide Dec;
    AcceptedCovers(buf, u);
    var base := Scheme(buf).value.1;
    assert "" + Text(buf, u.port) == Text(buf, u.port);
    NoPortText(buf, u);
  }

  lemma NoPortText(buf: string, u: Uri)
    ensures u.port.s == NIL ==> Dec(Text(buf, u.port)) == 0
  {
  }
}
