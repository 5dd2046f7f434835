/** Rendering components as a URI and parsing it gives the components back. */
module SipUriRoundTrip {
  import opened SipUri
  import opened SipUriLayout
  import opened SipUriFinds
  import P = SipUriParams

  datatype Opt = None | Some(text: string)

  /** The components of a URI; a password needs a user. */
  datatype Parts = Parts(user: Opt, passwd: Opt, host: string, port: Opt, params: Opt, headers: Opt)

  function OptText(mark: string, o: Opt): string {
    if o.None? then "" else mark + o.text
  }

  function UserOf(c: Parts): string {
    if c.user.None? then "" else c.user.text + OptText(":", c.passwd) + "@"
  }

  function Render(scheme: string, c: Parts): string {
    scheme + UserOf(c) + c.host + OptText(":", c.port) + OptText(";", c.params) + OptText("?", c.headers)
  }

  /** The components a parsed URI points at. */
  ghost function PartsOf(buf: string, u: Uri): Parts {
    Parts(OptOf(buf, u.user), OptOf(buf, u.passwd), Text(buf, u.host), OptOf(buf, u.port), OptOf(buf, u.params),
      OptOf(buf, u.headers))
  }

  ghost function OptOf(buf: string, f: Field): Opt {
    if f.s == NIL then None else Some(Text(buf, f))
  }

  ghost predicate Without(s: string, marks: set<char>) {
    forall i | 0 <= i < |s| :: s[i] !in marks
  }

  /** No component contains a mark that would end it. */
  ghost predicate CleanParts(c: Parts) {
    (c.user.Some? ==> c.user.text != "" && Without(c.user.text, {'@', ':', '[', ']'}))
    && (c.passwd.Some? ==> c.user.Some? && Without(c.passwd.text, USER_MARKS))
    && ((c.host != "" && Without(c.host, USER_MARKS + {'&'})) || Bracket(c.host))
    && (c.port.Some? ==> forall i | 0 <= i < |c.port.text| :: IsDigit(c.port.text[i]))
    && (c.params.Some? ==> Without(c.params.text, {'@', '?'}))
    && (c.headers.Some? ==> Without(c.headers.text, {'@', ';'}))
  }

  ghost predicate Bracket(h: string) {
    |h| >= 2 && h[0] == '[' && h[|h| - 1] == ']' && Without(h[1..|h| - 1], {'[', ']', '&', '@', ';', '?'})
  }

  /** The last parameter is "ma", "mad", "madd", "maddr" or "maddr=" and no headers follow. */
  ghost predicate CutShort(c: Parts) {
    c.params.Some? && c.headers.None? && P.Starts(";" + c.params.text, 1) && EndsInMaddr(";" + c.params.text, 1)
  }

  // ---------- where rendering puts the components ----------

  function Place(at: int, o: Opt): Field {
    if o.None? then UNSET else Field(at, |o.text|)
  }

  /** The layout of the rendered text. */
  ghost function LayoutOf(ty: UriType, base: int, c: Parts): Uri {
    var ue := base + (if c.user.None? then 0 else |c.user.text|);
    var h := base + |UserOf(c)|;
    var he := h + |c.host|;
    var pe := he + |OptText(":", c.port)|;
    var qe := pe + |OptText(";", c.params)|;
    Blank(ty).(user := Place(base, c.user), passwd := Place(ue + 1, c.passwd), host := Field(h, |c.host|),
               port := Place(he + 1, c.port), params := Place(pe + 1, c.params), headers := Place(qe + 1, c.headers))
  }

  /** The text `t` stands at `at`. */
  ghost predicate Stands(buf: string, at: int, t: string) {
    0 <= at && at + |t| <= |buf| && Cut(buf, at, at + |t|) == t
  }

  lemma Middle(pre: string, t: string, post: string)
    ensures Stands(pre + t + post, |pre|, t)
  {
  }

  lemma Within(buf: string, at: int, t: string, i: int, j: int)
    requires Stands(buf, at, t) && 0 <= i <= j <= |t|
    ensures Stands(buf, at + i, t[i..j])
  {
    forall x | 0 <= x < j - i ensures Cut(buf, at + i, at + j)[x] == t[i..j][x] {
      assert Cut(buf, at, at + |t|)[i + x] == t[i + x];
    }
    assert Cut(buf, at + i, at + j) == t[i..j];
  }

  lemma OneMark(buf: string, at: int, c: char)
    requires Stands(buf, at, [c])
    ensures Is(buf, at, c)
  {
    assert Cut(buf, at, at + 1)[0] == c;
  }

  /** An optional component with its mark. */
  lemma Opted(buf: string, at: int, mark: char, o: Opt)
    requires Stands(buf, at, OptText([mark], o)) && o.Some?
    ensures Is(buf, at, mark) && Stands(buf, at + 1, o.text)
  {
    var t := OptText([mark], o);
    Within(buf, at, t, 0, 1);
    assert t[0..1] == [mark];
    OneMark(buf, at, mark);
    Within(buf, at, t, 1, |t|);
    assert t[1..|t|] == o.text;
  }

  /** The six pieces of the rendered text, in their places. */
  lemma Pieces(scheme: string, c: Parts)
    ensures var buf, base := Render(scheme, c), |scheme|;
            var h := base + |UserOf(c)|; var he := h + |c.host|; var pe := he + |OptText(":", c.port)|; var qe := pe
              + |OptText(";", c.params)|;
            Stands(buf, base, UserOf(c)) && Stands(buf, h, c.host) && Stands(buf, he, OptText(":", c.port))
            && Stands(buf, pe, OptText(";", c.params)) && Stands(buf, qe, OptText("?", c.headers))
            && qe + |OptText("?", c.headers)| == |buf|
            && buf[..base] == scheme
  {
    hide UserOf; hide OptText; hide Stands;
    var u, h, p, q, x := UserOf(c), c.host, OptText(":", c.port), OptText(";", c.params), OptText("?", c.headers);
    var buf := Render(scheme, c);
    assert buf == scheme + u + (h + p + q + x);
    Middle(scheme, u, h + p + q + x);
    assert buf == (scheme + u) + h + (p + q + x);
    Middle(scheme + u, h, p + q + x);
    assert buf == (scheme + u + h) + p + (q + x);
    Middle(scheme + u + h, p, q + x);
    assert buf == (scheme + u + h + p) + q + x;
    Middle(scheme + u + h + p, q, x);
    assert buf == (scheme + u + h + p + q) + x + "";
    Middle(scheme + u + h + p + q, x, "");
  }

  /** User, password and '@'. */
  lemma UserPieces(buf: string, base: int, c: Parts)
    requires Stands(buf, base, UserOf(c)) && c.user.Some?
    ensures var ue := base + |c.user.text|;
            Stands(buf, base, c.user.text) && Is(buf, base + |UserOf(c)| - 1, '@')
            && (c.passwd.Some? ==> Is(buf, ue, ':') && Stands(buf, ue + 1, c.passwd.text))
  {
    hide Stands;
    var t := UserOf(c);
    var n := |c.user.text|;
    Within(buf, base, t, 0, n);
    assert t[0..n] == c.user.text;
    Within(buf, base, t, |t| - 1, |t|);
    assert t[|t| - 1..|t|] == "@";
    OneMark(buf, base + |t| - 1, '@');
    if c.passwd.Some? {
      Within(buf, base, t, n, |t| - 1);
      assert t[n..|t| - 1] == OptText(":", c.passwd);
      Opted(buf, base + n, ':', c.passwd);
    }
  }

  lemma CleanAt(buf: string, at: int, t: string, marks: set<char>)
    requires Stands(buf, at, t) && Without(t, marks)
    ensures NoneOf(buf, at, at + |t|, marks)
  {
    forall i | at <= i < at + |t| ensures buf[i] !in marks {
      assert buf[i] == Cut(buf, at, at + |t|)[i - at] == t[i - at];
    }
  }

  lemma DigitsAt(buf: string, at: int, t: string)
    requires Stands(buf, at, t) && forall i | 0 <= i < |t| :: IsDigit(t[i])
    ensures Digits(buf, at, at + |t|)
  {
    forall i | at <= i < at + |t| ensures IsDigit(buf[i]) {
      assert buf[i] == Cut(buf, at, at + |t|)[i - at] == t[i - at];
    }
  }

  lemma HostAt(buf: string, at: int, h: string)
    requires Stands(buf, at, h)
    ensures h != "" && Without(h, USER_MARKS + {'&'}) ==>
              FirstHost(buf, Field(at, |h|)) && LaterHost(buf, Field(at, |h|))
    ensures Bracket(h) ==> BracketHost(buf, Field(at, |h|))
  {
    hide Stands;
    if h != "" && Without(h, USER_MARKS + {'&'}) {
      CleanAt(buf, at, h, USER_MARKS + {'&'});
      PlainHost(buf, at, |h|) by { StandsText(buf, at, h); }
    }
    if Bracket(h) {
      Within(buf, at, h, 0, 1);
      Within(buf, at, h, |h| - 1, |h|);
      assert h[0..1] == "[" && h[|h| - 1..|h|] == "]";
      OneMark(buf, at, '[');
      OneMark(buf, at + |h| - 1, ']');
      Within(buf, at, h, 1, |h| - 1);
      CleanAt(buf, at + 1, h[1..|h| - 1], {'[', ']', '&', '@', ';', '?'});
    }
  }

  lemma PlainHost(buf: string, at: int, n: nat)
    requires n > 0 && 0 <= at && at + n <= |buf| && NoneOf(buf, at, at + n, USER_MARKS + {'&'})
    ensures FirstHost(buf, Field(at, n)) && LaterHost(buf, Field(at, n))
  {
  }

  lemma PlainUser(buf: string, a: int, e: int)
    requires 0 <= a < e <= |buf| && NoneOf(buf, a, e, {'@', ':', '[', ']'})
    ensures CanBeUser(buf, a, e)
  {
  }

  lemma PlainPassword(buf: string, base: int, a: int, e: int)
    requires NoneOf(buf, a, e, USER_MARKS)
    ensures CanBePassword(buf, base, a, e)
  {
  }

  lemma Lays(scheme: string, ty: UriType, c: Parts)
    requires CleanParts(c)
    ensures var buf, u := Render(scheme, c), LayoutOf(ty, |scheme|, c);
            HeadersPart(buf, |scheme|, u, |buf|) && Clean(buf, u) && Normal(u) && PartsOf(buf, u) == c
  {
    hide Stands; hide Render; hide Without; hide UserOf; hide Digits; hide Bracket; hide NoneOf; hide FirstHost;
    hide BracketHost; hide LaterHost; hide CanBeUser; hide CanBePassword;
    hide UserPart; hide OptText; hide Cut;
    var buf, base, u := Render(scheme, c), |scheme|, LayoutOf(ty, |scheme|, c);
    Pieces(scheme, c);
    UserLays(buf, base, u, c);
    HostAt(buf, u.host.s, c.host);
    StandsText(buf, u.host.s, c.host);
    PortLays(buf, u.host.s + u.host.len, c);
    RestLays(buf, u.host.s + u.host.len + |OptText(":", c.port)|, c);
    OptLengths(c);
  }

  lemma OptLengths(c: Parts)
    ensures |OptText(":", c.port)| == if c.port.None? then 0 else 1 + |c.port.text|
    ensures |OptText(";", c.params)| == if c.params.None? then 0 else 1 + |c.params.text|
    ensures |OptText("?", c.headers)| == if c.headers.None? then 0 else 1 + |c.headers.text|
  {
  }

  lemma StandsText(buf: string, at: int, t: string)
    requires Stands(buf, at, t)
    ensures Text(buf, Field(at, |t|)) == t && 0 <= at && at + |t| <= |buf|
  {
  }

  lemma UserOfLayout(ty: UriType, base: int, c: Parts)
    ensures var u := LayoutOf(ty, base, c);
            u.user == Place(base, c.user) && u.passwd
              == Place(base + (if c.user.None? then 0 else |c.user.text|) + 1, c.passwd)
            && u.host.s == base + |UserOf(c)|
    ensures |UserOf(c)| == if c.user.None? then 0
              else |c.user.text| + (if c.passwd.None? then 0 else 1 + |c.passwd.text|) + 1
  {
  }

  lemma PartsClean(c: Parts)
    requires CleanParts(c)
    ensures c.user.Some? ==> c.user.text != "" && Without(c.user.text, {'@', ':', '[', ']'})
    ensures c.passwd.Some? ==> c.user.Some? && Without(c.passwd.text, USER_MARKS)
  {
  }

  lemma RestClean(c: Parts)
    requires CleanParts(c)
    ensures c.params.Some? ==> Without(c.params.text, {'@', '?'})
    ensures c.headers.Some? ==> Without(c.headers.text, {'@', ';'})
  {
  }

  lemma UserLays(buf: string, base: nat, u: Uri, c: Parts)
    requires Stands(buf, base, UserOf(c)) && CleanParts(c) && u == LayoutOf(u.ty, base, c)
    ensures UserPart(buf, base, u, u.host.s) && u.host.s >= base && OptOf(buf, u.user) == c.user
            && OptOf(buf, u.passwd) == c.passwd
    ensures UserClean(buf, u)
  {
    hide Stands; hide Without; hide NoneOf; hide CleanParts; hide LayoutOf; hide Text; hide UserOf; hide CanBeUser;
    hide CanBePassword;
    UserOfLayout(u.ty, base, c);
    PartsClean(c);
    if c.user.Some? {
      UserPieces(buf, base, c);
      StandsText(buf, base, c.user.text);
      CleanAt(buf, base, c.user.text, {'@', ':', '[', ']'});
      PlainUser(buf, base, base + |c.user.text|);
      if c.passwd.Some? {
        var ue := base + |c.user.text|;
        StandsText(buf, ue + 1, c.passwd.text);
        CleanAt(buf, ue + 1, c.passwd.text, USER_MARKS);
        PlainPassword(buf, base, ue + 1, ue + 1 + |c.passwd.text|);
      }
    }
  }

  lemma PortLays(buf: string, at: int, c: Parts)
    requires Stands(buf, at, OptText(":", c.port)) && CleanParts(c)
    ensures OptOf(buf, Place(at + 1, c.port)) == c.port || at < 0
    ensures c.port.Some? ==>
              Is(buf, at, ':') && Digits(buf, at + 1, at + 1 + |c.port.text|) && at + 1 + |c.port.text| <= |buf|
    ensures at >= 0
  {
    hide Stands; hide Without; hide Bracket;
    if c.port.Some? {
      Opted(buf, at, ':', c.port);
      StandsText(buf, at + 1, c.port.text);
      DigitsAt(buf, at + 1, c.port.text);
    }
    StandsText(buf, at, OptText(":", c.port));
  }

  lemma RestLays(buf: string, at: int, c: Parts)
    requires Stands(buf, at, OptText(";", c.params))
             && Stands(buf, at + |OptText(";", c.params)|, OptText("?", c.headers)) && CleanParts(c)
    ensures var qe := at + |OptText(";", c.params)|;
            OptOf(buf, Place(at + 1, c.params)) == c.params && OptOf(buf, Place(qe + 1, c.headers)) == c.headers
    ensures c.params.Some? ==> Is(buf, at, ';') && NoneOf(buf, at + 1, at + 1 + |c.params.text|, {'@', '?'})
    ensures var qe := at + |OptText(";", c.params)|;
            c.headers.Some? ==> Is(buf, qe, '?') && NoneOf(buf, qe + 1, qe + 1 + |c.headers.text|, {'@', ';'})
  {
    hide Stands; hide Without; hide CleanParts; hide NoneOf; hide Text;
    RestClean(c);
    StandsText(buf, at, OptText(";", c.params));
    var qe := at + |OptText(";", c.params)|;
    if c.params.Some? {
      Opted(buf, at, ';', c.params);
      StandsText(buf, at + 1, c.params.text);
      CleanAt(buf, at + 1, c.params.text, {'@', '?'});
    }
    if c.headers.Some? {
      Opted(buf, qe, '?', c.headers);
      StandsText(buf, qe + 1, c.headers.text);
      CleanAt(buf, qe + 1, c.headers.text, {'@', ';'});
    }
  }

  // ---------- the round trip ----------

  /** Whether the text ends in a "maddr" cut short is a matter of its parameters alone. */
  lemma TailOnly(buf: string, a: nat, t: string)
    requires 0 < a <= |buf| && buf[a - 1] == ';' && Cut(buf, a, |buf|) == t
    ensures EndsInMaddr(buf, a) <==> EndsInMaddr(";" + t, 1)
  {
    var s := ";" + t;
    forall x | 0 <= x < |s| ensures s[x] == buf[a - 1 + x] {
    }
    forall i | 1 <= i <= 5 ensures MaddrTail(buf, a, i) <==> MaddrTail(s, 1, i) {
      TailShift(buf, a, s, i);
    }
  }

  lemma TailShift(buf: string, a: nat, s: string, i: int)
    requires 0 < a <= |buf| && |s| == |buf| - a + 1 && 1 <= i <= 5
    requires forall x | 0 <= x < |s| :: s[x] == buf[a - 1 + x]
    ensures MaddrTail(buf, a, i) <==> MaddrTail(s, 1, i)
  {
    var w := "maddr="[..i + 1];
    var b, c := |buf| - i - 1, |s| - i - 1;
    if c >= 1 {
      assert s[c - 1] == buf[a - 1 + (c - 1)];
      if P.Reads(buf, b, w) {
        forall j | 0 <= j < |w| ensures Lower(s[c + j]) == w[j] {
          assert Lower(buf[b + j]) == w[j] && s[c + j] == buf[a - 1 + (c + j)];
        }
      }
      if P.Reads(s, c, w) {
        forall j | 0 <= j < |w| ensures Lower(buf[b + j]) == w[j] {
          assert Lower(s[c + j]) == w[j] && s[c + j] == buf[a - 1 + (c + j)];
        }
      }
    }
  }

  lemma SchemeOf(scheme: string, rest: string)
    requires scheme in {"sip:", "sips:"} && rest != ""
    ensures Scheme(scheme + rest) == Ok((if scheme == "sip:" then SipUri.SipUri else SipsUri, |scheme|))
  {
    var buf := scheme + rest;
    assert |buf| >= 5 && buf[0] == 's' && buf[1] == 'i' && buf[2] == 'p' && buf[3] == scheme[3];
    if scheme == "sips:" {
      assert buf[4] == ':';
    }
  }

  /** Clean components render to a URI that is accepted unless its last parameter is a "maddr" cut short, and,
      `user=phone` apart, parsing gives the components back, with the decimal value of the port. */
  lemma RoundTrip(scheme: string, c: Parts)
    requires scheme in {"sip:", "sips:"} && CleanParts(c)
    ensures Parsed(Render(scheme, c)).Err? <==> CutShort(c)
    ensures var buf := Render(scheme, c);
            Parsed(buf).Ok? && Parsed(buf).value.ty in {SipUri.SipUri, SipsUri} ==>
              PartsOf(buf, Parsed(buf).value) == c
              && (c.port.Some? && (c.user.None? || c.user.text[0] != '[') ==>
                    Parsed(buf).value.portNo == Dec(c.port.text) % 65536)
  {
    hide Parsed; hide HeadersPart; hide Clean; hide EndsInMaddr; hide Dec; hide Scheme; hide UserOf; hide OptText;
    hide CleanParts; hide Normal;
    hide LayoutOf; hide PartsOf; hide SameSlices; hide BracketPort;
    var buf := Render(scheme, c);
    var ty := if scheme == "sip:" then SipUri.SipUri else SipsUri;
    var u := LayoutOf(ty, |scheme|, c);
    HostNotEmpty(c);
    assert buf == scheme + (UserOf(c) + c.host + OptText(":", c.port) + OptText(";", c.params)
             + OptText("?", c.headers));
    SchemeOf(scheme, UserOf(c) + c.host + OptText(":", c.port) + OptText(";", c.params) + OptText("?", c.headers));
    Lays(scheme, ty, c);
    FindsLayout(buf, u);
    LaysWhere(ty, |scheme|, c);
    if c.params.Some? && c.headers.None? {
      LaysParams(scheme, ty, c);
      BehindSemicolon(buf, |scheme|, u);
      TailOnly(buf, u.params.s, c.params.text);
    }
    if Parsed(buf).Ok? && Parsed(buf).value.ty in {SipUri.SipUri, SipsUri} {
      SameParts(buf, Parsed(buf).value, u);
      PortNumber(buf, Parsed(buf).value);
      PartsWhere(buf, Parsed(buf).value);
      if c.user.Some? {
        UserFirst(scheme, c);
      }
    }
  }

  lemma HostNotEmpty(c: Parts)
    requires CleanParts(c)
    ensures c.host != "" && (c.user.Some? ==> c.user.text != "")
  {
  }

  lemma LaysWhere(ty: UriType, base: nat, c: Parts)
    ensures var u := LayoutOf(ty, base, c);
            (u.params.s == NIL <==> c.params.None?)
            && (u.headers.s == NIL <==> c.headers.None?)
  {
  }

  lemma PartsWhere(buf: string, u: Uri)
    ensures PartsOf(buf, u).user.None? <==> u.user.s == NIL
    ensures PartsOf(buf, u).port.Some? ==> PartsOf(buf, u).port.text == Text(buf, u.port)
  {
  }

  lemma SameParts(buf: string, a: Uri, b: Uri)
    requires SameSlices(a, b)
    ensures PartsOf(buf, a) == PartsOf(buf, b)
  {
  }

  lemma LaysParams(scheme: string, ty: UriType, c: Parts)
    requires c.params.Some? && c.headers.None?
    ensures var buf, u := Render(scheme, c), LayoutOf(ty, |scheme|, c);
            0 < u.params.s <= |buf| && u.params.s + u.params.len == |buf|
            && Cut(buf, u.params.s, |buf|) == c.params.text
  {
    hide UserOf; hide Render;
    Pieces(scheme, c);
    var buf := Render(scheme, c);
    var pe := |scheme| + |UserOf(c)| + |c.host| + |OptText(":", c.port)|;
    Opted(buf, pe, ';', c.params);
  }

  lemma UserFirst(scheme: string, c: Parts)
    requires c.user.Some? && c.user.text != ""
    ensures |Render(scheme, c)| > |scheme| && Render(scheme, c)[|scheme|] == c.user.text[0]
  {
  }

  // ---------- where the port number is not that of the port ----------

  const STALE_PORT: string := "sip:[a]:12;x@h:34"

  lemma Turn(v: Vars, p: nat, w: Vars)
    requires p < |STALE_PORT| && Step(v, STALE_PORT[p], p) == Ok(w)
    ensures Scan(STALE_PORT, v, p) == Scan(STALE_PORT, w, p + 1)
  {
    hide Step;
  }

  const BRACKETED: Vars := Initial(SipUri.SipUri, 4).(state := URI_PORT, s := 8,
    uri := Blank(SipUri.SipUri).(host := Field(4, 3)))
  const COUNTED: Vars := BRACKETED.(portNo := 12, state := URI_PARAM, s := 11,
    uri := BRACKETED.uri.(port := Field(8, 2), portNo := 12))
  const AT_USER: Vars := COUNTED.(state := URI_HOST, s := 13, foundUser := true,
    uri := Blank(SipUri.SipUri).(user := Field(4, 8)))
  const AT_PORT: Vars := AT_USER.(state := URI_PORT, s := 15, uri := AT_USER.uri.(host := Field(13, 1)))

  lemma ToBracketed()
    ensures Scan(STALE_PORT, Initial(SipUri.SipUri, 4), 4) == Scan(STALE_PORT, BRACKETED, 8)
  {
    hide Scan;
    var v4 := Initial(SipUri.SipUri, 4);
    var v5 := v4.(state := URI_HOST6_P);
    Turn(v4, 4, v5);
    Turn(v5, 5, v5);
    Turn(v5, 6, v5.(state := URI_HOST6_END));
    Turn(v5.(state := URI_HOST6_END), 7, BRACKETED);
  }

  lemma ToCounted()
    ensures Scan(STALE_PORT, BRACKETED, 8) == Scan(STALE_PORT, COUNTED, 11)
  {
    hide Scan;
    Turn(BRACKETED, 8, BRACKETED.(portNo := 1));
    Turn(BRACKETED.(portNo := 1), 9, BRACKETED.(portNo := 12));
    Turn(BRACKETED.(portNo := 12), 10, COUNTED);
  }

  lemma ToUser()
    ensures Scan(STALE_PORT, BRACKETED, 8) == Scan(STALE_PORT, AT_USER, 13)
  {
    hide Scan;
    ToCounted();
    Turn(COUNTED, 11, COUNTED.(state := URI_PARAM_P));
    Turn(COUNTED.(state := URI_PARAM_P), 12, AT_USER);
  }

  lemma ToPort()
    ensures Scan(STALE_PORT, AT_USER, 13) == Ok(AT_PORT.(portNo := 1234))
  {
    hide Scan;
    Turn(AT_USER, 13, AT_USER.(state := URI_HOST_P));
    Turn(AT_USER.(state := URI_HOST_P), 14, AT_PORT);
    Turn(AT_PORT, 15, AT_PORT.(portNo := 123));
    Turn(AT_PORT.(portNo := 123), 16, AT_PORT.(portNo := 1234));
    AtEnd(STALE_PORT, AT_PORT.(portNo := 1234));
  }

  /** "[a]:12;x" turns out to be the user part, but its digits 12 stay counted: port 34 yields 1234. */
  lemma StalePort()
    ensures Parsed(STALE_PORT).Ok?
    ensures var u := Parsed(STALE_PORT).value;
            Text(STALE_PORT, u.port) == "34" && u.portNo == 1234
            && Text(STALE_PORT, u.user) == "[a]:12;x"
  {
    hide Scan; hide Step; hide Scheme; hide Finish; hide FixType;
    SchemeOf("sip:", "[a]:12;x@h:34");
    assert STALE_PORT == "sip:" + "[a]:12;x@h:34";
    ToBracketed();
    ToUser();
    ToPort();
    StaleEnd();
    assert STALE_PORT[15..17] == "34" && STALE_PORT[4..12] == "[a]:12;x";
  }

  const STALE_URI: Uri := AT_PORT.uri.(port := Field(15, 2), portNo := 1234)

  lemma StaleEnd()
    ensures Finish(AT_PORT.(portNo := 1234), 17) == Ok(STALE_URI) && FixType(STALE_PORT, STALE_URI) == Ok(STALE_URI)
  {
  }
}
