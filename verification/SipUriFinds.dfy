/** The other direction: a text laid out as user, password, host, port, parameters and headers is accepted, and those
    are the slices `parse_uri` returns. */
module SipUriFinds {
  import opened SipUri
  import opened SipUriLayout
  import opened SipUriParams
  import R = SipUriReads

  ghost predicate NoneOf(buf: string, a: int, e: int, marks: set<char>) {
    forall i | a <= i < e && 0 <= i < |buf| :: buf[i] !in marks
  }

  const USER_MARKS: set<char> := {'@', ':', ';', '?', '[', ']'}

  ghost predicate BracketHost(buf: string, f: Field) {
    f.len >= 2 && Is(buf, f.s, '[') && Is(buf, f.s + f.len - 1, ']')
    && NoneOf(buf, f.s + 1, f.s + f.len - 1, {'[', ']', '&', '@', ';', '?'})
  }

  /** The first character after the scheme; a mark that would end the host does not count there. */
  ghost predicate FirstOk(buf: string, i: int) {
    0 <= i < |buf| && buf[i] !in {'[', ']', ':', '@'}
  }

  /** A host that is not in brackets, right after the scheme. */
  ghost predicate FirstHost(buf: string, f: Field) {
    f.len > 0 && FirstOk(buf, f.s) && NoneOf(buf, f.s + 1, f.s + f.len, USER_MARKS)
  }

  const HOST_MARKS: set<char> := {'@', ':', ';', '?', '&'}

  /** A host that is not in brackets, behind a user. */
  ghost predicate LaterHost(buf: string, f: Field) {
    f.len > 0 && !Is(buf, f.s, '[') && NoneOf(buf, f.s, f.s + f.len, HOST_MARKS)
  }

  /** A ';' or '?' that is not the first character precedes `i`. */
  ghost predicate Behind(buf: string, base: int, i: int) {
    exists j :: base < j < i && (Is(buf, j, ';') || Is(buf, j, '?'))
  }

  /** Brackets only where they cannot belong to a host any more. */
  ghost predicate BracketsBehind(buf: string, base: int, a: int, e: int) {
    forall i | a <= i < e && 0 <= i < |buf| && buf[i] in {'[', ']'} :: Behind(buf, base, i)
  }

  /** A user that starts like a bracketed host, with or without a port, and goes on from `m` like parameters or
      headers. */
  ghost predicate BracketUser(buf: string, base: int, h: int, m: int, e: int) {
    base < h <= m < e && BracketHost(buf, FromTo(base, h))
    && (m == h || (Is(buf, h, ':') && Digits(buf, h + 1, m)))
    && (Is(buf, m, ';') || Is(buf, m, '?')) && NoneOf(buf, m, e, {'@', ':'})
  }

  /** `[base, e)` can be a user. */
  ghost predicate CanBeUser(buf: string, base: int, e: int) {
    base < e
    && if Is(buf, base, '[') then exists h, m :: BracketUser(buf, base, h, m, e)
       else NoneOf(buf, base, e, {'@', ':'}) && BracketsBehind(buf, base, base, e)
  }

  /** `[a, e)` can be the password of a user that starts at `base`. */
  ghost predicate CanBePassword(buf: string, base: int, a: int, e: int) {
    NoneOf(buf, a, e, {'@', ':', ';', '?'}) && BracketsBehind(buf, base, a, e)
  }

  /** The components contain none of the marks that end them. */
  ghost predicate Clean(buf: string, u: Uri) {
    UserClean(buf, u)
    && (BracketHost(buf, u.host) || if u.user.s == NIL then FirstHost(buf, u.host) else LaterHost(buf, u.host))
    && (u.params.s != NIL ==> NoneOf(buf, u.params.s, u.params.s + u.params.len, {'@', '?'}))
    && (u.headers.s != NIL ==> NoneOf(buf, u.headers.s, u.headers.s + u.headers.len, {'@', ';'}))
  }

  ghost predicate UserClean(buf: string, u: Uri) {
    (u.user.s != NIL ==> CanBeUser(buf, u.user.s, u.user.s + u.user.len))
    && (u.passwd.s != NIL ==> CanBePassword(buf, u.user.s, u.passwd.s, u.passwd.s + u.passwd.len))
  }

  ghost predicate SameSlices(a: Uri, b: Uri) {
    a.user == b.user && a.passwd == b.passwd && a.host == b.host && a.port == b.port && a.params == b.params
    && a.headers == b.headers
  }

  ghost function Upto(u: Uri, host: bool, port: bool, params: bool): Uri {
    u.(host := if host then u.host else UNSET, port := if port then u.port else UNSET,
       params := if params then u.params else UNSET, headers := UNSET)
  }

  // ---------- runs through one component ----------

  lemma One(buf: string, v: Vars, p: nat, w: Vars)
    requires p < |buf| && Step(v, buf[p], p) == Ok(w)
    ensures Scan(buf, v, p) == Scan(buf, w, p + 1)
  {
    hide Step;
  }

  lemma {:induction false} UserRun(buf: string, v: Vars, p: nat, e: nat)
    requires v.state == URI_USER && p <= e <= |buf| && NoneOf(buf, p, e, USER_MARKS)
    ensures Scan(buf, v, p) == Scan(buf, v, e)
    decreases e - p
  {
    if p < e {
      assert Step(v, buf[p], p) == Ok(v);
      One(buf, v, p, v);
      UserRun(buf, v, p + 1, e);
    }
  }

  /** A password candidate; if it is all digits it may be a port. */
  lemma {:induction false} PasswordRun(buf: string, v: Vars, p: nat, e: nat) returns (w: Vars)
    requires v.state in {URI_PASSWORD, URI_PASSWORD_ALPHA} && p <= e <= |buf| && NoneOf(buf, p, e, USER_MARKS)
    ensures Scan(buf, v, p) == Scan(buf, w, e) && w == v.(state := w.state, portNo := w.portNo)
    ensures w.state in {URI_PASSWORD, URI_PASSWORD_ALPHA}
    ensures v.state == URI_PASSWORD && Digits(buf, p, e) ==> w.state == URI_PASSWORD
    decreases e - p
  {
    w := v;
    if p < e {
      var x := Step(v, buf[p], p).value;
      PasswordOne(v, buf[p], p);
      One(buf, v, p, x);
      w := PasswordRun(buf, x, p + 1, e);
    }
  }

  lemma PasswordOne(v: Vars, c: char, p: nat)
    requires v.state in {URI_PASSWORD, URI_PASSWORD_ALPHA} && c !in USER_MARKS
    ensures Step(v, c, p).Ok?
    ensures var x := Step(v, c, p).value;
            x == v.(state := x.state, portNo := x.portNo) && x.state in {URI_PASSWORD, URI_PASSWORD_ALPHA}
            && (v.state == URI_PASSWORD && IsDigit(c) ==> x.state == URI_PASSWORD)
  {
  }

  lemma {:induction false} HostRun(buf: string, v: Vars, p: nat, e: nat)
    requires v.state == URI_HOST_P && p <= e <= |buf| && NoneOf(buf, p, e, HOST_MARKS)
    ensures Scan(buf, v, p) == Scan(buf, v, e)
    decreases e - p
  {
    if p < e {
      assert Step(v, buf[p], p) == Ok(v);
      One(buf, v, p, v);
      HostRun(buf, v, p + 1, e);
    }
  }

  lemma {:induction false} BracketRun(buf: string, v: Vars, p: nat, e: nat)
    requires v.state == URI_HOST6_P && p <= e <= |buf| && NoneOf(buf, p, e, {'[', ']', '&', '@', ';', '?'})
    ensures Scan(buf, v, p) == Scan(buf, v, e)
    decreases e - p
  {
    if p < e {
      assert Step(v, buf[p], p) == Ok(v);
      One(buf, v, p, v);
      BracketRun(buf, v, p + 1, e);
    }
  }

  lemma {:induction false} PortRun(buf: string, v: Vars, p: nat, e: nat) returns (w: Vars)
    requires v.state == URI_PORT && p <= e <= |buf| && Digits(buf, p, e)
    ensures Scan(buf, v, p) == Scan(buf, w, e) && w == v.(portNo := w.portNo)
    decreases e - p
  {
    w := v;
    if p < e {
      var x := v.(portNo := v.portNo * 10 + Digit(buf[p]));
      assert Step(v, buf[p], p) == Ok(x);
      One(buf, v, p, x);
      w := PortRun(buf, x, p + 1, e);
    }
  }

  /** Inside the parameters; which of the states it is does not matter here. */
  ghost predicate InParams(v: Vars, u: Uri, s: int) {
    KindOf(v.state) !in {Lead, Headers} && v.s == s && SameSlices(v.uri, u) && !v.errorHeaders
  }

  lemma ParamOne(v: Vars, c: char, p: nat, u: Uri, s: int)
    requires InParams(v, u, s) && c !in {'@', '?'}
    ensures Step(v, c, p).Ok? && InParams(Step(v, c, p).value, u, s)
  {
    hide NameNext; hide StartNext; hide EqNext; hide ValNext; hide EqParam; hide ProtoOf; hide Marks; hide StillAtUser;
    hide Semicolon; hide Colon; hide Question; hide SetName; hide LeadStep; hide HeadersStep;
    StaysInParams(v, c);
    if c == ';' {
      SemicolonSame(v);
      SemicolonSame(v.(param := To(EqParam(v.state))));
      SetNameSame(Semicolon(v), if v.state == PLR_R_FIN then Lr else R2, p);
    } else if c == ':' {
      ColonSame(v, p);
      ColonSame(v.(param := To(EqParam(v.state))), p);
    }
  }

  lemma SetNameSame(v: Vars, k: Param, p: int)
    ensures var w := SetName(v, k, p);
            SameSlices(w.uri, v.uri) && w.state == v.state && w.s == v.s
            && w.errorHeaders == v.errorHeaders
  {
  }

  lemma SemicolonSame(v: Vars)
    ensures var w := Semicolon(v);
            w.uri == v.uri && w.s == v.s && w.errorHeaders == v.errorHeaders
            && w.state == URI_PARAM
  {
  }

  lemma ColonSame(v: Vars, p: int)
    ensures var w := Colon(v, p);
            w.uri == v.uri && w.s == v.s && w.errorHeaders == v.errorHeaders
            && w.state == URI_PARAM_P
  {
  }

  lemma {:induction false} ParamsRun(buf: string, v: Vars, p: nat, e: nat, u: Uri, s: int) returns (w: Vars)
    requires InParams(v, u, s) && p <= e <= |buf| && NoneOf(buf, p, e, {'@', '?'})
    ensures Scan(buf, v, p) == Scan(buf, w, e) && InParams(w, u, s)
    decreases e - p
  {
    hide InParams; hide Step;
    w := v;
    if p < e {
      ParamOne(v, buf[p], p, u, s);
      var x := Step(v, buf[p], p).value;
      One(buf, v, p, x);
      w := ParamsRun(buf, x, p + 1, e, u, s);
    }
  }

  ghost predicate InHeaders(v: Vars, u: Uri, s: int) {
    v.state == URI_HEADERS && v.s == s && SameSlices(v.uri, u) && !v.errorHeaders
  }

  lemma {:induction false} HeadersRun(buf: string, v: Vars, p: nat, e: nat, u: Uri, s: int) returns (w: Vars)
    requires InHeaders(v, u, s) && p <= e <= |buf| && NoneOf(buf, p, e, {'@', ';'})
    ensures Scan(buf, v, p) == Scan(buf, w, e) && InHeaders(w, u, s)
    decreases e - p
  {
    w := v;
    if p < e {
      var x := Step(v, buf[p], p).value;
      HeadersOne(v, buf[p], p, u, s);
      One(buf, v, p, x);
      w := HeadersRun(buf, x, p + 1, e, u, s);
    }
  }

  lemma HeadersOne(v: Vars, c: char, p: nat, u: Uri, s: int)
    requires InHeaders(v, u, s) && c !in {'@', ';'}
    ensures Step(v, c, p).Ok? && InHeaders(Step(v, c, p).value, u, s)
  {
  }

  // ---------- one component after the other ----------

  /** The variables when the host has just been read. */
  ghost predicate HostRead(v: Vars, u: Uri) {
    SameSlices(v.uri, Upto(u, false, false, false)) && v.s == u.host.s && !v.errorHeaders
    && v.state in (if u.user.s == NIL then {URI_USER, URI_HOST6_END} else {URI_HOST_P, URI_HOST6_END})
    && (v.state == URI_USER ==> !v.foundUser)
  }

  // ---------- a user ----------

  /** Inside what looks like parameters or headers and may still be a user; `pass` is the ':' seen, if any. */
  ghost predicate MaybeUser(v: Vars, base: int, pass: int) {
    KindOf(v.state) != Lead && !v.foundUser && v.uri.host.s == base && v.pass == pass
  }

  lemma MaybeOne(v: Vars, c: char, p: nat, base: int, pass: int)
    requires MaybeUser(v, base, pass) && c !in {'@', ':'} && (pass != NIL ==> c !in {';', '?'})
    ensures Step(v, c, p).Ok? && MaybeUser(Step(v, c, p).value, base, pass)
  {
    hide NameNext; hide StartNext; hide EqNext; hide ValNext; hide EqParam; hide ProtoOf; hide Marks; hide StillAtUser;
    hide LeadStep;
    StaysInParams(v, c);
    if KindOf(v.state) == Headers {
      HeadersState(v.state);
    }
  }

  lemma HeadersState(st: State)
    requires KindOf(st) == Headers
    ensures st == URI_HEADERS
  {
  }

  lemma {:induction false} MaybeRun(buf: string, v: Vars, p: nat, e: nat, base: int, pass: int) returns (w: Vars)
    requires MaybeUser(v, base, pass) && p <= e <= |buf| && NoneOf(buf, p, e, {'@', ':'})
             && (pass != NIL ==> NoneOf(buf, p, e, {';', '?'}))
    ensures Scan(buf, v, p) == Scan(buf, w, e) && MaybeUser(w, base, pass)
    decreases e - p
  {
    hide MaybeUser; hide Step;
    w := v;
    if p < e {
      MaybeOne(v, buf[p], p, base, pass);
      var x := Step(v, buf[p], p).value;
      One(buf, v, p, x);
      w := MaybeRun(buf, x, p + 1, e, base, pass);
    }
  }

  lemma MaybeColon(v: Vars, p: nat, base: int)
    requires MaybeUser(v, base, NIL)
    ensures Step(v, ':', p).Ok? && MaybeUser(Step(v, ':', p).value, base, p)
  {
    hide StillAtUser; hide LeadStep; hide EqParam; hide ProtoOf;
    if KindOf(v.state) == Headers {
      HeadersState(v.state);
    }
  }

  lemma MaybeAt(v: Vars, p: nat, base: int, pass: int)
    requires MaybeUser(v, base, pass)
    ensures Step(v, '@', p).Ok?
    ensures var w := Step(v, '@', p).value;
            w.state == URI_HOST && w.s == p + 1 && !w.errorHeaders
            && SameSlices(w.uri, Blank(SipUri.SipUri).(user := FromTo(base, if pass == NIL then p else pass),
                                                       passwd := if pass == NIL then UNSET else FromTo(pass + 1, p)))
  {
    hide LeadStep; hide EqParam; hide ProtoOf;
    if KindOf(v.state) == Headers {
      HeadersState(v.state);
    }
  }

  /** From a mark inside the user on: the rest of it, the password and the '@'. */
  lemma ReadMaybe(buf: string, base: nat, u: Uri, v: Vars, p: nat) returns (w: Vars)
    requires MaybeUser(v, base, NIL) && UserPart(buf, base, u, u.host.s) && u.user.s == base <= p <= base + u.user.len
    requires u.host.s <= |buf| && (u.passwd.s == NIL ==> u.passwd == UNSET)
    requires NoneOf(buf, p, base + u.user.len, {'@', ':'})
    requires u.passwd.s != NIL ==> CanBePassword(buf, base, u.passwd.s, u.passwd.s + u.passwd.len)
    ensures Scan(buf, v, p) == Scan(buf, w, u.host.s)
    ensures w.state == URI_HOST && w.s == u.host.s && SameSlices(w.uri, Upto(u, false, false, false)) && !w.errorHeaders
  {
    hide Step; hide Scan; hide MaybeUser;
    var ue := base + u.user.len;
    var x := MaybeRun(buf, v, p, ue, base, NIL);
    if u.passwd.s == NIL {
      MaybeAt(x, ue, base, NIL);
      w := Step(x, '@', ue).value;
      One(buf, x, ue, w);
    } else {
      MaybeColon(x, ue, base);
      var y := Step(x, ':', ue).value;
      One(buf, x, ue, y);
      var pe := u.passwd.s + u.passwd.len;
      var z := MaybeRun(buf, y, ue + 1, pe, base, ue);
      MaybeAt(z, pe, base, ue);
      w := Step(z, '@', pe).value;
      One(buf, z, pe, w);
    }
  }

  /** A user that has no marks. */
  lemma ReadPlain(buf: string, base: nat, u: Uri, v: Vars) returns (w: Vars)
    requires UserPart(buf, base, u, u.host.s) && u.user.s == base && u.user.len > 0 && u.host.s <= |buf|
    requires v == Initial(v.uri.ty, base) && (u.passwd.s == NIL ==> u.passwd == UNSET)
    requires FirstOk(buf, base) && NoneOf(buf, base + 1, base + u.user.len, USER_MARKS)
    requires u.passwd.s != NIL ==> NoneOf(buf, u.passwd.s, u.passwd.s + u.passwd.len, USER_MARKS)
    ensures Scan(buf, v, base) == Scan(buf, w, u.host.s)
    ensures w.state == URI_HOST && w.s == u.host.s && SameSlices(w.uri, Upto(u, false, false, false)) && !w.errorHeaders
  {
    hide Step; hide Scan;
    var ue := base + u.user.len;
    var v1 := v.(state := URI_USER);
    StepInit(v, buf[base], base);
    One(buf, v, base, v1);
    UserRun(buf, v1, base + 1, ue);
    if u.passwd.s == NIL {
      w := StepUserAt(v1, ue);
      One(buf, v1, ue, w);
    } else {
      var v2 := StepUserColon(v1, ue);
      One(buf, v1, ue, v2);
      var pe := u.passwd.s + u.passwd.len;
      var v3 := PasswordRun(buf, v2, ue + 1, pe);
      w := StepPasswordAt(v3, pe);
      One(buf, v3, pe, w);
    }
  }

  /** Up to the first mark of a user that has one. */
  lemma ReadToMark(buf: string, base: nat, m: nat, v: Vars) returns (w: Vars)
    requires base < m < |buf| && buf[m] in {';', '?'} && v == Initial(v.uri.ty, base)
    requires FirstOk(buf, base) && NoneOf(buf, base + 1, m, USER_MARKS)
    ensures Scan(buf, v, base) == Scan(buf, w, m + 1) && MaybeUser(w, base, NIL)
  {
    hide Step; hide Scan; hide MaybeUser;
    var v1 := v.(state := URI_USER);
    StepInit(v, buf[base], base);
    One(buf, v, base, v1);
    UserRun(buf, v1, base + 1, m);
    w := StepUserMark(v1, buf[m], m, base);
    One(buf, v1, m, w);
  }

  lemma StepUserMark(v: Vars, c: char, p: nat, base: int) returns (w: Vars)
    requires v.state == URI_USER && c in {';', '?'} && v.s == base && !v.foundUser && v.pass == NIL
    ensures Step(v, c, p) == Ok(w) && MaybeUser(w, base, NIL)
  {
    w := Step(v, c, p).value;
  }

  /** Up to the mark of a user that starts with a bracket. */
  lemma ReadBracketUser(buf: string, base: nat, h: nat, m: nat, e: int, v: Vars) returns (w: Vars)
    requires BracketUser(buf, base, h, m, e) && v == Initial(v.uri.ty, base) && e <= |buf|
    ensures Scan(buf, v, base) == Scan(buf, w, m + 1) && MaybeUser(w, base, NIL)
  {
    hide Step; hide Scan; hide MaybeUser; hide BracketHost;
    ReadBracket(buf, v, FromTo(base, h));
    var v1 := v.(state := URI_HOST6_END);
    if m == h {
      w := StepEndMark(v1, buf[m], m, base);
      One(buf, v1, m, w);
    } else {
      var v2 := StepEndColon(v1, h);
      One(buf, v1, h, v2);
      var v3 := PortRun(buf, v2, h + 1, m);
      w := StepPortMark(v3, buf[m], m, base);
      One(buf, v3, m, w);
    }
  }

  lemma StepEndMark(v: Vars, c: char, p: nat, base: int) returns (w: Vars)
    requires v.state == URI_HOST6_END && c in {';', '?'} && v.s == base && !v.foundUser && v.pass == NIL
    ensures Step(v, c, p) == Ok(w) && MaybeUser(w, base, NIL)
  {
    w := Step(v, c, p).value;
  }

  lemma StepEndColon(v: Vars, p: nat) returns (w: Vars)
    requires v.state == URI_HOST6_END
    ensures Step(v, ':', p) == Ok(w)
    ensures w == v.(state := URI_PORT, s := p + 1, uri := v.uri.(host := FromTo(v.s, p)))
  {
    w := Step(v, ':', p).value;
  }

  lemma StepPortMark(v: Vars, c: char, p: nat, base: int) returns (w: Vars)
    requires v.state == URI_PORT && c in {';', '?'} && v.uri.host.s == base && !v.foundUser && v.pass == NIL
    ensures Step(v, c, p) == Ok(w) && MaybeUser(w, base, NIL)
  {
    w := Step(v, c, p).value;
  }

  /** The first mark behind the first character, if there is one. */
  lemma FirstMark(buf: string, base: nat, e: nat) returns (m: nat)
    requires base < e <= |buf|
    ensures base < m <= e && NoneOf(buf, base + 1, m, {';', '?'}) && (m < e ==> buf[m] in {';', '?'})
  {
    m := base + 1;
    while m < e && buf[m] !in {';', '?'}
      invariant base < m <= e && NoneOf(buf, base + 1, m, {';', '?'})
    {
      m := m + 1;
    }
  }

  /** No brackets before the first mark. */
  lemma NoBrackets(buf: string, base: nat, m: nat, a: nat, e: nat)
    requires base <= a && e <= m <= |buf| && NoneOf(buf, base + 1, m, {';', '?'})
             && BracketsBehind(buf, base, a, e)
    ensures NoneOf(buf, a, e, {'[', ']'})
  {
  }

  lemma ReadUser(buf: string, base: nat, u: Uri, v: Vars) returns (w: Vars)
    requires UserPart(buf, base, u, u.host.s) && u.user.s != NIL && UserClean(buf, u) && u.host.s <= |buf|
    requires v == Initial(v.uri.ty, base) && (u.passwd.s == NIL ==> u.passwd == UNSET)
    ensures Scan(buf, v, base) == Scan(buf, w, u.host.s)
    ensures w.state == URI_HOST && w.s == u.host.s && SameSlices(w.uri, Upto(u, false, false, false)) && !w.errorHeaders
  {
    hide Step; hide Scan; hide MaybeUser; hide Upto; hide BracketHost;
    var ue := base + u.user.len;
    if Is(buf, base, '[') {
      var h, m :| BracketUser(buf, base, h, m, ue);
      var x := ReadBracketUser(buf, base, h, m, ue, v);
      w := ReadMaybe(buf, base, u, x, m + 1);
    } else {
      var m := FirstMark(buf, base, ue);
      NoBrackets(buf, base, m, base, m);
      if m < ue {
        var x := ReadToMark(buf, base, m, v);
        w := ReadMaybe(buf, base, u, x, m + 1);
      } else {
        if u.passwd.s != NIL {
          var pe := u.passwd.s + u.passwd.len;
          assert NoneOf(buf, base + 1, pe, {';', '?'});
          NoBrackets(buf, base, pe, u.passwd.s, pe);
        }
        w := ReadPlain(buf, base, u, v);
      }
    }
  }

  lemma StepInit(v: Vars, c: char, p: nat)
    requires v.state == URI_INIT && c !in {'[', ']', ':', '@'}
    ensures Step(v, c, p) == Ok(v.(state := URI_USER))
  {
  }

  lemma StepUserAt(v: Vars, p: nat) returns (w: Vars)
    requires v.state == URI_USER
    ensures Step(v, '@', p) == Ok(w)
    ensures w == v.(state := URI_HOST, foundUser := true, s := p + 1, uri := v.uri.(user := FromTo(v.s, p)))
  {
    w := Step(v, '@', p).value;
  }

  lemma StepUserColon(v: Vars, p: nat) returns (w: Vars)
    requires v.state == URI_USER
    ensures Step(v, ':', p) == Ok(w)
    ensures w == v.(state := URI_PASSWORD, s := p + 1, uri := v.uri.(user := FromTo(v.s, p)))
  {
    w := Step(v, ':', p).value;
  }

  lemma StepPasswordAt(v: Vars, p: nat) returns (w: Vars)
    requires v.state in {URI_PASSWORD, URI_PASSWORD_ALPHA}
    ensures Step(v, '@', p) == Ok(w)
    ensures w == v.(state := URI_HOST, portNo := w.portNo, foundUser := true, s := p + 1,
              uri := v.uri.(passwd := FromTo(v.s, p)))
  {
    w := Step(v, '@', p).value;
  }

  /** From the first character to the end of the host. */
  lemma ReadHost(buf: string, base: nat, u: Uri, e: nat, ty: UriType) returns (w: Vars)
    requires HostPart(buf, base, u, e) && e <= |buf| && Clean(buf, u) && (u.user.s == NIL ==> u.user == UNSET)
             && (u.passwd.s == NIL ==> u.passwd == UNSET)
    ensures Scan(buf, Initial(ty, base), base) == Scan(buf, w, e) && HostRead(w, u)
  {
    hide Step; hide Scan; hide UserPart; hide BracketHost; hide UserClean;
    var v := Initial(ty, base);
    var h := u.host.s;
    NoUserPart(buf, base, u);
    if u.user.s != NIL {
      v := ReadUser(buf, base, u, v);
    }
    if BracketHost(buf, u.host) {
      w := v.(state := URI_HOST6_END);
      ReadBracket(buf, v, u.host);
    } else if u.user.s != NIL {
      w := v.(state := URI_HOST_P);
      StepHost(v, buf[h], h);
      One(buf, v, h, w);
      HostRun(buf, w, h + 1, e);
    } else {
      w := v.(state := URI_USER);
      StepInit(v, buf[h], h);
      One(buf, v, h, w);
      UserRun(buf, w, h + 1, e);
    }
  }

  lemma ReadBracket(buf: string, v: Vars, f: Field)
    requires v.state in {URI_INIT, URI_HOST} && v.s == f.s && BracketHost(buf, f)
    ensures Scan(buf, v, f.s) == Scan(buf, v.(state := URI_HOST6_END), f.s + f.len)
  {
    hide Step; hide Scan;
    var v1, e := v.(state := URI_HOST6_P), f.s + f.len;
    StepBracket(v, f.s);
    One(buf, v, f.s, v1);
    BracketRun(buf, v1, f.s + 1, e - 1);
    StepClose(v1, e - 1);
    One(buf, v1, e - 1, v1.(state := URI_HOST6_END));
  }

  lemma NoUserPart(buf: string, base: int, u: Uri)
    requires UserPart(buf, base, u, u.host.s)
    ensures u.user.s == NIL ==> u.passwd.s == NIL && u.host.s == base
  {
  }

  lemma StepBracket(v: Vars, p: nat)
    requires v.state in {URI_INIT, URI_HOST} && v.s == p
    ensures Step(v, '[', p) == Ok(v.(state := URI_HOST6_P))
  {
  }

  lemma StepClose(v: Vars, p: nat)
    requires v.state == URI_HOST6_P
    ensures Step(v, ']', p) == Ok(v.(state := URI_HOST6_END))
  {
  }

  lemma StepHost(v: Vars, c: char, p: nat)
    requires v.state == URI_HOST && c !in HOST_MARKS && c != '['
    ensures Step(v, c, p) == Ok(v.(state := URI_HOST_P))
  {
  }

  // ---------- port ----------

  /** The variables when host and port have just been read. */
  ghost predicate PortRead(v: Vars, u: Uri) {
    !v.errorHeaders
    && if u.port.s == NIL then HostRead(v, u)
       else v.s == u.port.s
            && match v.state
               case URI_PORT => SameSlices(v.uri, Upto(u, true, false, false))
               case URI_PASSWORD => u.user.s == NIL && !v.foundUser
                 && SameSlices(v.uri, Upto(u, false, false, false).(user := u.host))
               case _ => false
  }

  lemma ReadPort(buf: string, base: nat, u: Uri, e: nat, ty: UriType) returns (w: Vars)
    requires PortPart(buf, base, u, e) && e <= |buf| && Clean(buf, u) && Normal(u)
    ensures Scan(buf, Initial(ty, base), base) == Scan(buf, w, e) && PortRead(w, u)
  {
    hide Step; hide Scan; hide Clean; hide Normal;
    NormalParts(u);
    if u.port.s == NIL {
      w := ReadHost(buf, base, u, e, ty);
    } else {
      var h := u.port.s - 1;
      var v := ReadHost(buf, base, u, h, ty);
      var v1 := StepPortColon(v, u, h);
      One(buf, v, h, v1);
      if v1.state == URI_PORT {
        w := PortRun(buf, v1, h + 1, e);
      } else {
        DigitsClean(buf, h + 1, e);
        w := PasswordRun(buf, v1, h + 1, e);
      }
    }
  }

  /** Absent components are all zero. */
  ghost predicate Normal(u: Uri) {
    (u.user.s == NIL ==> u.user == UNSET) && (u.passwd.s == NIL ==> u.passwd == UNSET)
    && (u.port.s == NIL ==> u.port == UNSET)
    && (u.params.s == NIL ==> u.params == UNSET) && (u.headers.s == NIL ==> u.headers == UNSET)
  }

  lemma NormalParts(u: Uri)
    requires Normal(u)
    ensures (u.user.s == NIL ==> u.user == UNSET) && (u.passwd.s == NIL ==> u.passwd == UNSET)
            && (u.port.s == NIL ==> u.port == UNSET)
  {
  }

  lemma DigitsClean(buf: string, a: nat, e: nat)
    requires Digits(buf, a, e) && e <= |buf|
    ensures NoneOf(buf, a, e, USER_MARKS)
  {
  }

  lemma StepPortColon(v: Vars, u: Uri, p: nat) returns (w: Vars)
    requires HostRead(v, u) && u.host == FromTo(u.host.s, p) && u.port.s == p + 1
    ensures Step(v, ':', p) == Ok(w) && PortRead(w, u)
  {
    hide ParamCommon; hide ValueCommon; hide FlagStep; hide HeadersStep;
    w := Step(v, ':', p).value;
  }

  // ---------- what follows ----------

  /** The character after host and port opens the parameters or the headers. */
  lemma StepMark(v: Vars, u: Uri, p: nat, c: char) returns (w: Vars)
    requires PortRead(v, u) && c in {';', '?'}
             && (if u.port.s == NIL then u.host == FromTo(u.host.s, p) else u.port == FromTo(u.port.s, p))
    requires (u.user.s == NIL ==> u.user == UNSET) && (u.port.s == NIL ==> u.port == UNSET)
    ensures Step(v, c, p) == Ok(w) && w.s == p + 1 && !w.errorHeaders
            && w.state == (if c == ';' then URI_PARAM else URI_HEADERS)
    ensures SameSlices(w.uri, Upto(u, true, true, false))
  {
    w := Step(v, c, p).value;
  }

  lemma FinishPort(v: Vars, u: Uri, p: nat)
    requires PortRead(v, u)
             && (if u.port.s == NIL then u.host == FromTo(u.host.s, p) else u.port == FromTo(u.port.s, p))
    requires (u.user.s == NIL ==> u.user == UNSET) && (u.port.s == NIL ==> u.port == UNSET)
    ensures Finish(v, p).Ok? && SameSlices(Finish(v, p).value, Upto(u, true, true, false))
  {
  }

  lemma StepQuestion(v: Vars, u: Uri, s: int, p: nat) returns (w: Vars)
    requires InParams(v, u, s)
    ensures Step(v, '?', p) == Ok(w) && InHeaders(w, u.(params := FromTo(s, p)), p + 1)
  {
    hide ProtoOf; hide EqParam;
    w := Step(v, '?', p).value;
  }

  /** The end of the text inside the parameters: an error in the states that spell a prefix of "maddr=". */
  lemma FinishParams(v: Vars, u: Uri, s: int, p: nat)
    requires InParams(v, u, s)
    ensures Finish(v, p).Ok? <==> v.state !in {PMA_A, PMA_D, PMA_D2, PMA_R, PMA_EQ}
    ensures Finish(v, p).Ok? ==> SameSlices(Finish(v, p).value, u.(params := FromTo(s, p)))
  {
    hide ProtoOf; hide EqParam;
    if KindOf(v.state) == Val {
      FinishValue(v, u, s, p);
    }
  }

  lemma FinishValue(v: Vars, u: Uri, s: int, p: nat)
    requires InParams(v, u, s) && KindOf(v.state) == Val
    ensures Finish(v, p).Ok? && SameSlices(Finish(v, p).value, u.(params := FromTo(s, p)))
    ensures v.state !in {PMA_A, PMA_D, PMA_D2, PMA_R, PMA_EQ}
  {
    hide ProtoOf;
  }

  // ---------- the whole text ----------

  /** The text ends inside a parameter that spells "ma", "mad", "madd", "maddr" or "maddr=" and nothing else. */
  ghost predicate EndsInMaddr(buf: string, a: int) {
    exists i | 1 <= i <= 5 :: MaddrTail(buf, a, i)
  }

  ghost predicate MaddrTail(buf: string, a: int, i: int)
    requires 1 <= i <= 5
  {
    var b := |buf| - i - 1;
    a <= b && Starts(buf, b) && Reads(buf, b, "maddr="[..i + 1])
  }

  const MADDR_STATES: set<State> := {PMA_A, PMA_D, PMA_D2, PMA_R, PMA_EQ}

  lemma AtEnd(buf: string, v: Vars)
    ensures Scan(buf, v, |buf|) == Ok(v)
  {
  }

  /** Headers, to the end of the text. */
  lemma ReadHeaders(buf: string, v: Vars, u: Uri, p: nat) returns (w: Vars)
    requires InHeaders(v, u.(headers := UNSET), p) && p <= |buf| && u.headers == FromTo(p, |buf|)
             && NoneOf(buf, p, |buf|, {'@', ';'})
    ensures Scan(buf, v, p) == Ok(w) && Finish(w, |buf|).Ok? && SameSlices(Finish(w, |buf|).value, u)
  {
    w := HeadersRun(buf, v, p, |buf|, u.(headers := UNSET), p);
    AtEnd(buf, w);
  }

  /** Parameters, and headers if there are any, to the end of the text. */
  lemma ReadParams(buf: string, v: Vars, u: Uri, p: nat) returns (w: Vars)
    requires v.state == URI_PARAM && InParams(v, Upto(u, true, true, false), p) && u.params.s == p <= |buf|
    requires ParamsEnd(buf, u) && Clean(buf, u) && Normal(u)
    ensures Scan(buf, v, p) == Ok(w)
    ensures u.headers.s != NIL ==> Finish(w, |buf|).Ok? && SameSlices(Finish(w, |buf|).value, u)
    ensures u.headers.s == NIL ==> InParams(w, Upto(u, true, true, false), p)
  {
    hide Step; hide InParams; hide InHeaders; hide Finish; hide Scan;
    var u1 := Upto(u, true, true, false);
    var y := u.params.s + u.params.len;
    w := ParamsRun(buf, v, p, y, u1, p);
    if u.headers.s != NIL {
      var x := StepQuestion(w, u1, p, y);
      One(buf, w, y, x);
      SameHeaders(x, u1.(params := FromTo(p, y)), u.(headers := UNSET), y + 1);
      w := ReadHeaders(buf, x, u, y + 1);
    } else {
      AtEnd(buf, w);
    }
  }

  lemma SameHeaders(v: Vars, a: Uri, b: Uri, s: int)
    requires InHeaders(v, a, s) && SameSlices(a, b)
    ensures InHeaders(v, b, s)
  {
  }

  /** Where the parameters end. */
  ghost predicate ParamsEnd(buf: string, u: Uri) {
    var y := u.params.s + u.params.len;
    u.params.len >= 0
    && if u.headers.s == NIL then y == |buf|
       else 0 <= y < |buf| && buf[y] == '?' && u.headers == FromTo(y + 1, |buf|)
  }

  lemma LayoutEnds(buf: string, base: nat, u: Uri) returns (x: nat)
    requires HeadersPart(buf, base, u, |buf|) && Normal(u)
    ensures PortPart(buf, base, u, x) && x <= |buf|
    ensures if u.port.s == NIL then u.host == FromTo(u.host.s, x) else u.port == FromTo(u.port.s, x)
    ensures u.params.s != NIL ==> x < |buf| && buf[x] == ';' && u.params.s == x + 1 && ParamsEnd(buf, u)
    ensures u.params.s == NIL && u.headers.s != NIL ==> x < |buf| && buf[x] == '?' && u.headers == FromTo(x + 1, |buf|)
    ensures u.params.s == NIL && u.headers.s == NIL ==> x == |buf|
  {
    x := if u.params.s != NIL then u.params.s - 1 else if u.headers.s != NIL then u.headers.s - 1 else |buf|;
    hide UserPart; hide Digits;
  }

  /** From the first character to the last. */
  lemma ReadAll(buf: string, base: nat, u: Uri, ty: UriType) returns (w: Vars, v: Vars)
    requires HeadersPart(buf, base, u, |buf|) && Clean(buf, u) && Normal(u)
    ensures Scan(buf, Initial(ty, base), base) == Ok(w)
    ensures u.params.s == NIL || u.headers.s != NIL ==> Finish(w, |buf|).Ok? && SameSlices(Finish(w, |buf|).value, u)
    ensures u.params.s != NIL && u.headers.s == NIL ==>
              InParams(w, Upto(u, true, true, false), u.params.s) && 0 <= u.params.s <= |buf| && v.state == URI_PARAM
              && InParams(v, Upto(u, true, true, false), u.params.s) && Scan(buf, v, u.params.s) == Ok(w)
  {
    hide Step; hide InHeaders; hide Finish; hide Scan; hide Clean; hide HeadersPart; hide PortPart; hide PortRead;
    hide Upto;
    var x := LayoutEnds(buf, base, u);
    w := ReadPort(buf, base, u, x, ty);
    v := w;
    NormalParts(u);
    if x == |buf| {
      AtEnd(buf, w);
      FinishPort(w, u, x);
      UptoAll(u);
    } else {
      v := StepMark(w, u, x, buf[x]);
      One(buf, w, x, v);
      if u.params.s != NIL {
        w := ReadParams(buf, v, u, x + 1);
      } else {
        UptoAll(u);
        HeadersStart(v, Upto(u, true, true, false), x + 1);
        SameHeaders(v, Upto(u, true, true, false), u.(headers := UNSET), x + 1);
        CleanHeaders(buf, u);
        w := ReadHeaders(buf, v, u, x + 1);
      }
    }
  }

  lemma UptoAll(u: Uri)
    requires Normal(u) && u.params.s == NIL
    ensures SameSlices(Upto(u, true, true, false), u.(headers := UNSET))
    ensures u.headers.s == NIL ==> SameSlices(u.(headers := UNSET), u)
  {
  }

  lemma HeadersStart(v: Vars, u: Uri, s: int)
    requires v.state == URI_HEADERS && v.s == s && SameSlices(v.uri, u) && !v.errorHeaders
    ensures InHeaders(v, u, s)
  {
  }

  lemma CleanHeaders(buf: string, u: Uri)
    requires Clean(buf, u) && u.headers.s != NIL
    ensures NoneOf(buf, u.headers.s, u.headers.s + u.headers.len, {'@', ';'})
  {
  }

  /** Ending in one of the states that spell "maddr=" means that the text ends so. */
  lemma MaddrState(buf: string, a: int, v: Vars)
    requires Noted(buf, v, |buf|) && v.state in MADDR_STATES && 0 < a <= |buf| && buf[a - 1] == ';'
    ensures EndsInMaddr(buf, a)
  {
    hide Recorded; hide InValue;
    hide Spelled; hide Reads; hide Inner; hide KindOf;
    var i := MaddrSpelled(v.state);
    InnerReads(buf, v.b, Spelled(v.state));
    InnerAt(buf, v.b, |buf|);
    assert MaddrTail(buf, a, i);
  }

  lemma InnerAt(buf: string, a: int, e: int)
    requires Inner(buf, a, e)
    ensures forall x | a <= x < e && 0 <= x < |buf| :: buf[x] != ';'
  {
  }

  lemma MaddrSpelled(st: State) returns (i: int)
    requires st in MADDR_STATES
    ensures 1 <= i <= 5 && |Spelled(st)| == i + 1 && "maddr="[..i + 1] == Spelled(st) && KindOf(st) in {Name, Eq}
    ensures var w := Spelled(st); forall j | 0 <= j < |w| :: w[j] != ';' && w[j] != '?' && w[j] != '@'
  {
    i := |Spelled(st)| - 1;
    match st
    case PMA_A => assert "maddr="[..2] == "ma";
    case PMA_D => assert "maddr="[..3] == "mad";
    case PMA_D2 => assert "maddr="[..4] == "madd";
    case PMA_R => assert "maddr="[..5] == "maddr";
    case PMA_EQ => assert "maddr="[..6] == "maddr=";
    case _ =>
  }

  /** And conversely: a text that ends so ends in one of these states. */
  lemma MaddrText(buf: string, v: Vars, u: Uri, a: nat, w: Vars)
    requires v.state == URI_PARAM && InParams(v, u, a) && a <= |buf| && NoneOf(buf, a, |buf|, {'@', '?'})
    requires Scan(buf, v, a) == Ok(w) && EndsInMaddr(buf, a)
    ensures w.state in MADDR_STATES
  {
    hide Step; hide InParams; hide Scan; hide Reads; hide KindOf;
    var i :| 1 <= i <= 5 && MaddrTail(buf, a, i);
    var b := |buf| - i - 1;
    var x := v;
    if a < b {
      var y := ParamsRun(buf, v, a, b - 1, u, a);
      ParamOne(y, ';', b - 1, u, a);
      x := Step(y, ';', b - 1).value;
      ToStart(y, b - 1, u, a);
      One(buf, y, b - 1, x);
    }
    assert R.Word(Maddr) == "maddr=";
    R.ReadsPrefix(buf, x, b, Maddr, i);
    AtEnd(buf, x.(state := R.Chain(Maddr)[i], b := b));
  }

  lemma ToStart(v: Vars, p: nat, u: Uri, s: int)
    requires InParams(v, u, s) && Step(v, ';', p).Ok?
    ensures Step(v, ';', p).value.state == URI_PARAM
  {
    hide ProtoOf; hide EqParam;
  }

  /** A text laid out as its slices say is accepted, unless it ends in a "maddr" parameter cut short (the final switch
      of the code lacks those states), and those are the slices returned. */
  lemma FindsLayout(buf: string, u: Uri)
    requires Scheme(buf).Ok? && HeadersPart(buf, Scheme(buf).value.1, u, |buf|) && Clean(buf, u) && Normal(u)
    ensures Parsed(buf).Err? <==> u.params.s != NIL && u.headers.s == NIL && EndsInMaddr(buf, u.params.s)
    ensures Parsed(buf).Ok? && Parsed(buf).value.ty in {SipUri.SipUri, SipsUri} ==> SameSlices(Parsed(buf).value, u)
  {
    hide HeadersPart; hide Clean; hide Scan; hide Finish; hide EndsInMaddr; hide Normal; hide PhoneFix; hide Upto;
    hide InParams; hide Noted; hide Recorded;
    hide Phone; hide NoneOf; hide FindSemicolon;
    var (ty, base) := Scheme(buf).value;
    var w, v := ReadAll(buf, base, u, ty);
    ScanType(buf, Initial(ty, base), base, w);
    PhoneChanges(buf, if Finish(w, |buf|).Ok? then Finish(w, |buf|).value else u);
    if Finish(w, |buf|).Ok? {
      FinishType(w, |buf|);
    }
    if u.params.s != NIL && u.headers.s == NIL {
      FinishParams(w, Upto(u, true, true, false), u.params.s, |buf|);
      NothingNoted(buf, Initial(ty, base), base);
      ScanNotes(buf, Initial(ty, base), base, w);
      BehindSemicolon(buf, base, u);
      if w.state in MADDR_STATES {
        MaddrState(buf, u.params.s, w);
      }
      if EndsInMaddr(buf, u.params.s) {
        MaddrText(buf, v, Upto(u, true, true, false), u.params.s, w);
      }
      UptoParams(buf, base, u);
    }
  }

  /** The slices before the final switch on the type. */
  lemma FindsSlices(buf: string, u: Uri) returns (x: Uri)
    requires Scheme(buf).Ok? && HeadersPart(buf, Scheme(buf).value.1, u, |buf|) && Clean(buf, u) && Normal(u)
    requires Parsed(buf).Ok?
    ensures Parsed(buf) == FixType(buf, x) && SameSlices(x, u) && x.ty == Scheme(buf).value.0
  {
    hide HeadersPart; hide Clean; hide Scan; hide Finish; hide Normal; hide Upto; hide InParams; hide FixType;
    var (ty, base) := Scheme(buf).value;
    var w, v := ReadAll(buf, base, u, ty);
    ScanType(buf, Initial(ty, base), base, w);
    x := Finish(w, |buf|).value;
    FinishType(w, |buf|);
    if u.params.s != NIL && u.headers.s == NIL {
      FinishParams(w, Upto(u, true, true, false), u.params.s, |buf|);
      UptoParams(buf, base, u);
    }
  }

  lemma NothingNoted(buf: string, v: Vars, p: nat)
    requires p <= |buf| && v.state == URI_INIT && v.uri == Blank(v.uri.ty)
    ensures Noted(buf, v, p)
  {
    BlankRecorded(buf, v.uri);
  }

  lemma FinishType(v: Vars, p: int)
    ensures Finish(v, p).Ok? ==> Finish(v, p).value.ty == v.uri.ty
  {
    hide ProtoOf;
  }

  lemma BehindSemicolon(buf: string, base: nat, u: Uri)
    requires HeadersPart(buf, base, u, |buf|) && u.params.s != NIL && u.headers.s == NIL && Clean(buf, u)
    ensures 0 < u.params.s <= |buf| && buf[u.params.s - 1] == ';' && NoneOf(buf, u.params.s, |buf|, {'@', '?'})
  {
    hide PortPart;
  }

  lemma UptoParams(buf: string, base: nat, u: Uri)
    requires HeadersPart(buf, base, u, |buf|) && u.params.s != NIL && u.headers.s == NIL && Normal(u)
    ensures SameSlices(Upto(u, true, true, false).(params := FromTo(u.params.s, |buf|)), u)
  {
    hide PortPart;
  }
}
