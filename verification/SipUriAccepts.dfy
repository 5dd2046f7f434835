/** Exactly which texts `parse_uri` accepts: those laid out as a URI whose components are clean, unless they end in a
    "maddr" cut short. */
module SipUriAccepts {
  import opened SipUri
  import opened SipUriLayout
  import opened SipUriParams
  import opened SipUriFinds

  // ---------- what has been read is clean ----------

  ghost predicate HostDone(buf: string, u: Uri) {
    BracketHost(buf, u.host) || if u.user.s == NIL then FirstHost(buf, u.host) else LaterHost(buf, u.host)
  }

  /** All of it up to `p` may be a user, with a mark in it; behind `pass`, if that is a ':' seen, it is the password. */
  ghost predicate Candidate(buf: string, base: nat, pass: int, p: int) {
    var e := if pass == NIL then p else pass;
    CanBeUser(buf, base, e) && Behind(buf, base, e)
    && (pass != NIL ==> pass < p && CanBePassword(buf, base, pass + 1, p))
  }

  ghost predicate LeadClean(buf: string, base: nat, v: Vars, p: nat) {
    !v.errorHeaders && (v.foundUser ==> UserClean(buf, v.uri) && v.uri.user.s == base)
    && match v.state
       case URI_USER => FirstOk(buf, base) && NoneOf(buf, base + 1, p, USER_MARKS)
       case URI_PASSWORD | URI_PASSWORD_ALPHA => PasswordSoFar(buf, base, v.s, p)
       case URI_HOST_P => LaterHost(buf, FromTo(v.s, p))
       case URI_HOST6_P => Is(buf, v.s, '[') && NoneOf(buf, v.s + 1, p, {'[', ']', '&', '@', ';', '?'})
       case URI_HOST6_END => BracketHost(buf, FromTo(v.s, p))
       case URI_PORT => HostDone(buf, v.uri)
       case _ => true
  }

  ghost predicate PasswordSoFar(buf: string, base: nat, s: int, p: nat) {
    FirstOk(buf, base) && base + 1 < s && NoneOf(buf, base + 1, s - 1, USER_MARKS) && NoneOf(buf, s, p, USER_MARKS)
  }

  ghost predicate ParamClean(buf: string, base: nat, v: Vars, p: nat) {
    !v.errorHeaders && UserClean(buf, v.uri) && HostDone(buf, v.uri) && NoneOf(buf, v.s, p, {'@', '?'})
    && (!v.foundUser ==> Candidate(buf, base, v.pass, p))
  }

  ghost predicate HeadersClean(buf: string, base: nat, v: Vars, p: nat) {
    UserClean(buf, v.uri) && HostDone(buf, v.uri) && NoneOf(buf, v.s, p, {'@'})
    && (v.uri.params.s != NIL ==> NoneOf(buf, v.uri.params.s, v.uri.params.s + v.uri.params.len, {'@', '?'}))
    && (!v.errorHeaders ==> NoneOf(buf, v.s, p, {';'}))
    && (!v.foundUser ==> Candidate(buf, base, v.pass, p))
  }

  ghost predicate CleanSoFar(buf: string, base: nat, v: Vars, p: nat) {
    match KindOf(v.state)
    case Lead => LeadClean(buf, base, v, p)
    case Headers => HeadersClean(buf, base, v, p)
    case _ => ParamClean(buf, base, v, p)
  }

  // ---------- candidates ----------

  lemma BehindLater(buf: string, base: nat, i: int)
    requires Behind(buf, base, i)
    ensures Behind(buf, base, i + 1)
  {
  }

  lemma BehindMark(buf: string, base: nat, i: nat)
    requires base < i < |buf| && buf[i] in {';', '?'}
    ensures Behind(buf, base, i + 1)
  {
    assert Is(buf, i, ';') || Is(buf, i, '?');
  }

  lemma UserMore(buf: string, base: nat, e: nat)
    requires CanBeUser(buf, base, e) && Behind(buf, base, e) && e < |buf| && buf[e] !in {'@', ':'}
    ensures CanBeUser(buf, base, e + 1)
  {
    if Is(buf, base, '[') {
      var h, m :| BracketUser(buf, base, h, m, e);
      assert BracketUser(buf, base, h, m, e + 1);
    }
  }

  /** One more character that is no '@'. */
  lemma CandidateMore(buf: string, base: nat, pass: int, p: nat)
    requires Candidate(buf, base, pass, p) && p < |buf| && buf[p] !in {'@', ':'}
             && (pass != NIL ==> buf[p] !in {';', '?'})
    ensures Candidate(buf, base, pass, p + 1)
  {
    hide CanBeUser; hide Behind;
    if pass == NIL {
      UserMore(buf, base, p);
      BehindLater(buf, base, p);
    } else {
      BehindAll(buf, base, pass);
    }
  }

  lemma BehindAll(buf: string, base: nat, e: int)
    requires Behind(buf, base, e)
    ensures forall i | e <= i :: Behind(buf, base, i)
  {
    forall i | e <= i ensures Behind(buf, base, i) {
    }
  }

  lemma CandidateColon(buf: string, base: nat, p: nat)
    requires Candidate(buf, base, NIL, p)
    ensures Candidate(buf, base, p, p + 1)
  {
    hide CanBeUser; hide Behind;
  }

  /** A plain host that a mark ends. */
  lemma CandidateHost(buf: string, base: nat, p: nat)
    requires base < p < |buf| && FirstOk(buf, base) && NoneOf(buf, base + 1, p, USER_MARKS) && buf[p] in {';', '?'}
    ensures Candidate(buf, base, NIL, p + 1) && FirstHost(buf, FromTo(base, p))
  {
    BehindMark(buf, base, p);
  }

  /** A bracketed host, with a port or not, that a mark ends. */
  lemma CandidateBracket(buf: string, base: nat, h: nat, p: nat)
    requires base < h <= p < |buf| && BracketHost(buf, FromTo(base, h)) && buf[p] in {';', '?'}
    requires p == h || (Is(buf, h, ':') && Digits(buf, h + 1, p))
    ensures Candidate(buf, base, NIL, p + 1)
  {
    BehindMark(buf, base, p);
    assert BracketUser(buf, base, h, p, p + 1);
  }

  /** A candidate that an '@' ends is a user. */
  lemma CandidateUser(buf: string, base: nat, pass: int, p: nat, u: Uri)
    requires Candidate(buf, base, pass, p)
    requires u.user == FromTo(base, if pass == NIL then p else pass)
             && u.passwd == if pass == NIL then UNSET else FromTo(pass + 1, p)
    ensures UserClean(buf, u)
  {
    hide CanBeUser; hide CanBePassword; hide Behind;
  }

  // ---------- one step before the parameters ----------

  lemma UserStep(buf: string, base: nat, v: Vars, p: nat, w: Vars)
    requires v.state in {URI_INIT, URI_USER} && GoodLead(buf, base, v, p) && LeadClean(buf, base, v, p)
    requires p < |buf| && LeadStep(v, buf[p], p) == Ok(w)
    ensures CleanSoFar(buf, base, w, p + 1)
  {
    hide CanBeUser; hide CanBePassword; hide Behind; hide BracketHost; hide Candidate; hide LaterHost;
    if v.state == URI_USER {
      if buf[p] in {';', '?'} {
        CandidateHost(buf, base, p);
      } else if buf[p] == '@' {
        PlainUser(buf, base, p);
      }
    }
  }

  lemma PlainUser(buf: string, base: nat, e: nat)
    requires base < e <= |buf| && FirstOk(buf, base) && NoneOf(buf, base + 1, e, USER_MARKS)
    ensures CanBeUser(buf, base, e)
  {
  }

  lemma PlainPassword(buf: string, base: nat, a: int, e: int)
    requires NoneOf(buf, a, e, USER_MARKS)
    ensures CanBePassword(buf, base, a, e)
  {
  }

  lemma PasswordStep(buf: string, base: nat, v: Vars, p: nat, w: Vars)
    requires v.state in {URI_PASSWORD, URI_PASSWORD_ALPHA} && GoodPassword(buf, base, v, p)
             && LeadClean(buf, base, v, p)
    requires p < |buf| && LeadStep(v, buf[p], p) == Ok(w)
    ensures CleanSoFar(buf, base, w, p + 1)
  {
    hide CanBeUser; hide CanBePassword; hide Behind; hide BracketHost; hide Candidate; hide LaterHost; hide Digits;
    if buf[p] == '@' {
      PlainUser(buf, base, v.s - 1);
      PlainPassword(buf, base, v.s, p);
    }
  }

  lemma HostStep(buf: string, base: nat, v: Vars, p: nat, w: Vars)
    requires v.state in {URI_HOST, URI_HOST_P, URI_HOST6_P} && GoodHost(buf, base, v, p) && LeadClean(buf, base, v, p)
    requires p < |buf| && LeadStep(v, buf[p], p) == Ok(w)
    ensures CleanSoFar(buf, base, w, p + 1)
  {
    hide CanBeUser; hide CanBePassword; hide Behind; hide Candidate; hide UserPart; hide BracketPort; hide Dec;
    hide FirstHost; hide Bracketed;
  }

  lemma HostEndStep(buf: string, base: nat, v: Vars, p: nat, w: Vars)
    requires v.state == URI_HOST6_END && GoodHost(buf, base, v, p) && LeadClean(buf, base, v, p)
    requires p < |buf| && LeadStep(v, buf[p], p) == Ok(w)
    ensures CleanSoFar(buf, base, w, p + 1)
  {
    hide CanBeUser; hide CanBePassword; hide Behind; hide Candidate; hide UserPart; hide BracketPort; hide Dec;
    hide FirstHost; hide Bracketed; hide BracketHost; hide LaterHost;
    if !v.foundUser && buf[p] in {';', '?'} {
      CandidateBracket(buf, base, p, p);
    }
  }

  lemma PortStep(buf: string, base: nat, v: Vars, p: nat, w: Vars)
    requires v.state == URI_PORT && GoodPort(buf, base, v, p) && LeadClean(buf, base, v, p)
    requires p < |buf| && LeadStep(v, buf[p], p) == Ok(w)
    ensures CleanSoFar(buf, base, w, p + 1)
  {
    hide CanBeUser; hide CanBePassword; hide Behind; hide Candidate; hide UserPart; hide BracketPort; hide Dec;
    hide Bracketed; hide BracketHost; hide LaterHost; hide Stale; hide Digits;
    if !v.foundUser && buf[p] in {';', '?'} {
      NoBracketFirst(buf, v.uri.host);
      assert v.uri.host == FromTo(base, v.s - 1);
      CandidateBracket(buf, base, v.s - 1, p);
    }
  }

  lemma NoBracketFirst(buf: string, f: Field)
    ensures Is(buf, f.s, '[') ==> !FirstHost(buf, f)
  {
  }

  lemma LeadStepClean(buf: string, base: nat, v: Vars, p: nat, w: Vars)
    requires KindOf(v.state) == Lead && Good(buf, base, v, p) && CleanSoFar(buf, base, v, p)
    requires p < |buf| && LeadStep(v, buf[p], p) == Ok(w)
    ensures CleanSoFar(buf, base, w, p + 1)
  {
    hide CleanSoFar; hide LeadClean; hide LeadStep; hide GoodPassword; hide GoodHost; hide GoodPort;
    assert LeadClean(buf, base, v, p) by { LeadIs(buf, base, v, p); }
    match v.state
    case URI_INIT => UserStep(buf, base, v, p, w);
    case URI_USER => UserStep(buf, base, v, p, w);
    case URI_PASSWORD => PasswordStep(buf, base, v, p, w);
    case URI_PASSWORD_ALPHA => PasswordStep(buf, base, v, p, w);
    case URI_HOST => HostStep(buf, base, v, p, w);
    case URI_HOST_P => HostStep(buf, base, v, p, w);
    case URI_HOST6_P => HostStep(buf, base, v, p, w);
    case URI_HOST6_END => HostEndStep(buf, base, v, p, w);
    case URI_PORT => PortStep(buf, base, v, p, w);
    case _ =>
  }

  lemma LeadIs(buf: string, base: nat, v: Vars, p: nat)
    requires KindOf(v.state) == Lead && CleanSoFar(buf, base, v, p)
    ensures LeadClean(buf, base, v, p)
  {
    hide LeadClean;
  }

  // ---------- one step in the parameters or the headers ----------

  /** The variables that matter here, when the character is no '@'. */
  ghost predicate Onward(v: Vars, w: Vars, c: char, p: int) {
    w.uri.user == v.uri.user && w.uri.passwd == v.uri.passwd && w.uri.host == v.uri.host && w.uri.port == v.uri.port
    && w.uri.headers == v.uri.headers
    && if c == ':' then
         w.foundUser == (v.foundUser || v.pass != NIL)
         && w.pass == if v.foundUser then v.pass else if v.pass != NIL then NIL else p
       else if c == '?' || c == ';' then
         w.foundUser == (v.foundUser || v.pass != NIL) && w.pass == NIL
       else w.foundUser == v.foundUser && w.pass == v.pass
  }

  ghost predicate StartsOver(v: Vars, w: Vars, p: int) {
    !v.foundUser && w.state == URI_HOST && w.foundUser && !w.errorHeaders
    && w.uri.user == FromTo(v.uri.host.s, if v.pass == NIL then p else v.pass)
    && w.uri.passwd == (if v.pass == NIL then UNSET else FromTo(v.pass + 1, p))
    && w.uri.port == w.uri.params == w.uri.headers == UNSET
  }

  ghost predicate ParamGoes(v: Vars, w: Vars, c: char, p: int) {
    if c == '@' then StartsOver(v, w, p)
    else Onward(v, w, c, p) && w.errorHeaders == v.errorHeaders
         && if c == '?' then w.state == URI_HEADERS && w.s == p + 1 && w.uri.params == FromTo(v.s, p)
            else KindOf(w.state) !in {Lead, Headers} && w.s == v.s && w.uri.params == v.uri.params
  }

  lemma CommonGoes(v: Vars, c: char, p: int, w: Vars)
    requires Special(c) && ParamCommon(v, c, p) == Ok(w)
    ensures ParamGoes(v, w, c, p)
  {
  }

  /** Records, notes about parameters and the parameter state do not matter. */
  lemma GoesAlike(v: Vars, x: Vars, y: Vars, w: Vars, c: char, p: int)
    requires ParamGoes(x, y, c, p)
    requires x.s == v.s && x.pass == v.pass && x.foundUser == v.foundUser && x.errorHeaders == v.errorHeaders
             && SameSlices(x.uri, v.uri)
    requires w.s == y.s && w.pass == y.pass && w.foundUser == y.foundUser && w.errorHeaders == y.errorHeaders
             && SameSlices(w.uri, y.uri)
    requires w.state == y.state || (c !in {'@', '?'} && KindOf(w.state) !in {Lead, Headers})
    ensures ParamGoes(v, w, c, p)
  {
  }

  lemma PlainGoes(v: Vars, c: char, p: int, w: Vars)
    requires KindOf(v.state) !in {Lead, Headers, Val, Flag} && Step(v, c, p) == Ok(w)
    ensures ParamGoes(v, w, c, p)
  {
    hide NameNext; hide StartNext; hide EqNext; hide ValNext; hide EqParam; hide Marks; hide ParamCommon;
    StaysInParams(v, c);
    if Special(c) {
      var x := if KindOf(v.state) == Eq then v.(param := To(EqParam(v.state))) else v;
      CommonGoes(x, c, p, w);
      hide ParamGoes; hide Step; hide KindOf;
      GoesAlike(v, x, w, w, c, p);
    }
  }

  lemma ValueGoes(v: Vars, c: char, p: int, w: Vars)
    requires KindOf(v.state) == Val && Step(v, c, p) == Ok(w)
    ensures ParamGoes(v, w, c, p)
  {
    hide ValNext; hide ProtoOf;
    StaysInParams(v, c);
    if Special(c) {
      var y := ParamCommon(v, c, p).value;
      CommonGoes(v, c, p, y);
      ValueLike(v, c, p, w, y);
      hide ParamGoes; hide Step; hide KindOf;
      GoesAlike(v, v, y, w, c, p);
    }
  }

  lemma ValueLike(v: Vars, c: char, p: int, w: Vars, y: Vars)
    requires Special(c) && ValueCommon(v, c, p, ProtoOf(v.state)) == Ok(w) && ParamCommon(v, c, p) == Ok(y)
    ensures w.s == y.s && w.pass == y.pass && w.foundUser == y.foundUser && w.errorHeaders == y.errorHeaders
            && SameSlices(w.uri, y.uri)
    ensures w.state == y.state || (c !in {'@', '?'} && KindOf(w.state) !in {Lead, Headers})
  {
    hide ProtoOf; hide StillAtUser; hide DropPass;
  }

  lemma FlagGoes(v: Vars, c: char, p: int, w: Vars)
    requires KindOf(v.state) == Flag && Step(v, c, p) == Ok(w)
    ensures ParamGoes(v, w, c, p)
  {
    if Special(c) {
      var y := ParamCommon(v, c, p).value;
      CommonGoes(v, c, p, y);
      FlagLike(v, c, p, w, y);
      hide ParamGoes; hide Step; hide KindOf;
      GoesAlike(v, v, y, w, c, p);
    }
  }

  lemma FlagLike(v: Vars, c: char, p: int, w: Vars, y: Vars)
    requires Special(c) && FlagStep(v, c, p) == Ok(w) && ParamCommon(v, c, p) == Ok(y)
    ensures w.s == y.s && w.pass == y.pass && w.foundUser == y.foundUser && w.errorHeaders == y.errorHeaders
            && SameSlices(w.uri, y.uri) && w.state == y.state
  {
    hide StillAtUser; hide DropPass;
  }

  lemma ParamOnward(v: Vars, c: char, p: int, w: Vars)
    requires KindOf(v.state) !in {Lead, Headers} && Step(v, c, p) == Ok(w)
    ensures ParamGoes(v, w, c, p)
  {
    hide Step; hide ParamGoes;
    if KindOf(v.state) == Val {
      ValueGoes(v, c, p, w);
    } else if KindOf(v.state) == Flag {
      FlagGoes(v, c, p, w);
    } else {
      PlainGoes(v, c, p, w);
    }
  }

  lemma HeadersOnward(v: Vars, c: char, p: int, w: Vars)
    requires v.state == URI_HEADERS && Step(v, c, p) == Ok(w)
    ensures if c == '@' then StartsOver(v, w, p)
            else w.state == URI_HEADERS && w.s == v.s && w.uri == v.uri
                 && if c == ';' then
                      w.errorHeaders && !v.foundUser && v.pass == NIL && !w.foundUser && w.pass == NIL
                    else w.errorHeaders == v.errorHeaders && Onward(v, w, c, p)
  {
  }

  lemma CandidateOn(buf: string, base: nat, v: Vars, p: nat, w: Vars)
    requires p < |buf| && buf[p] != '@' && Onward(v, w, buf[p], p) && (!v.foundUser ==> Candidate(buf, base, v.pass, p))
    ensures !w.foundUser ==> Candidate(buf, base, w.pass, p + 1)
  {
    hide Candidate;
    if !w.foundUser {
      if buf[p] == ':' {
        CandidateColon(buf, base, p);
      } else {
        CandidateMore(buf, base, v.pass, p);
      }
    }
  }

  lemma SameDone(buf: string, u: Uri, u': Uri)
    requires u'.user == u.user && u'.passwd == u.passwd && u'.host == u.host
    ensures UserClean(buf, u) ==> UserClean(buf, u')
    ensures HostDone(buf, u) ==> HostDone(buf, u')
  {
    hide CanBeUser; hide CanBePassword; hide BracketHost; hide FirstHost; hide LaterHost;
  }

  lemma AtClean(buf: string, base: nat, v: Vars, p: nat, w: Vars)
    requires StartsOver(v, w, p) && Candidate(buf, base, v.pass, p) && v.uri.host.s == base && p <= |buf|
    ensures CleanSoFar(buf, base, w, p + 1)
  {
    hide Candidate; hide CanBeUser; hide CanBePassword;
    CandidateUser(buf, base, v.pass, p, w.uri);
  }

  lemma ParamStepClean(buf: string, base: nat, v: Vars, p: nat, w: Vars)
    requires KindOf(v.state) !in {Lead, Headers} && GoodParam(buf, base, v, p) && ParamClean(buf, base, v, p)
    requires p < |buf| && Step(v, buf[p], p) == Ok(w)
    ensures CleanSoFar(buf, base, w, p + 1)
  {
    hide Step; hide Candidate; hide UserClean; hide HostDone; hide Onward; hide KindOf; hide PortPart; hide Counted;
    hide PassOk;
    ParamOnward(v, buf[p], p, w);
    if buf[p] == '@' {
      AtClean(buf, base, v, p, w);
    } else {
      CandidateOn(buf, base, v, p, w);
      assert w.uri.user == v.uri.user && w.uri.passwd == v.uri.passwd && w.uri.host == v.uri.host by {
        OnwardSame(v, w, buf[p], p);
      }
      SameDone(buf, v.uri, w.uri);
      HeadersKind();
    }
  }

  lemma OnwardSame(v: Vars, w: Vars, c: char, p: int)
    requires Onward(v, w, c, p)
    ensures w.uri.user == v.uri.user && w.uri.passwd == v.uri.passwd && w.uri.host == v.uri.host
  {
  }

  lemma HeadersKind()
    ensures KindOf(URI_HEADERS) == Headers
  {
  }

  lemma HeadersStepClean(buf: string, base: nat, v: Vars, p: nat, w: Vars)
    requires v.state == URI_HEADERS && GoodHeaders(buf, base, v, p) && HeadersClean(buf, base, v, p)
    requires p < |buf| && Step(v, buf[p], p) == Ok(w)
    ensures CleanSoFar(buf, base, w, p + 1)
  {
    hide Step; hide Candidate; hide UserClean; hide HostDone; hide Onward; hide ParamsPart; hide Counted; hide PassOk;
    HeadersOnward(v, buf[p], p, w);
    if buf[p] == '@' {
      AtClean(buf, base, v, p, w);
    } else if buf[p] == ';' {
      CandidateMore(buf, base, NIL, p);
    } else {
      CandidateOn(buf, base, v, p, w);
    }
  }

  lemma StepClean(buf: string, base: nat, v: Vars, p: nat, w: Vars)
    requires p < |buf| && Good(buf, base, v, p) && CleanSoFar(buf, base, v, p) && Step(v, buf[p], p) == Ok(w)
    ensures CleanSoFar(buf, base, w, p + 1)
  {
    hide LeadClean; hide ParamClean; hide HeadersClean; hide GoodLead; hide GoodParam; hide GoodHeaders;
    hide LeadStep; hide NameNext; hide ValNext; hide FlagStep; hide HeadersStep; hide ParamCommon; hide ValueCommon;
    if KindOf(v.state) == Lead {
      LeadStepClean(buf, base, v, p, w);
    } else if KindOf(v.state) == Headers {
      HeadersState(v.state);
      HeadersStepClean(buf, base, v, p, w);
    } else {
      ParamStepClean(buf, base, v, p, w);
    }
  }

  lemma {:induction false} ScanClean(buf: string, base: nat, v: Vars, p: nat, w: Vars)
    requires Good(buf, base, v, p) && CleanSoFar(buf, base, v, p) && Scan(buf, v, p) == Ok(w)
    ensures Good(buf, base, w, |buf|) && CleanSoFar(buf, base, w, |buf|)
    decreases |buf| - p
  {
    hide Step; hide Good; hide CleanSoFar;
    PositionOk(buf, base, v, p);
    if p < |buf| {
      var x := Step(v, buf[p], p).value;
      StepKeeps(buf, base, v, p, x);
      StepClean(buf, base, v, p, x);
      ScanClean(buf, base, x, p + 1, w);
    }
  }

  // ---------- absent components ----------

  lemma LeadNormal(buf: string, base: nat, v: Vars, p: nat, w: Vars)
    requires KindOf(v.state) == Lead && GoodLead(buf, base, v, p) && Normal(v.uri) && p < |buf|
             && LeadStep(v, buf[p], p) == Ok(w)
    ensures Normal(w.uri)
  {
    hide Digits; hide Dec; hide BracketPort; hide Stale; hide Bracketed; hide NoneIn; hide Cut;
  }

  lemma StepNormal(buf: string, base: nat, v: Vars, p: nat, w: Vars)
    requires Good(buf, base, v, p) && Normal(v.uri) && p < |buf| && Step(v, buf[p], p) == Ok(w)
    ensures Normal(w.uri)
  {
    hide GoodLead; hide Step; hide PortPart; hide ParamsPart; hide Counted; hide LeadStep; hide Digits;
    if KindOf(v.state) == Lead {
      LeadNormal(buf, base, v, p, w) by { LeadStepIs(v, buf[p], p); }
    } else if KindOf(v.state) == Headers {
      HeadersState(v.state);
      HeadersOnward(v, buf[p], p, w);
    } else {
      ParamOnward(v, buf[p], p, w);
    }
  }

  lemma LeadStepIs(v: Vars, c: char, p: int)
    requires KindOf(v.state) == Lead
    ensures Step(v, c, p) == LeadStep(v, c, p)
  {
    hide LeadStep;
  }

  lemma {:induction false} ScanNormal(buf: string, base: nat, v: Vars, p: nat, w: Vars)
    requires Good(buf, base, v, p) && Normal(v.uri) && Scan(buf, v, p) == Ok(w)
    ensures Normal(w.uri)
    decreases |buf| - p
  {
    hide Step; hide Good; hide Normal;
    PositionOk(buf, base, v, p);
    if p < |buf| {
      var x := Step(v, buf[p], p).value;
      StepKeeps(buf, base, v, p, x);
      StepNormal(buf, base, v, p, x);
      ScanNormal(buf, base, x, p + 1, w);
    }
  }

  // ---------- the end ----------

  lemma FinishLeadClean(buf: string, base: nat, v: Vars, u: Uri)
    requires KindOf(v.state) == Lead && GoodLead(buf, base, v, |buf|) && LeadClean(buf, base, v, |buf|)
    requires Normal(v.uri) && Finish(v, |buf|) == Ok(u)
    ensures Clean(buf, u) && Normal(u)
  {
    hide Digits; hide Dec; hide BracketPort; hide Stale; hide Bracketed; hide NoneIn; hide Cut; hide CanBeUser;
    hide CanBePassword; hide BracketHost; hide LaterHost;
  }

  lemma FinishHeadersClean(buf: string, base: nat, v: Vars, u: Uri)
    requires KindOf(v.state) == Headers && GoodHeaders(buf, base, v, |buf|) && HeadersClean(buf, base, v, |buf|)
    requires Normal(v.uri) && Finish(v, |buf|) == Ok(u)
    ensures Clean(buf, u) && Normal(u)
  {
    hide UserClean; hide Candidate; hide BracketHost; hide LaterHost; hide FirstHost; hide Counted; hide Tentative;
    SameDone(buf, v.uri, u);
  }

  lemma FinishParamClean(buf: string, base: nat, v: Vars, u: Uri)
    requires KindOf(v.state) !in {Lead, Headers} && GoodParam(buf, base, v, |buf|) && ParamClean(buf, base, v, |buf|)
    requires Normal(v.uri) && Finish(v, |buf|) == Ok(u)
    ensures Clean(buf, u) && Normal(u)
  {
    hide UserClean; hide Candidate; hide BracketHost; hide LaterHost; hide FirstHost; hide Counted; hide Tentative;
    hide Finish; hide KindOf;
    FinishSame(v, |buf|, u);
    SameDone(buf, v.uri, u);
  }

  lemma FinishClean(buf: string, base: nat, v: Vars, u: Uri)
    requires Good(buf, base, v, |buf|) && CleanSoFar(buf, base, v, |buf|) && Normal(v.uri) && Finish(v, |buf|) == Ok(u)
    ensures Clean(buf, u) && Normal(u)
  {
    hide LeadClean; hide ParamClean; hide HeadersClean; hide GoodLead; hide GoodParam; hide GoodHeaders; hide Finish;
    hide Normal; hide Clean;
    if KindOf(v.state) == Lead {
      FinishLeadClean(buf, base, v, u);
    } else if KindOf(v.state) == Headers {
      FinishHeadersClean(buf, base, v, u);
    } else {
      FinishParamClean(buf, base, v, u);
    }
  }

  // ---------- the language ----------

  /** The slices lay out the text as a URI with clean components that does not end in a "maddr" cut short. */
  ghost predicate IsUri(buf: string, base: nat, u: Uri) {
    HeadersPart(buf, base, u, |buf|) && Clean(buf, u) && Normal(u)
    && !(u.params.s != NIL && u.headers.s == NIL && EndsInMaddr(buf, u.params.s))
  }

  lemma AcceptedIsUri(buf: string)
    requires Parsed(buf).Ok?
    ensures exists u :: IsUri(buf, Scheme(buf).value.1, u)
  {
    hide Scan; hide Finish; hide Good; hide CleanSoFar; hide HeadersPart; hide Clean; hide Normal; hide FixType;
    hide EndsInMaddr; hide PortNoIs;
    var (ty, base) := Scheme(buf).value;
    var v, w := Initial(ty, base), Scan(buf, Initial(ty, base), base).value;
    var u := Finish(w, |buf|).value;
    StartGood(buf, base, ty);
    StartClean(buf, base, v);
    ScanClean(buf, base, v, base, w);
    ScanNormal(buf, base, v, base, w);
    FinishClean(buf, base, w, u);
    FinishCovers(buf, base, w, u);
    FindsLayout(buf, u);
    assert IsUri(buf, base, u);
  }

  lemma StartClean(buf: string, base: nat, v: Vars)
    requires v == Initial(v.uri.ty, base)
    ensures CleanSoFar(buf, base, v, base) && Normal(v.uri)
  {
  }

  /** A text is accepted exactly if it has a scheme and some slices lay out the rest as a URI; and, unless it becomes a
      telephone URI, those are the slices returned. */
  lemma AcceptsExactly(buf: string)
    ensures Parsed(buf).Ok? <==> Scheme(buf).Ok? && exists u :: IsUri(buf, Scheme(buf).value.1, u)
    ensures Parsed(buf).Ok? && Parsed(buf).value.ty in {SipUri.SipUri, SipsUri} ==>
              forall u | IsUri(buf, Scheme(buf).value.1, u) :: SameSlices(Parsed(buf).value, u)
  {
    hide Scan; hide Finish; hide HeadersPart; hide Clean; hide Normal; hide FixType; hide EndsInMaddr; hide SameSlices;
    if Parsed(buf).Ok? {
      AcceptedIsUri(buf);
    }
    if Scheme(buf).Ok? {
      forall u | IsUri(buf, Scheme(buf).value.1, u)
        ensures Parsed(buf).Ok?
        ensures Parsed(buf).value.ty in {SipUri.SipUri, SipsUri} ==> SameSlices(Parsed(buf).value, u)
      {
        FindsLayout(buf, u);
      }
    }
  }

  // ---------- telephone URIs ----------

  /** A tel URI: what was read as the host is the number, and there is no host. */
  lemma TelSlices(buf: string, u: Uri)
    requires Parsed(buf).Ok? && Scheme(buf).value.0 == TelUri && IsUri(buf, Scheme(buf).value.1, u)
    ensures var x := Parsed(buf).value;
            x.ty == TelUri && x.user == u.host && x.host.len == 0
            && SameSlices(x.(user := u.user, host := u.host), u)
  {
    hide Scan; hide Finish; hide HeadersPart; hide Clean; hide Normal; hide EndsInMaddr;
    var x := FindsSlices(buf, u);
  }

  /** The first ';' in `[s, e)`, if there is one. */
  lemma {:induction false} SemicolonIs(buf: string, s: nat, e: nat)
    requires s <= e <= |buf|
    ensures var q := FindSemicolon(buf, s, e);
            if q == NIL then NoneOf(buf, s, e, {';'})
            else s <= q < e && buf[q] == ';' && NoneOf(buf, s, q, {';'})
    decreases e - s
  {
    if s < e && buf[s] != ';' {
      SemicolonIs(buf, s + 1, e);
    }
  }

  /** A SIP URI with `user=phone`: the user ends at its first ';', and what follows there are the parameters; without
      one nothing moves. */
  lemma PhoneSlices(buf: string, u: Uri)
    requires Parsed(buf).Ok? && IsUri(buf, Scheme(buf).value.1, u)
    requires Scheme(buf).value.0 in {SipUri.SipUri, SipsUri} && Parsed(buf).value.ty != Scheme(buf).value.0
    ensures var x := Parsed(buf).value;
            x.ty == (if Scheme(buf).value.0 == SipsUri then TelsUri else TelUri)
            && SameSlices(x.(user := u.user, params := u.params), u)
            && var e := u.user.s + u.user.len;
               if u.user.s == NIL || NoneOf(buf, u.user.s, e, {';'}) then x.user == u.user && x.params == u.params
               else
                 x.user.s == u.user.s && x.user.len >= 0 && x.params == FromTo(x.user.s + x.user.len + 1, e)
                 && Is(buf, x.params.s - 1, ';') && NoneOf(buf, x.user.s, x.params.s - 1, {';'}) && x.params.len >= 0
  {
    hide Scan; hide Finish; hide Clean; hide EndsInMaddr; hide Phone; hide FindSemicolon;
    var x := FindsSlices(buf, u);
    var s, e := u.user.s, u.user.s + u.user.len;
    if s == NIL {
      NoSemicolon(buf, u);
    } else {
      UserInside(buf, Scheme(buf).value.1, u);
      SemicolonIs(buf, s, e);
    }
  }

  lemma NoSemicolon(buf: string, u: Uri)
    requires u.user.s == NIL && Normal(u)
    ensures u.user == UNSET && FindSemicolon(buf, NIL, NIL) == NIL
  {
  }

  lemma UserInside(buf: string, base: nat, u: Uri)
    requires HeadersPart(buf, base, u, |buf|) && u.user.s != NIL
    ensures 0 <= u.user.s && 0 <= u.user.len && u.user.s + u.user.len <= |buf|
  {
    hide Digits;
  }
}
