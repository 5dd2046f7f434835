/** When the final switch turns a SIP or SIPS URI into a telephone URI, and that otherwise nothing is rewritten. */
module SipUriPhone {
  import opened SipUri
  import opened SipUriLayout
  import opened SipUriParams
  import opened SipUriFinds
  import opened SipUriRoundTrip
  import opened SipUriRecords

  /** `f` is the value "phone", in letters of either case, of a `user` parameter. */
  ghost predicate GivesPhone(buf: string, f: Field) {
    ValueAt(buf, UserParam, f) && ReadsPhone(buf, f)
  }

  ghost predicate ReadsPhone(buf: string, f: Field) {
    f.len == 5 && Reads(buf, f.s, "phone")
  }

  lemma PhoneIs(buf: string, f: Field)
    ensures Phone(buf, f) <==> ReadsPhone(buf, f)
  {
  }

  /** The components ask for it: one of the parameters is `user=phone`. */
  ghost predicate AsksPhone(c: Parts) {
    c.params.Some? && exists f :: GivesPhone(";" + c.params.text, f)
  }

  /** The type changes exactly if the recorded value of the `user` parameter is "phone"; and only a parameter in the
      text does that. */
  lemma TypeKept(buf: string, u: Uri)
    requires Parsed(buf) == Ok(u) && Scheme(buf).Ok? && Scheme(buf).value.0 in {SipUri.SipUri, SipsUri}
    ensures u.ty == Scheme(buf).value.0 <==> !(UserParam in u.vals && ReadsPhone(buf, u.vals[UserParam]))
    ensures u.ty == Scheme(buf).value.0 || exists f :: GivesPhone(buf, f)
  {
    hide Scan; hide Finish; hide Recorded; hide Phone; hide FindSemicolon; hide ValueAt; hide ReadsPhone;
    var (ty, base) := Scheme(buf).value;
    var v := Scan(buf, Initial(ty, base), base).value;
    ScanType(buf, Initial(ty, base), base, v);
    FinishType(v, |buf|);
    NotUnset(buf);
    if UserParam in u.vals {
      PhoneIs(buf, u.vals[UserParam]);
    }
    if u.ty != ty {
      RecordedPhone(buf, u);
    }
  }

  lemma NotUnset(buf: string)
    ensures !Phone(buf, UNSET)
  {
  }

  lemma RecordedPhone(buf: string, u: Uri)
    requires Parsed(buf) == Ok(u) && UserParam in u.vals && ReadsPhone(buf, u.vals[UserParam])
    ensures GivesPhone(buf, u.vals[UserParam])
  {
    hide Parsed; hide ReadsPhone;
    RecordsOnlyParams(buf, u);
  }

  // ---------- the parameters of rendered components ----------

  /** Behind the user there are no marks before the parameters, and no '@' at all. */
  lemma RestClean(scheme: string, c: Parts)
    requires scheme in {"sip:", "sips:"} && CleanParts(c)
    ensures var buf, h := Render(scheme, c), |scheme| + |UserOf(c)|;
            var pe := h + |c.host| + |OptText(":", c.port)|;
            NoneOf(buf, h, |buf|, {'@'}) && NoneOf(buf, h, pe, {';', '?'}) && h <= pe <= |buf|
            && (c.user.Some? ==> Is(buf, h - 1, '@'))
  {
    hide Stands; hide Bracket; hide Render; hide UserOf; hide CleanParts; hide Without; hide NoneOf;
    var buf, h := Render(scheme, c), |scheme| + |UserOf(c)|;
    Pieces(scheme, c);
    RestParts(c);
    CleanAt(buf, h, c.host, {'@', ';', '?'});
    CleanAt(buf, h + |c.host|, OptText(":", c.port), {'@', ';', '?'});
    var pe := h + |c.host| + |OptText(":", c.port)|;
    CleanAt(buf, pe, OptText(";", c.params), {'@'});
    CleanAt(buf, pe + |OptText(";", c.params)|, OptText("?", c.headers), {'@'});
    StandsText(buf, pe, OptText(";", c.params));
    if c.user.Some? {
      UserPieces(buf, |scheme|, c);
    }
    NoneJoin(buf, h, h + |c.host|, pe, {';', '?'}, {'@', ';', '?'});
    NoneJoin(buf, h, h + |c.host|, pe, {'@'}, {'@', ';', '?'});
    NoneJoin(buf, h, pe, pe + |OptText(";", c.params)|, {'@'}, {'@'});
    NoneJoin(buf, h, pe + |OptText(";", c.params)|, |buf|, {'@'}, {'@'});
  }

  lemma NoneJoin(buf: string, a: int, m: int, e: int, marks: set<char>, more: set<char>)
    requires (NoneOf(buf, a, m, more) || NoneOf(buf, a, m, marks)) && NoneOf(buf, m, e, more) && marks <= more
    ensures NoneOf(buf, a, e, marks)
  {
  }

  lemma RestParts(c: Parts)
    requires CleanParts(c)
    ensures Without(c.host, {'@', ';', '?'}) && Without(OptText(":", c.port), {'@', ';', '?'})
    ensures Without(OptText(";", c.params), {'@'}) && Without(OptText("?", c.headers), {'@'})
  {
    HostClean(c);
  }

  lemma HostClean(c: Parts)
    requires CleanParts(c)
    ensures Without(c.host, {'@', ';', '?'})
  {
    if Bracket(c.host) {
      var h := c.host;
      assert h == [h[0]] + h[1..|h| - 1] + [h[|h| - 1]];
    }
  }

  /** What stands behind host and port. */
  lemma MarkAt(scheme: string, c: Parts)
    requires CleanParts(c)
    ensures var buf := Render(scheme, c);
            var pe := |scheme| + |UserOf(c)| + |c.host| + |OptText(":", c.port)|;
            0 <= pe <= |buf|
            && if c.params.Some? then
                 Is(buf, pe, ';') && pe + 1 + |c.params.text| <= |buf|
                 && Cut(buf, pe, pe + 1 + |c.params.text|) == ";" + c.params.text
               else pe == |buf| || Is(buf, pe, '?')
  {
    hide Stands; hide Render; hide UserOf; hide CleanParts; hide Bracket; hide Cut;
    var buf := Render(scheme, c);
    var pe := |scheme| + |UserOf(c)| + |c.host| + |OptText(":", c.port)|;
    Pieces(scheme, c);
    StandsText(buf, pe, OptText(";", c.params));
    if c.params.Some? {
      Opted(buf, pe, ';', c.params);
    } else if c.headers.Some? {
      Opted(buf, pe, '?', c.headers);
    }
  }

  /** The parameters of the rendered text are those of the components. */
  lemma RenderedParams(scheme: string, c: Parts, a: int, r: Field)
    requires scheme in {"sip:", "sips:"} && CleanParts(c)
    requires var buf := Render(scheme, c); Opened(buf, |scheme|, a, |buf|) && ParamsAt(buf, a, r)
    ensures c.params.Some? && r.len >= |c.params.text| && 0 < r.s <= |Render(scheme, c)|
            && Cut(Render(scheme, c), r.s - 1, r.s + r.len) == ";" + c.params.text
  {
    hide Render; hide UserOf; hide CleanParts; hide Bracket; hide OptText; hide ParamsAt; hide NoneOf; hide Cut;
    var buf, h := Render(scheme, c), |scheme| + |UserOf(c)|;
    var pe := h + |c.host| + |OptText(":", c.port)|;
    RestClean(scheme, c);
    UserSize(c);
    HostNotEmpty(c);
    assert -1 <= a;
    BehindOpening(buf, |scheme|, a, h, pe);
    MarkAt(scheme, c);
    FirstMarkAt(buf, a, r, pe);
    hide Opened;
    RegionEnds(buf, a, r);
    EndAt(scheme, c);
    SameEnd(buf, r.s, r.s + r.len, pe + 1 + |c.params.text|);
  }

  /** The last '@' is the one of the user, if there is one. */
  lemma BehindOpening(buf: string, base: nat, a: int, h: int, pe: int)
    requires Opened(buf, base, a, |buf|) && base <= h < pe <= |buf| && NoneOf(buf, h, |buf|, {'@'})
    requires NoneOf(buf, h, pe, {';', '?'}) && (h == base || (base < h - 1 && Is(buf, h - 1, '@')))
    ensures a < pe && NoneOf(buf, a + 1, pe, {';', '?'})
  {
    if h != base {
      assert buf[h - 1] == '@';
    }
  }

  lemma FirstMarkAt(buf: string, a: int, r: Field, pe: int)
    requires ParamsAt(buf, a, r) && -1 <= a < pe <= |buf| && NoneOf(buf, a + 1, pe, {';', '?'})
    requires pe == |buf| || Is(buf, pe, ';') || Is(buf, pe, '?')
    ensures Is(buf, pe, ';') && r.s == pe + 1
  {
    assert buf[r.s - 1] == ';';
    assert pe < |buf| ==> buf[pe] in {';', '?'};
  }

  lemma RegionEnds(buf: string, a: int, r: Field)
    requires ParamsAt(buf, a, r)
    ensures r.len >= 0 && r.s + r.len <= |buf| && NoneOf(buf, r.s, r.s + r.len, {'?'})
            && (r.s + r.len == |buf| || Is(buf, r.s + r.len, '?'))
  {
  }

  lemma UserSize(c: Parts)
    requires CleanParts(c)
    ensures if c.user.None? then |UserOf(c)| == 0 else |UserOf(c)| >= 2
  {
    hide Bracket;
  }

  /** Where the parameters end. */
  lemma EndAt(scheme: string, c: Parts)
    requires CleanParts(c) && c.params.Some?
    ensures var buf := Render(scheme, c);
            var qe := |scheme| + |UserOf(c)| + |c.host| + |OptText(":", c.port)| + 1 + |c.params.text|;
            0 <= qe <= |buf| && (qe == |buf| || Is(buf, qe, '?')) && NoneOf(buf, qe - |c.params.text|, qe, {'?'})
  {
    hide Stands; hide Render; hide UserOf; hide Bracket; hide Cut; hide NoneOf;
    var buf := Render(scheme, c);
    var pe := |scheme| + |UserOf(c)| + |c.host| + |OptText(":", c.port)|;
    Pieces(scheme, c);
    OptLengths(c);
    hide OptText;
    Opted(buf, pe, ';', c.params);
    CleanAt(buf, pe + 1, c.params.text, {'?'});
    StandsText(buf, pe + 1, c.params.text);
    if c.headers.Some? {
      Opted(buf, pe + 1 + |c.params.text|, '?', c.headers);
    }
  }

  lemma SameEnd(buf: string, s: int, x: int, y: int)
    requires 0 <= s <= x <= |buf| && s <= y <= |buf| && NoneOf(buf, s, x, {'?'}) && NoneOf(buf, s, y, {'?'})
    requires (x == |buf| || Is(buf, x, '?')) && (y == |buf| || Is(buf, y, '?'))
    ensures x == y
  {
  }

  /** A parameter of the text cut out is one of the whole. */
  lemma Shifted(buf: string, t: string, at: nat, f: Field)
    requires at + |t| <= |buf| && buf[at..at + |t|] == t && GivesPhone(buf, f) && f.len == 5 && at < f.s - 5
             && f.s + 5 <= at + |t|
    ensures GivesPhone(t, Field(f.s - at, 5))
  {
    assert |NameOf(UserParam)| == 4;
    forall i | 0 <= i < |t| ensures t[i] == buf[at + i] {
      assert t[i] == buf[at..at + |t|][i];
    }
    var b := f.s - 5;
    assert ParamAt(buf, UserParam, FromTo(b, f.s + 5));
    assert Reads(buf, b, "user") && Reads(buf, f.s, "phone") by {
      assert forall i | 0 <= i < 5 :: "phone"[i] == "phone"[i];
    }
  }

  /** A `user=phone` recorded of the rendered text is one of the parameters. */
  lemma PhoneWithin(scheme: string, c: Parts, u: Uri)
    requires scheme in {"sip:", "sips:"} && CleanParts(c) && Parsed(Render(scheme, c)) == Ok(u)
    requires UserParam in u.vals && ReadsPhone(Render(scheme, c), u.vals[UserParam])
    ensures AsksPhone(c)
  {
    hide Parsed; hide Render; hide CleanParts; hide RecordsLast; hide ParamsAt; hide ReadsPhone; hide Scheme;
    hide Valued;
    hide Opened; hide GivesPhone;
    var buf, f := Render(scheme, c), u.vals[UserParam];
    var a := RecordsLastOnes(buf, u);
    RenderedScheme(scheme, c);
    var r :| ParamsAt(buf, a, r);
    RegionStarts(buf, |scheme|, a, r);
    PhoneValue(buf, u, f, r);
    RenderedParams(scheme, c, a, r);
    var t := ";" + c.params.text;
    CutIs(buf, r.s - 1, r.s + r.len, t);
    Shifted(buf, t, r.s - 1, f);
  }

  lemma RegionStarts(buf: string, base: nat, a: int, r: Field)
    requires Opened(buf, base, a, |buf|) && ParamsAt(buf, a, r)
    ensures Starts(buf, r.s)
  {
  }

  lemma CutIs(buf: string, a: int, e: int, t: string)
    requires Cut(buf, a, e) == t && t != ""
    ensures 0 <= a <= e <= |buf| && buf[a..a + |t|] == t && a + |t| == e
  {
  }

  lemma PhoneValue(buf: string, u: Uri, f: Field, r: Field)
    requires UserParam in u.vals && f == u.vals[UserParam] && ReadsPhone(buf, f)
             && RecordsLast(buf, u, r.s, r.s + r.len + 1) && Starts(buf, r.s)
    ensures GivesPhone(buf, f) && f.len == 5 && r.s - 1 < f.s - 5 && f.s + 5 <= r.s + r.len
  {
    hide Reads; hide NamesLast; hide ProtoLast;
    assert LastValued(buf, UserParam, f, r.s, r.s + r.len + 1);
    assert |NameOf(UserParam)| == 4;
    assert f.s - 5 >= r.s by {
      InParam(buf, f, r.s);
    }
  }

  /** A value behind `s` belongs to a parameter behind `s`. */
  lemma InParam(buf: string, f: Field, s: int)
    requires ValueAt(buf, UserParam, f) && s <= f.s && Starts(buf, s)
    ensures s <= f.s - 5
  {
    hide Reads;
    assert |NameOf(UserParam)| == 4;
  }

  /** Without `user=phone` rendering and parsing keep the type too: the components come back from
      every accepted text. */
  lemma RoundTripTyped(scheme: string, c: Parts)
    requires scheme in {"sip:", "sips:"} && CleanParts(c) && !AsksPhone(c)
    ensures var buf := Render(scheme, c);
            if CutShort(c) then Parsed(buf).Err?
            else Parsed(buf).Ok? && Parsed(buf).value.ty == (if scheme == "sip:" then SipUri.SipUri else SipsUri)
                 && PartsOf(buf, Parsed(buf).value) == c
  {
    hide Parsed; hide CleanParts; hide AsksPhone; hide CutShort; hide PartsOf; hide GivesPhone; hide UserOf;
    hide OptText; hide Scheme; hide ReadsPhone;
    var buf := Render(scheme, c);
    RoundTrip(scheme, c);
    if Parsed(buf).Ok? {
      var u := Parsed(buf).value;
      RenderedScheme(scheme, c);
      TypeKept(buf, u);
      if UserParam in u.vals && ReadsPhone(buf, u.vals[UserParam]) {
        PhoneWithin(scheme, c, u);
      }
    }
  }

  lemma RenderedScheme(scheme: string, c: Parts)
    requires scheme in {"sip:", "sips:"} && CleanParts(c)
    ensures Scheme(Render(scheme, c)) == Ok((if scheme == "sip:" then SipUri.SipUri else SipsUri, |scheme|))
  {
    hide Scheme; hide UserOf; hide OptText; hide CleanParts;
    HostNotEmpty(c);
    var rest := UserOf(c) + c.host + OptText(":", c.port) + OptText(";", c.params) + OptText("?", c.headers);
    assert Render(scheme, c) == scheme + rest;
    SchemeOf(scheme, rest);
  }
}
