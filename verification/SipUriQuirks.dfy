/** What `parse_uri` does that its tables do not suggest, each with the texts that show it. */
module SipUriQuirks {
  import opened SipUri
  import opened SipUriLayout
  import opened SipUriFinds
  import opened SipUriRoundTrip
  import P = SipUriParams

  // ---------- r2 ----------

  /** No state of `r2` has been entered and nothing has been recorded for it. */
  ghost predicate NoR2(v: Vars) {
    !OfR2(v.state) && v.param != To(R2) && R2 !in v.uri.names && R2 !in v.uri.vals
  }

  predicate OfR2(st: State) {
    st.PR2_R? || st.PR2_2_FIN? || st.PR2_EQ?
  }

  /** The tables lead to no state of `r2` from outside. */
  lemma NamesAvoid(st: State, c: char)
    ensures !OfR2(st) ==> !OfR2(NameNext(st, c))
  {
    hide Lower;
  }

  lemma OthersAvoid(st: State, c: char)
    ensures !OfR2(StartNext(c)) && !OfR2(EqNext(st, c)) && !OfR2(ValNext(st, c))
  {
    hide Lower;
  }

  lemma KindsAvoid(st: State)
    requires !OfR2(st)
    ensures (KindOf(st) == Eq ==> EqParam(st) != R2) && (KindOf(st) == Flag ==> st == PLR_R_FIN)
  {
  }

  lemma LeadAvoids(v: Vars, c: char, p: int)
    requires NoR2(v) && KindOf(v.state) == Lead && LeadStep(v, c, p).Ok?
    ensures NoR2(LeadStep(v, c, p).value)
  {
  }

  lemma CommonAvoids(v: Vars, c: char, p: int)
    requires NoR2(v) && Special(c)
    ensures ParamCommon(v, c, p).Ok? ==> NoR2(ParamCommon(v, c, p).value)
    ensures NoR2(ParamSet(v, p)) && NoR2(Semicolon(v)) && NoR2(Question(v, p)) && NoR2(Colon(v, p))
    ensures StillAtUser(v, p).Ok? ==> NoR2(StillAtUser(v, p).value)
  {
  }

  lemma ValueAvoids(v: Vars, c: char, p: int)
    requires NoR2(v) && Special(c) && ValueCommon(v, c, p, ProtoOf(v.state)).Ok?
    ensures NoR2(ValueCommon(v, c, p, ProtoOf(v.state)).value)
  {
    hide ProtoOf;
    CommonAvoids(v, c, p);
    SetAvoids(Semicolon(v), p);
    SetAvoids(Question(v, p), p);
  }

  lemma SetAvoids(v: Vars, p: int)
    requires NoR2(v)
    ensures NoR2(ParamSet(v, p)) && NoR2(SetName(v, Lr, p))
  {
  }

  lemma FlagAvoids(v: Vars, c: char, p: int)
    requires NoR2(v) && v.state == PLR_R_FIN && FlagStep(v, c, p).Ok?
    ensures NoR2(FlagStep(v, c, p).value)
  {
  }

  lemma HeadersAvoid(v: Vars, c: char, p: int)
    requires NoR2(v) && v.state == URI_HEADERS && HeadersStep(v, c, p).Ok?
    ensures NoR2(HeadersStep(v, c, p).value)
  {
  }

  /** No step enters a state of `r2`: the first letter falls through, and there is no other way in. */
  lemma StepAvoids(v: Vars, c: char, p: int)
    requires NoR2(v) && Step(v, c, p).Ok?
    ensures NoR2(Step(v, c, p).value)
  {
    hide LeadStep; hide ParamCommon; hide ValueCommon; hide FlagStep; hide HeadersStep; hide NameNext; hide EqNext;
    hide ValNext;
    hide StartNext; hide EqParam; hide ProtoOf; hide Marks;
    NamesAvoid(v.state, c);
    OthersAvoid(v.state, c);
    KindsAvoid(v.state);
    match KindOf(v.state)
    case Lead => LeadAvoids(v, c, p);
    case Start => if Special(c) { CommonAvoids(v, c, p); }
    case Plain => if Special(c) { CommonAvoids(v, c, p); }
    case Name => if Special(c) { CommonAvoids(v, c, p); }
    case Eq => if Special(c) { CommonAvoids(v.(param := To(EqParam(v.state))), c, p); }
    case Val => if Special(c) { ValueAvoids(v, c, p); }
    case Flag => FlagAvoids(v, c, p);
    case Headers =>
      OnlyHeaders(v.state);
      HeadersAvoid(v, c, p);
  }

  lemma OnlyHeaders(st: State)
    ensures KindOf(st) == Headers ==> st == URI_HEADERS
  {
  }

  lemma {:induction false} ScanAvoids(buf: string, v: Vars, p: nat)
    requires p <= |buf| && NoR2(v) && Scan(buf, v, p).Ok?
    ensures NoR2(Scan(buf, v, p).value)
    decreases |buf| - p
  {
    hide Step; hide NoR2;
    if p < |buf| {
      StepAvoids(v, buf[p], p);
      ScanAvoids(buf, Step(v, buf[p], p).value, p + 1);
    }
  }

  lemma FinishAvoids(v: Vars, p: int)
    requires NoR2(v) && Finish(v, p).Ok?
    ensures R2 !in Finish(v, p).value.names && R2 !in Finish(v, p).value.vals
  {
    hide ProtoOf;
    KindsAvoid(v.state);
    SetAvoids(v, p);
  }

  /** Of no text whatever is an `r2` parameter recorded. */
  lemma NeverRecordsR2(buf: string)
    requires Parsed(buf).Ok?
    ensures R2 !in Parsed(buf).value.names && R2 !in Parsed(buf).value.vals
  {
    hide Scan; hide Finish; hide Phone; hide FindSemicolon;
    var (ty, base) := Scheme(buf).value;
    ScanAvoids(buf, Initial(ty, base), base);
    FinishAvoids(Scan(buf, Initial(ty, base), base).value, |buf|);
  }

  // ---------- maddr ----------

  /** Host "h", and a last parameter. */
  function LastParam(name: string): Parts {
    Parts(None, None, "h", None, Some(name), None)
  }

  lemma TailIs(name: string)
    requires 2 <= |name| <= 6 && name == "maddr="[..|name|]
    ensures CutShort(LastParam(name))
  {
    var t := ";" + name;
    assert forall j | 0 <= j < |name| :: t[1 + j] == "maddr="[j] && Lower("maddr="[j]) == "maddr="[j];
    assert MaddrTail(t, 1, |name| - 1);
  }

  /** Each of the five endings is refused. */
  lemma MaddrRefused(n: nat)
    requires 2 <= n <= 6
    ensures Parsed("sip:h;" + "maddr="[..n]).Err?
  {
    hide Parsed; hide CutShort;
    var name := "maddr="[..n];
    TailIs(name);
    RoundTrip("sip:", LastParam(name));
    assert Render("sip:", LastParam(name)) == "sip:h;" + name;
  }

  // ---------- scheme ----------

  // ---------- letters and digits ----------

  const CAPITALS := "ABCDEFGHIJKLMNOPQRSTUVWXYZ"
  const SMALL := "abcdefghijklmnopqrstuvwxyz"
  const DIGITS := "0123456789"

  /** Names and values are compared without regard to case: a capital stands for its small letter, any other character
      for itself. */
  lemma LowerIs(c: char)
    ensures forall i | 0 <= i < 26 && CAPITALS[i] == c :: Lower(c) == SMALL[i]
    ensures c !in CAPITALS ==> Lower(c) == c
  {
    Alphabet();
    if 'A' <= c <= 'Z' {
      assert CAPITALS[c as int - 'A' as int] == c;
    }
  }

  lemma Alphabet()
    ensures |CAPITALS| == |SMALL| == 26
    ensures forall i | 0 <= i < 26 :: CAPITALS[i] as int == 'A' as int + i
    ensures forall i | 0 <= i < 26 :: SMALL[i] as int == 'a' as int + i
  {
  }

  /** The digits of a port are the ten digits with their values. */
  lemma DigitIs(c: char)
    ensures IsDigit(c) <==> c in DIGITS
    ensures forall i | 0 <= i < 10 && DIGITS[i] == c :: Digit(c) == i
  {
    assert forall i | 0 <= i < 10 :: DIGITS[i] as int == '0' as int + i;
    if '0' <= c <= '9' {
      assert DIGITS[c as int - '0' as int] == c;
    }
  }

  // ---------- schemes ----------

  /** The first four bytes are those of the scheme but for bit 5 of each, also of the colon of "sip:" and "tel:". */
  ghost predicate Begins(buf: string, a: set<char>, b: set<char>, c: set<char>, d: set<char>) {
    |buf| >= 5 && buf[0] in a && buf[1] in b && buf[2] in c && buf[3] in d
  }

  const COLON: set<char> := {':', 0x1A as char}

  /** The schemes, exactly. */
  lemma SchemeBytes(buf: string)
    ensures Scheme(buf) == Ok((SipUri.SipUri, 4)) <==> Begins(buf, {'s', 'S'}, {'i', 'I'}, {'p', 'P'}, COLON)
    ensures Scheme(buf) == Ok((SipsUri, 5)) <==>
              Begins(buf, {'s', 'S'}, {'i', 'I'}, {'p', 'P'}, {'s', 'S'}) && buf[4] == ':'
    ensures Scheme(buf) == Ok((TelUri, 4)) <==> Begins(buf, {'t', 'T'}, {'e', 'E'}, {'l', 'L'}, COLON)
    ensures Scheme(buf).Ok? ==> Scheme(buf).value in {(SipUri.SipUri, 4), (SipsUri, 5), (TelUri, 4)}
  {
    if |buf| >= 5 {
      SipBytes(buf);
      SipsBytes(buf);
      TelBytes(buf);
      hide SchemeIs;
    }
  }

  lemma SipBytes(buf: string)
    requires |buf| >= 5
    ensures SchemeIs(buf, "sip:") <==> Begins(buf, {'s', 'S'}, {'i', 'I'}, {'p', 'P'}, COLON)
  {
    assert "sip:"[0] == 's' && "sip:"[1] == 'i' && "sip:"[2] == 'p' && "sip:"[3] == ':';
    Bit5(buf[0], 's');
    Bit5(buf[1], 'i');
    Bit5(buf[2], 'p');
    Bit5(buf[3], ':');
  }

  lemma SipsBytes(buf: string)
    requires |buf| >= 5
    ensures SchemeIs(buf, "sips") <==> Begins(buf, {'s', 'S'}, {'i', 'I'}, {'p', 'P'}, {'s', 'S'})
  {
    assert "sips"[0] == 's' && "sips"[1] == 'i' && "sips"[2] == 'p' && "sips"[3] == 's';
    Bit5(buf[0], 's');
    Bit5(buf[1], 'i');
    Bit5(buf[2], 'p');
    Bit5(buf[3], 's');
  }

  lemma TelBytes(buf: string)
    requires |buf| >= 5
    ensures SchemeIs(buf, "tel:") <==> Begins(buf, {'t', 'T'}, {'e', 'E'}, {'l', 'L'}, COLON)
  {
    assert "tel:"[0] == 't' && "tel:"[1] == 'e' && "tel:"[2] == 'l' && "tel:"[3] == ':';
    Bit5(buf[0], 't');
    Bit5(buf[1], 'e');
    Bit5(buf[2], 'l');
    Bit5(buf[3], ':');
  }

  lemma Bit5(c: char, d: char)
    requires d in {'s', 'i', 'p', 't', 'e', 'l', ':'}
    ensures SetBit5(c) == d as int <==> c == d || c as int + 32 == d as int
  {
  }
}
