/** The parameters `parse_uri` recognizes: each recorded slice is a whole parameter of that name. */
module SipUriParams {
  import opened SipUri

  function NameOf(k: Param): string {
    match k
    case Transport => "transport"
    case Ttl => "ttl"
    case UserParam => "user"
    case Maddr => "maddr"
    case Method => "method"
    case Lr => "lr"
    case R2 => "r2"
  }

  /** What has been read of the parameter in the states that spell a name. */
  function Spelled(st: State): string {
    match st
    case PT_T => "t" case PT_R => "tr" case PT_A => "tra" case PT_N => "tran" case PT_S => "trans" case PT_P => "transp"
    case PT_O => "transpo" case PT_R2 => "transpor" case PT_T2 => "transport" case PT_EQ => "transport="
    case PTTL_T2 => "tt" case PTTL_L => "ttl" case PTTL_EQ => "ttl="
    case PU_U => "u" case PU_S => "us" case PU_E => "use" case PU_R => "user" case PU_EQ => "user="
    case PM_M => "m" case PM_E => "me" case PM_T => "met" case PM_H => "meth" case PM_O => "metho" case PM_D => "method"
    case PM_EQ => "method="
    case PMA_A => "ma" case PMA_D => "mad" case PMA_D2 => "madd" case PMA_R => "maddr" case PMA_EQ => "maddr="
    case PLR_L => "l" case PLR_R_FIN => "lr" case PLR_EQ => "lr="
    case PR2_R => "r" case PR2_2_FIN => "r2" case PR2_EQ => "r2="
    case _ => ""
  }

  /** What has been read of the value in the states that spell a transport. */
  function SpelledValue(st: State): string {
    match st
    case VU_U => "u" case VU_D => "ud" case VU_P_FIN => "udp"
    case VT_T => "t" case VT_C => "tc" case VT_P_FIN => "tcp"
    case VTLS_L => "tl" case VTLS_S_FIN => "tls"
    case VS_S => "s" case VS_C => "sc" case VS_T => "sct" case VS_P_FIN => "sctp"
    case _ => ""
  }

  function ProtoName(proto: int): string {
    if proto == PROTO_UDP then "udp" else if proto == PROTO_TCP then "tcp" else if proto == PROTO_TLS then "tls"
      else "sctp"
  }

  /** The text at `i` is `w`, whatever the case of its letters. */
  ghost predicate Reads(buf: string, i: int, w: string) {
    0 <= i && i + |w| <= |buf| && forall j | 0 <= j < |w| :: Lower(buf[i + j]) == w[j]
  }

  /** A parameter starts at `i`. */
  ghost predicate Starts(buf: string, i: int) {
    0 < i <= |buf| && buf[i - 1] == ';'
  }

  /** A parameter ends at `e`. */
  ghost predicate Ends(buf: string, e: int) {
    e == |buf| || (0 <= e < |buf| && (buf[e] == ';' || buf[e] == '?'))
  }

  ghost predicate Inner(buf: string, a: int, e: int) {
    forall i | a <= i < e && 0 <= i < |buf| :: buf[i] != ';' && buf[i] != '?' && buf[i] != '@'
  }

  /** `[f.s, f.s + f.len)` is a whole parameter called `k`. */
  ghost predicate ParamAt(buf: string, k: Param, f: Field) {
    var e := f.s + f.len;
    Starts(buf, f.s) && Reads(buf, f.s, NameOf(k)) && f.len >= |NameOf(k)| && Inner(buf, f.s, e) && Ends(buf, e)
    && (f.len > |NameOf(k)| ==> buf[f.s + |NameOf(k)|] == '=')
  }

  /** `f` is the value, not empty, of a parameter called `k`. */
  ghost predicate ValueAt(buf: string, k: Param, f: Field) {
    var b := f.s - |NameOf(k)| - 1;
    f.len > 0 && ParamAt(buf, k, FromTo(b, f.s + f.len))
  }

  /** Every recorded name and value is one, and the protocol was given by a `transport` parameter. */
  ghost predicate Recorded(buf: string, u: Uri) {
    (forall k | k in u.names :: ParamAt(buf, k, u.names[k]))
    && (forall k | k in u.vals :: ValueAt(buf, k, u.vals[k]))
    && ProtoGiven(buf, u.proto)
  }

  ghost predicate ProtoGiven(buf: string, proto: int) {
    proto == PROTO_NONE || (PROTO_UDP <= proto <= PROTO_SCTP && exists f :: GivesProto(buf, f, proto))
  }

  ghost predicate GivesProto(buf: string, f: Field, proto: int) {
    ValueAt(buf, Transport, f) && f.len == |ProtoName(proto)| && Reads(buf, f.s, ProtoName(proto))
  }

  // ---------- the invariant ----------

  ghost predicate Spelling(buf: string, v: Vars, p: nat) {
    Starts(buf, v.b) && p == v.b + |Spelled(v.state)| && Reads(buf, v.b, Spelled(v.state))
  }

  ghost predicate InValue(buf: string, v: Vars, p: nat) {
    v.param.To?
    && var k := v.param.param;
       Starts(buf, v.b) && v.v == v.b + |NameOf(k)| + 1 < p <= |buf| && Reads(buf, v.b, NameOf(k))
       && buf[v.v - 1] == '=' && Inner(buf, v.b, p)
       && (v.state != URI_VAL_P ==>
             k == Transport && p == v.v + |SpelledValue(v.state)| && Reads(buf, v.v, SpelledValue(v.state)))
  }

  ghost predicate Noted(buf: string, v: Vars, p: nat) {
    p <= |buf| && Recorded(buf, v.uri)
    && match KindOf(v.state)
       case Start => Starts(buf, p)
       case Name => Spelling(buf, v, p)
       case Eq => Spelling(buf, v, p)
       case Flag => Spelling(buf, v, p)
       case Val => InValue(buf, v, p)
       case _ => true
  }

  lemma ReadsMore(buf: string, i: int, w: string, p: nat, w': string)
    requires Reads(buf, i, w) && p == i + |w| < |buf| && |w'| == |w| + 1 && w' == w + [w'[|w|]]
             && Lower(buf[p]) == w'[|w|]
    ensures Reads(buf, i, w')
  {
    forall j | 0 <= j < |w'| ensures Lower(buf[i + j]) == w'[j] {
      if j < |w| {
        assert w'[j] == w[j];
      }
    }
  }

  /** A row of the name table extends the spelling by the letter it reads. */
  lemma NameRow(st: State, c: char)
    requires KindOf(st) == Name && NameNext(st, c) != URI_PARAM_P
    ensures Longer(Spelled(st), Spelled(NameNext(st, c)), c)
  {
    hide NameNext; hide Spelled; hide Longer;
    if st in {PT_T, PT_R, PT_A, PT_N, PT_S, PT_P, PT_O, PT_R2, PT_T2} {
      TransportRow(st, c);
    } else if st in {PM_M, PM_E, PM_T, PM_H, PM_O, PM_D} {
      MethodRow(st, c);
    } else {
      OtherRow(st, c);
    }
  }

  /** `w'` is `w` and the letter `c`, in lower case. */
  ghost predicate Longer(w: string, w': string, c: char) {
    |w'| == |w| + 1 && w' == w + [w'[|w|]] && Lower(c) == w'[|w|]
  }

  lemma TransportRow(st: State, c: char)
    requires st in {PT_T, PT_R, PT_A, PT_N, PT_S, PT_P, PT_O, PT_R2, PT_T2} && NameNext(st, c) != URI_PARAM_P
    ensures Longer(Spelled(st), Spelled(NameNext(st, c)), c)
  {
    assert Lower('=') == '=';
  }

  lemma MethodRow(st: State, c: char)
    requires st in {PM_M, PM_E, PM_T, PM_H, PM_O, PM_D} && NameNext(st, c) != URI_PARAM_P
    ensures Longer(Spelled(st), Spelled(NameNext(st, c)), c)
  {
    assert Lower('=') == '=';
  }

  lemma OtherRow(st: State, c: char)
    requires st in {PTTL_T2, PTTL_L, PU_U, PU_S, PU_E, PU_R, PMA_A, PMA_D, PMA_D2, PMA_R, PLR_L, PR2_R}
             && NameNext(st, c) != URI_PARAM_P
    ensures Longer(Spelled(st), Spelled(NameNext(st, c)), c)
  {
    assert Lower('=') == '=' && Lower('2') == '2';
  }

  lemma ValueRow(st: State, c: char)
    requires KindOf(st) == Val && ValNext(st, c) != URI_VAL_P
    ensures var w, w' := SpelledValue(st), SpelledValue(ValNext(st, c));
            st != URI_VAL_P && |w'| == |w| + 1 && w' == w + [w'[|w|]] && Lower(c) == w'[|w|]
  {
  }

  lemma NextKinds(st: State, c: char)
    ensures KindOf(NameNext(st, c)) in {Name, Eq, Flag, Plain}
    ensures KindOf(NameNext(st, c)) == Plain ==> NameNext(st, c) == URI_PARAM_P
  {
  }

  lemma ValueKinds(st: State, c: char)
    ensures KindOf(ValNext(st, c)) == Val && KindOf(EqNext(st, c)) == Val
  {
  }

  lemma StartKinds(c: char)
    ensures KindOf(StartNext(c)) in {Name, Plain}
    ensures KindOf(StartNext(c)) == Name ==> Marks(c) && Spelled(StartNext(c)) == [Lower(c)]
  {
  }

  lemma NameKeeps(buf: string, v: Vars, p: nat)
    requires KindOf(v.state) == Name && Noted(buf, v, p) && p < |buf| && !Special(buf[p])
    ensures Noted(buf, v.(state := NameNext(v.state, buf[p])), p + 1)
  {
    hide Recorded; hide NameNext; hide Spelled; hide Reads;
    NextKinds(v.state, buf[p]);
    if NameNext(v.state, buf[p]) != URI_PARAM_P {
      NameRow(v.state, buf[p]);
      ReadsMore(buf, v.b, Spelled(v.state), p, Spelled(NameNext(v.state, buf[p])));
    }
  }

  lemma StartKeeps(buf: string, v: Vars, p: nat)
    requires v.state == URI_PARAM && Noted(buf, v, p) && p < |buf|
    ensures Noted(buf, v.(state := StartNext(buf[p]), b := if Marks(buf[p]) then p else v.b), p + 1)
  {
    hide Recorded; hide StartNext; hide Marks; hide Spelled;
    StartKinds(buf[p]);
  }

  lemma EqSpelled(st: State)
    requires KindOf(st) == Eq
    ensures Spelled(st) == NameOf(EqParam(st)) + "="
  {
  }

  lemma EqKeeps(buf: string, v: Vars, p: nat)
    requires KindOf(v.state) == Eq && Noted(buf, v, p) && p < |buf| && !Special(buf[p])
    ensures Noted(buf, v.(param := To(EqParam(v.state)), v := p, state := EqNext(v.state, buf[p])), p + 1)
  {
    hide Recorded; hide NameNext; hide Spelled; hide NameOf; hide EqParam; hide EqNext;
    ValueKinds(v.state, buf[p]);
    EqSpelled(v.state);
    NameEqReads(buf, v.b, NameOf(EqParam(v.state)));
    PlainNames(EqParam(v.state));
    FirstOfValue(v.state, buf[p]);
    InnerReads(buf, v.b, NameOf(EqParam(v.state)) + "=");
  }

  lemma FirstOfValue(st: State, c: char)
    requires KindOf(st) == Eq
    ensures EqNext(st, c) == URI_VAL_P || (EqParam(st) == Transport && SpelledValue(EqNext(st, c)) == [Lower(c)])
  {
  }

  lemma PlainNames(k: Param)
    ensures var w := NameOf(k) + "="; forall j | 0 <= j < |w| :: w[j] != ';' && w[j] != '?' && w[j] != '@'
  {
  }

  lemma NameEqReads(buf: string, i: int, w: string)
    requires Reads(buf, i, w + "=")
    ensures Reads(buf, i, w) && buf[i + |w|] == '='
  {
    assert (w + "=")[|w|] == '=';
    assert Lower(buf[i + |w|]) == '=';
    forall j | 0 <= j < |w| ensures Lower(buf[i + j]) == w[j] {
      assert (w + "=")[j] == w[j];
    }
  }

  /** Text that reads as a word without separators has none. */
  lemma InnerReads(buf: string, i: int, w: string)
    requires Reads(buf, i, w) && forall j | 0 <= j < |w| :: w[j] != ';' && w[j] != '?' && w[j] != '@'
    ensures Inner(buf, i, i + |w|)
  {
    forall x | i <= x < i + |w| ensures buf[x] != ';' && buf[x] != '?' && buf[x] != '@' {
      assert Lower(buf[i + (x - i)]) == w[x - i];
    }
  }

  lemma ValKeeps(buf: string, v: Vars, p: nat)
    requires KindOf(v.state) == Val && Noted(buf, v, p) && p < |buf| && (!Special(buf[p]) || buf[p] == ':')
    ensures !Special(buf[p]) ==> Noted(buf, v.(state := ValNext(v.state, buf[p])), p + 1)
    ensures InValue(buf, v.(state := URI_VAL_P), p + 1)
  {
    hide Recorded; hide NameOf; hide ValNext; hide SpelledValue; hide Reads;
    ValueKinds(v.state, buf[p]);
    if !Special(buf[p]) && ValNext(v.state, buf[p]) != URI_VAL_P {
      ValueRow(v.state, buf[p]);
      ReadsMore(buf, v.v, SpelledValue(v.state), p, SpelledValue(ValNext(v.state, buf[p])));
    }
  }

  // ---------- recording ----------

  lemma RecordName(buf: string, u: Uri, k: Param, f: Field)
    requires Recorded(buf, u) && ParamAt(buf, k, f)
    ensures Recorded(buf, u.(names := u.names[k := f]))
  {
    hide ParamAt; hide ValueAt; hide ProtoGiven;
  }

  /** At the end of a value the parameter and its value are recorded. */
  lemma RecordValue(buf: string, v: Vars, p: nat)
    requires Recorded(buf, v.uri) && InValue(buf, v, p) && Ends(buf, p) && p <= |buf|
    ensures Recorded(buf, ParamSet(v, p).uri)
    ensures ValueAt(buf, v.param.param, FromTo(v.v, p))
  {
    hide Reads; hide NameOf; hide ProtoGiven;
    var k := v.param.param;
    assert ParamAt(buf, k, FromTo(v.b, p));
    assert ValueAt(buf, k, FromTo(v.v, p));
    RecordBoth(buf, v.uri, k, FromTo(v.b, p), FromTo(v.v, p));
  }

  lemma RecordBoth(buf: string, u: Uri, k: Param, f: Field, g: Field)
    requires Recorded(buf, u) && ParamAt(buf, k, f) && ValueAt(buf, k, g)
    ensures Recorded(buf, u.(names := u.names[k := f], vals := u.vals[k := g]))
  {
    hide ParamAt; hide ValueAt; hide ProtoGiven;
  }

  lemma ProtoSpelled(st: State)
    requires ProtoOf(st) != PROTO_NONE
    ensures SpelledValue(st) == ProtoName(ProtoOf(st)) && st != URI_VAL_P && PROTO_UDP <= ProtoOf(st) <= PROTO_SCTP
  {
  }

  lemma RecordProto(buf: string, v: Vars, p: nat, w: Vars)
    requires Recorded(buf, w.uri) && InValue(buf, v, p) && Ends(buf, p) && p <= |buf|
    ensures Recorded(buf, SetProto(w, ProtoOf(v.state)).uri)
  {
    hide Reads; hide NameOf; hide SpelledValue; hide ProtoOf; hide ProtoName; hide ParamAt;
    if ProtoOf(v.state) != PROTO_NONE {
      ProtoSpelled(v.state);
      RecordValueAt(buf, v, p);
      assert GivesProto(buf, FromTo(v.v, p), ProtoOf(v.state));
      Reproto(buf, w.uri, ProtoOf(v.state));
    }
  }

  lemma Reproto(buf: string, u: Uri, proto: int)
    requires Recorded(buf, u) && ProtoGiven(buf, proto)
    ensures Recorded(buf, u.(proto := proto))
  {
    hide ParamAt; hide ValueAt; hide ProtoGiven;
  }

  lemma RecordValueAt(buf: string, v: Vars, p: nat)
    requires InValue(buf, v, p) && Ends(buf, p) && p <= |buf|
    ensures ValueAt(buf, v.param.param, FromTo(v.v, p))
  {
    hide Reads; hide NameOf;
    assert ParamAt(buf, v.param.param, FromTo(v.b, p));
  }

  lemma FlagNames(st: State)
    requires st in {PLR_R_FIN, PR2_2_FIN, PLR_EQ, PR2_EQ}
    ensures var k := if st in {PLR_R_FIN, PLR_EQ} then Lr else R2;
            Spelled(st) == (if st in {PLR_EQ, PR2_EQ} then NameOf(k) + "=" else NameOf(k))
            && (st in {PLR_EQ, PR2_EQ} ==> EqParam(st) == k)
  {
  }

  lemma FlagSpelled(buf: string, v: Vars, p: nat)
    requires v.state in {PLR_R_FIN, PR2_2_FIN, PLR_EQ, PR2_EQ} && Spelling(buf, v, p) && p <= |buf| && Ends(buf, p)
    ensures ParamAt(buf, if v.state in {PLR_R_FIN, PLR_EQ} then Lr else R2, FromTo(v.b, p))
  {
    hide Reads; hide Inner; hide NameOf;
    InnerReads(buf, v.b, Spelled(v.state));
    FlagNames(v.state);
    if v.state in {PLR_EQ, PR2_EQ} {
      EqSpelled(v.state);
      NameEqReads(buf, v.b, NameOf(EqParam(v.state)));
    }
  }

  // ---------- one turn ----------

  /** The notes survive what the shared cases do to the other variables. */
  lemma NotesOnly(buf: string, u: Uri, u': Uri)
    requires Recorded(buf, u) && u'.names == u.names && u'.vals == u.vals && u'.proto == u.proto
    ensures Recorded(buf, u')
  {
  }

  lemma BlankRecorded(buf: string, u: Uri)
    requires u.names == map[] && u.vals == map[] && u.proto == PROTO_NONE
    ensures Recorded(buf, u)
  {
  }

  lemma AtNotes(buf: string, v: Vars, p: nat, w: Vars)
    requires StillAtUser(v, p) == Ok(w) && p < |buf|
    ensures Noted(buf, w, p + 1)
  {
    hide Recorded;
    BlankRecorded(buf, w.uri);
  }

  lemma CommonNotes(buf: string, v: Vars, p: nat, w: Vars)
    requires Recorded(buf, v.uri) && p < |buf| && Special(buf[p]) && ParamCommon(v, buf[p], p) == Ok(w)
    ensures Noted(buf, w, p + 1)
    ensures buf[p] != '@' ==> w.uri.names == v.uri.names && w.uri.vals == v.uri.vals && w.uri.proto == v.uri.proto
    ensures buf[p] != '@' ==> w.b == v.b && w.v == v.v && w.param == v.param
    ensures w.state == if buf[p] == '@' then URI_HOST else if buf[p] == ';' then URI_PARAM
              else if buf[p] == '?' then URI_HEADERS else URI_PARAM_P
  {
    hide Recorded;
    if buf[p] == '@' {
      AtNotes(buf, v, p, w);
    } else {
      NotesOnly(buf, v.uri, w.uri);
    }
  }

  lemma ValueNotes(buf: string, v: Vars, p: nat, w: Vars)
    requires Noted(buf, v, p) && p < |buf| && Special(buf[p]) && KindOf(v.state) == Val
    requires ValueCommon(v, buf[p], p, ProtoOf(v.state)) == Ok(w)
    ensures Noted(buf, w, p + 1)
  {
    hide Recorded; hide InValue; hide ProtoOf; hide StillAtUser; hide Semicolon; hide Question; hide Colon;
    hide Spelling; hide Starts;
    var c := ParamCommon(v, buf[p], p);
    if c.Ok? {
      CommonNotes(buf, v, p, c.value);
      if buf[p] == ';' || buf[p] == '?' {
        SameNotes(buf, v, c.value.(state := v.state), p);
        RecordValue(buf, c.value.(state := v.state), p);
        SetAnyState(c.value, v.state, p);
        RecordProto(buf, v, p, ParamSet(c.value, p));
      } else if buf[p] == ':' {
        ValKeeps(buf, v, p);
        SameNotes(buf, v.(state := URI_VAL_P), c.value.(state := URI_VAL_P), p + 1);
      }
    }
  }

  lemma SetAnyState(v: Vars, st: State, p: int)
    ensures ParamSet(v.(state := st), p).uri == ParamSet(v, p).uri && ParamSet(v, p).state == v.state
  {
  }

  lemma SameNotes(buf: string, v: Vars, w: Vars, p: nat)
    requires InValue(buf, v, p) && w.b == v.b && w.v == v.v && w.param == v.param && w.state == v.state
    ensures InValue(buf, w, p)
  {
  }

  lemma FlagNotes(buf: string, v: Vars, p: nat, w: Vars)
    requires Noted(buf, v, p) && p < |buf| && v.state in {PLR_R_FIN, PR2_2_FIN} && FlagStep(v, buf[p], p) == Ok(w)
    ensures Noted(buf, w, p + 1)
  {
    hide Recorded; hide Spelling; hide InValue; hide StillAtUser; hide Semicolon; hide Question; hide Colon;
    hide ParamAt;
    if Special(buf[p]) {
      var c := ParamCommon(v, buf[p], p);
      CommonNotes(buf, v, p, c.value);
      if buf[p] == ';' || buf[p] == '?' {
        FlagSpelled(buf, v, p);
        NotesOnly(buf, v.uri, c.value.uri);
        RecordName(buf, c.value.uri, if v.state == PLR_R_FIN then Lr else R2, FromTo(v.b, p));
      }
    } else if buf[p] == '=' {
      FlagEq(buf, v, p);
    }
  }

  lemma FlagEq(buf: string, v: Vars, p: nat)
    requires v.state in {PLR_R_FIN, PR2_2_FIN} && Spelling(buf, v, p) && p < |buf| && buf[p] == '='
    ensures Spelling(buf, v.(state := if v.state == PLR_R_FIN then PLR_EQ else PR2_EQ), p + 1)
  {
    assert Lower('=') == '=';
    ReadsMore(buf, v.b, Spelled(v.state), p, Spelled(v.state) + "=");
  }

  lemma HeadersNotes(buf: string, v: Vars, p: nat, w: Vars)
    requires Noted(buf, v, p) && p < |buf| && v.state == URI_HEADERS && HeadersStep(v, buf[p], p) == Ok(w)
    ensures Noted(buf, w, p + 1)
  {
    hide Recorded;
    if buf[p] == '@' {
      AtNotes(buf, v, p, w);
    } else {
      NotesOnly(buf, v.uri, w.uri);
    }
  }

  lemma LeadNotes(buf: string, v: Vars, p: nat, w: Vars)
    requires Noted(buf, v, p) && p < |buf| && KindOf(v.state) == Lead && LeadStep(v, buf[p], p) == Ok(w)
    ensures Noted(buf, w, p + 1)
  {
    hide Recorded; hide LeadStep; hide Spelling; hide InValue;
    LeadSame(v, buf[p], p);
    NotesOnly(buf, v.uri, w.uri);
  }

  lemma LeadSame(v: Vars, c: char, p: int)
    requires LeadStep(v, c, p).Ok?
    ensures var w := LeadStep(v, c, p).value;
            w.uri.names == v.uri.names && w.uri.vals == v.uri.vals && w.uri.proto == v.uri.proto
            && KindOf(w.state) in {Lead, Headers, Start} && (KindOf(w.state) == Start ==> c == ';')
  {
  }

  lemma StepNotes(buf: string, v: Vars, p: nat, w: Vars)
    requires p < |buf| && Noted(buf, v, p) && Step(v, buf[p], p) == Ok(w)
    ensures Noted(buf, w, p + 1)
  {
    hide LeadStep; hide FlagStep; hide HeadersStep; hide ParamCommon; hide ValueCommon; hide Noted; hide Recorded;
    hide NameNext; hide ValNext; hide EqNext; hide StartNext; hide ProtoOf; hide EqParam; hide Marks;
    InNoted(buf, v, p);
    match KindOf(v.state)
    case Lead => LeadNotes(buf, v, p, w);
    case Headers => HeadersNotes(buf, v, p, w);
    case Flag => FlagNotes(buf, v, p, w);
    case Val => if Special(buf[p]) { ValueNotes(buf, v, p, w); } else { ValKeeps(buf, v, p); }
    case Eq => if Special(buf[p]) { CommonNotes(buf, v.(param := To(EqParam(v.state))), p, w); }
      else { EqKeeps(buf, v, p); }
    case Name => if Special(buf[p]) { CommonNotes(buf, v, p, w); } else { NameKeeps(buf, v, p); }
    case Start => if Special(buf[p]) { CommonNotes(buf, v, p, w); } else { StartKeeps(buf, v, p); }
    case Plain => if Special(buf[p]) { CommonNotes(buf, v, p, w); } else { PlainNoted(buf, v, p); }
  }

  lemma InNoted(buf: string, v: Vars, p: nat)
    requires Noted(buf, v, p)
    ensures Recorded(buf, v.uri) && p <= |buf|
  {
  }

  lemma PlainNoted(buf: string, v: Vars, p: nat)
    requires Noted(buf, v, p) && p < |buf| && KindOf(v.state) == Plain
    ensures Noted(buf, v, p + 1)
  {
  }

  lemma {:induction false} ScanNotes(buf: string, v: Vars, p: nat, w: Vars)
    requires Noted(buf, v, p) && p <= |buf| && Scan(buf, v, p) == Ok(w)
    ensures Noted(buf, w, |buf|)
    decreases |buf| - p
  {
    hide Step; hide Noted;
    if p < |buf| {
      StepNotes(buf, v, p, Step(v, buf[p], p).value);
      ScanNotes(buf, Step(v, buf[p], p).value, p + 1, w);
    }
  }

  lemma FinishNotes(buf: string, v: Vars, u: Uri)
    requires Noted(buf, v, |buf|) && Finish(v, |buf|) == Ok(u)
    ensures Recorded(buf, u)
  {
    hide Recorded; hide ProtoOf; hide Reads; hide ParamAt; hide InValue; hide Spelling; hide Starts; hide EqParam;
    var n := |buf|;
    if v.state in {PLR_R_FIN, PR2_2_FIN, PLR_EQ, PR2_EQ} {
      FlagSpelled(buf, v, n);
      RecordName(buf, v.uri, if v.state in {PLR_R_FIN, PLR_EQ} then Lr else R2, FromTo(v.b, n));
      NotesOnly(buf, SetName(v, if v.state in {PLR_R_FIN, PLR_EQ} then Lr else R2, n).uri, u);
    } else if KindOf(v.state) == Val {
      RecordValue(buf, v, n);
      RecordProto(buf, v, n, ParamSet(v, n));
      NotesOnly(buf, SetProto(ParamSet(v, n), ProtoOf(v.state)).uri, u);
    } else {
      NotesOnly(buf, v.uri, u);
    }
  }

  /** Of whatever text, the parameters recorded are whole parameters of these names, with their values. */
  lemma RecordsOnlyParams(buf: string, u: Uri)
    requires Parsed(buf) == Ok(u)
    ensures Recorded(buf, u)
  {
    hide Scan; hide Finish; hide Recorded; hide Phone; hide FindSemicolon;
    var (ty, base) := Scheme(buf).value;
    var v := Scan(buf, Initial(ty, base), base).value;
    BlankRecorded(buf, Blank(ty));
    ScanNotes(buf, Initial(ty, base), base, v);
    FinishNotes(buf, v, Finish(v, |buf|).value);
    NotesOnly(buf, Finish(v, |buf|).value, u);
  }
}
