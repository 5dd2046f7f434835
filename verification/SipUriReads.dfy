/** What the tables of `parse_uri` recognize: every named parameter with a value, except `r2`, is recorded when it
    ends. */
module SipUriReads {
  import opened SipUri
  import opened SipUriParams

  /** The states that spell "<name>=", letter by letter. */
  function Chain(k: Param): seq<State> {
    match k
    case Transport => [PT_T, PT_R, PT_A, PT_N, PT_S, PT_P, PT_O, PT_R2, PT_T2, PT_EQ]
    case Ttl => [PT_T, PTTL_T2, PTTL_L, PTTL_EQ]
    case UserParam => [PU_U, PU_S, PU_E, PU_R, PU_EQ]
    case Method => [PM_M, PM_E, PM_T, PM_H, PM_O, PM_D, PM_EQ]
    case Maddr => [PM_M, PMA_A, PMA_D, PMA_D2, PMA_R, PMA_EQ]
    case Lr => [PLR_L, PLR_R_FIN, PLR_EQ]
    case R2 => [PR2_R, PR2_2_FIN, PR2_EQ]
  }

  function Word(k: Param): string {
    NameOf(k) + "="
  }

  lemma WordParts(k: Param)
    ensures |Word(k)| == |NameOf(k)| + 1 && Word(k)[|NameOf(k)|] == '=' && |Chain(k)| == |Word(k)| && |NameOf(k)| >= 2
    ensures KindOf(Chain(k)[|NameOf(k)|]) == Eq && EqParam(Chain(k)[|NameOf(k)|]) == k
  {
  }

  lemma One(buf: string, v: Vars, p: nat, w: Vars)
    requires p < |buf| && Step(v, buf[p], p) == Ok(w)
    ensures Scan(buf, v, p) == Scan(buf, w, p + 1)
  {
    hide Step;
  }

  lemma LowerPlain(c: char)
    ensures Lower(c) == '=' ==> c == '='
    ensures Lower(c) in {'@', ';', '?', ':'} <==> Special(c)
  {
  }

  lemma ChainStart(k: Param, c: char)
    requires k != R2 && Lower(c) == Word(k)[0]
    ensures |Chain(k)| > 0 && StartNext(c) == Chain(k)[0] && Marks(c) && !Special(c)
  {
  }

  /** The row of the table for the letter at `i` leads on along the chain. */
  lemma ChainRow(k: Param, i: nat, c: char)
    requires k != R2 && |Word(k)| == |Chain(k)| && i + 1 < |Word(k)| && Lower(c) == Word(k)[i + 1]
    ensures KindOf(Chain(k)[i]) in {Name, Flag} && !Special(c)
    ensures KindOf(Chain(k)[i]) == Name ==> NameNext(Chain(k)[i], c) == Chain(k)[i + 1]
    ensures KindOf(Chain(k)[i]) == Flag ==> c == '=' && Chain(k)[i] == PLR_R_FIN && Chain(k)[i + 1] == PLR_EQ
  {
    hide NameNext; hide KindOf; hide Word; hide Special; hide Lower; hide Chain;
    LowerPlain(c);
    WordLetter(k, i + 1);
    ChainKind(k, i);
    if k == Transport {
      TransportRow(i, c);
    } else if k == Method {
      MethodRow(i, c);
    } else if k == Maddr {
      MaddrRow(i, c);
    } else {
      ShortRow(k, i, c);
    }
  }

  lemma WordLetter(k: Param, i: nat)
    requires i < |Word(k)|
    ensures Word(k)[i] !in {'@', ';', '?', ':'}
  {
  }

  lemma ChainKind(k: Param, i: nat)
    requires k != R2 && |Word(k)| == |Chain(k)| && i + 1 < |Word(k)|
    ensures KindOf(Chain(k)[i]) in {Name, Flag}
    ensures KindOf(Chain(k)[i]) == Flag ==>
              Word(k)[i + 1] == '=' && Chain(k)[i] == PLR_R_FIN && Chain(k)[i + 1] == PLR_EQ
  {
  }

  lemma TransportRow(i: nat, c: char)
    requires |Word(Transport)| == |Chain(Transport)| && i + 1 < |Word(Transport)| && Lower(c) == Word(Transport)[i + 1]
    ensures NameNext(Chain(Transport)[i], c) == Chain(Transport)[i + 1]
  {
    hide Lower;
    LowerPlain(c);
  }

  lemma MethodRow(i: nat, c: char)
    requires |Word(Method)| == |Chain(Method)| && i + 1 < |Word(Method)| && Lower(c) == Word(Method)[i + 1]
    ensures NameNext(Chain(Method)[i], c) == Chain(Method)[i + 1]
  {
    hide Lower;
    LowerPlain(c);
  }

  lemma MaddrRow(i: nat, c: char)
    requires |Word(Maddr)| == |Chain(Maddr)| && i + 1 < |Word(Maddr)| && Lower(c) == Word(Maddr)[i + 1]
    ensures NameNext(Chain(Maddr)[i], c) == Chain(Maddr)[i + 1]
  {
    hide Lower;
    LowerPlain(c);
  }

  lemma TtlRow(k: Param, i: nat, c: char)
    requires k == Ttl && |Word(k)| == |Chain(k)| && i + 1 < |Word(k)| && Lower(c) == Word(k)[i + 1]
    ensures KindOf(Chain(k)[i]) == Name ==> NameNext(Chain(k)[i], c) == Chain(k)[i + 1]
  {
    hide Lower;
    LowerPlain(c);
  }

  lemma UserRow(k: Param, i: nat, c: char)
    requires k == UserParam && |Word(k)| == |Chain(k)| && i + 1 < |Word(k)| && Lower(c) == Word(k)[i + 1]
    ensures KindOf(Chain(k)[i]) == Name ==> NameNext(Chain(k)[i], c) == Chain(k)[i + 1]
  {
    hide Lower;
    LowerPlain(c);
  }

  lemma LrRow(k: Param, i: nat, c: char)
    requires k == Lr && |Word(k)| == |Chain(k)| && i + 1 < |Word(k)| && Lower(c) == Word(k)[i + 1]
    ensures KindOf(Chain(k)[i]) == Name ==> NameNext(Chain(k)[i], c) == Chain(k)[i + 1]
  {
    hide Lower;
    LowerPlain(c);
  }

  lemma ShortRow(k: Param, i: nat, c: char)
    requires k in {Ttl, UserParam, Lr} && |Word(k)| == |Chain(k)| && i + 1 < |Word(k)| && Lower(c) == Word(k)[i + 1]
    ensures KindOf(Chain(k)[i]) == Name ==> NameNext(Chain(k)[i], c) == Chain(k)[i + 1]
  {
    hide Word; hide Chain; hide NameNext; hide Lower; hide KindOf;
    match k
    case Ttl => TtlRow(k, i, c);
    case UserParam => UserRow(k, i, c);
    case _ => LrRow(k, i, c);
  }

  /** The first `i + 1` letters of "<name>=" lead to the `i`-th state of the chain. */
  lemma {:induction false} ReadsPrefix(buf: string, v: Vars, p: nat, k: Param, i: nat)
    requires k != R2 && v.state == URI_PARAM && i < |Word(k)| && Reads(buf, p, Word(k)[..i + 1])
    ensures |Chain(k)| == |Word(k)| && Scan(buf, v, p) == Scan(buf, v.(state := Chain(k)[i], b := p), p + i + 1)
  {
    hide Step; hide Chain; hide Word; hide Scan; hide NameNext; hide KindOf; hide Special; hide Marks;
    WordParts(k);
    var w := Word(k)[..i + 1];
    assert Lower(buf[p + i]) == w[i] == Word(k)[i];
    if i == 0 {
      ChainStart(k, buf[p]);
      StepStart(v, buf[p], p);
      One(buf, v, p, v.(state := Chain(k)[0], b := p));
    } else {
      PrefixReads(buf, p, w, i);
      assert w[..i] == Word(k)[..i];
      ReadsPrefix(buf, v, p, k, i - 1);
      ChainRow(k, i - 1, buf[p + i]);
      var x := v.(state := Chain(k)[i - 1], b := p);
      StepName(x, buf[p + i], p + i, Chain(k)[i]);
      One(buf, x, p + i, x.(state := Chain(k)[i]));
    }
  }

  lemma PrefixReads(buf: string, p: int, w: string, i: nat)
    requires Reads(buf, p, w) && i <= |w|
    ensures Reads(buf, p, w[..i])
  {
  }

  lemma StepStart(v: Vars, c: char, p: nat)
    requires v.state == URI_PARAM && !Special(c) && Marks(c)
    ensures Step(v, c, p) == Ok(v.(state := StartNext(c), b := p))
  {
    hide Marks; hide StartNext;
  }

  lemma StepName(v: Vars, c: char, p: nat, next: State)
    requires !Special(c) && KindOf(v.state) in {Name, Flag}
    requires KindOf(v.state) == Name ==> NameNext(v.state, c) == next
    requires KindOf(v.state) == Flag ==> c == '=' && v.state == PLR_R_FIN && next == PLR_EQ
    ensures Step(v, c, p) == Ok(v.(state := next))
  {
    hide NameNext;
  }

  // ---------- values ----------

  ghost predicate Value(buf: string, q: nat, e: nat) {
    q < e <= |buf| && Inner(buf, q, e) && buf[q] != ':'
  }

  ghost predicate Reading(v: Vars, k: Param, b: int, q: int) {
    KindOf(v.state) == Val && v.param == To(k) && v.b == b && v.v == q
  }

  lemma ValueOne(v: Vars, c: char, p: nat, k: Param, b: int, q: int)
    requires Reading(v, k, b, q) && c !in {';', '?', '@'}
    ensures Step(v, c, p).Ok? && Reading(Step(v, c, p).value, k, b, q)
    ensures !Special(c) ==> Step(v, c, p).value == v.(state := ValNext(v.state, c))
  {
    hide ProtoOf; hide ValNext;
    ValueKinds(v.state, c);
  }

  lemma {:induction false} ValueRun(buf: string, v: Vars, p: nat, e: nat, k: Param, b: int, q: int) returns (w: Vars)
    requires Reading(v, k, b, q) && p <= e <= |buf| && Inner(buf, p, e)
    ensures Scan(buf, v, p) == Scan(buf, w, e) && Reading(w, k, b, q)
    decreases e - p
  {
    hide Step; hide Reading;
    w := v;
    if p < e {
      ValueOne(v, buf[p], p, k, b, q);
      var x := Step(v, buf[p], p).value;
      One(buf, v, p, x);
      w := ValueRun(buf, x, p + 1, e, k, b, q);
    }
  }

  lemma StepEq(v: Vars, c: char, p: nat, k: Param)
    requires KindOf(v.state) == Eq && EqParam(v.state) == k && !Special(c)
    ensures Step(v, c, p) == Ok(v.(param := To(k), v := p, state := EqNext(v.state, c)))
            && KindOf(EqNext(v.state, c)) == Val
  {
    hide EqParam; hide EqNext;
    ValueKinds(v.state, c);
  }

  lemma StepEnd(v: Vars, c: char, e: nat, k: Param, b: int, q: int)
    requires Reading(v, k, b, q) && c in {';', '?'}
    ensures Step(v, c, e).Ok?
    ensures var u := Step(v, c, e).value.uri;
            k in u.names && u.names[k] == FromTo(b, e) && k in u.vals && u.vals[k] == FromTo(q, e)
            && (ProtoOf(v.state) != PROTO_NONE ==> u.proto == ProtoOf(v.state))
  {
    hide ProtoOf;
  }

  lemma FinishEnd(v: Vars, e: nat, k: Param, b: int, q: int)
    requires Reading(v, k, b, q)
    ensures Finish(v, e).Ok?
    ensures var u := Finish(v, e).value;
            k in u.names && u.names[k] == FromTo(b, e) && k in u.vals && u.vals[k] == FromTo(q, e)
            && (ProtoOf(v.state) != PROTO_NONE ==> u.proto == ProtoOf(v.state))
  {
    hide ProtoOf;
  }

  /** The structure just after a parameter that ends at `e`. */
  ghost function AfterParam(buf: string, v: Vars, e: nat): Res<Uri>
    requires e <= |buf|
  {
    if e == |buf| then Finish(v, e)
    else match Step(v, buf[e], e) case Ok(w) => Ok(w.uri) case Err(x) => Err(x)
  }

  ghost predicate Records(r: Res<Uri>, k: Param, p: int, q: int, e: int) {
    r.Ok? && k in r.value.names && r.value.names[k] == FromTo(p, e) && k in r.value.vals
    && r.value.vals[k] == FromTo(q, e)
  }

  /** From the start of a parameter "<name>=<value>", in letters of either case, to its end: it is recorded. */
  lemma RecordsParam(buf: string, v: Vars, p: nat, k: Param, e: nat) returns (w: Vars)
    requires k != R2 && v.state == URI_PARAM && Reads(buf, p, Word(k))
    requires Value(buf, p + |Word(k)|, e) && Ends(buf, e)
    ensures Scan(buf, v, p) == Scan(buf, w, e) && Records(AfterParam(buf, w, e), k, p, p + |Word(k)|, e)
  {
    hide Step; hide Chain; hide Scan; hide Reading; hide KindOf; hide EqParam; hide EqNext; hide Finish;
    WordParts(k);
    var i := |NameOf(k)|;
    assert Word(k)[..i + 1] == Word(k);
    ReadsPrefix(buf, v, p, k, i);
    var q := p + i + 1;
    var x := v.(state := Chain(k)[i], b := p);
    StepEq(x, buf[q], q, k);
    var y := x.(param := To(k), v := q, state := EqNext(x.state, buf[q]));
    One(buf, x, q, y);
    StartsReading(y, k, p, q);
    w := ValueRun(buf, y, q + 1, e, k, p, q);
    if e == |buf| {
      FinishEnd(w, e, k, p, q);
    } else {
      StepEnd(w, buf[e], e, k, p, q);
    }
  }

  lemma StartsReading(v: Vars, k: Param, b: int, q: int)
    requires KindOf(v.state) == Val && v.param == To(k) && v.b == b && v.v == q
    ensures Reading(v, k, b, q)
  {
  }

  // ---------- transports ----------

  function ValueChain(proto: int): seq<State> {
    if proto == PROTO_UDP then [VU_U, VU_D, VU_P_FIN] else if proto == PROTO_TCP then [VT_T, VT_C, VT_P_FIN]
    else if proto == PROTO_TLS then [VT_T, VTLS_L, VTLS_S_FIN] else [VS_S, VS_C, VS_T, VS_P_FIN]
  }

  lemma ValueChainRow(proto: int, i: nat, c: char)
    requires |ProtoName(proto)| == |ValueChain(proto)| && i < |ProtoName(proto)| && Lower(c) == ProtoName(proto)[i]
    ensures !Special(c) && c !in {';', '?', '@'}
    ensures i == 0 ==> EqNext(PT_EQ, c) == ValueChain(proto)[0]
    ensures i > 0 ==> ValNext(ValueChain(proto)[i - 1], c) == ValueChain(proto)[i]
    ensures KindOf(ValueChain(proto)[i]) == Val
  {
    hide KindOf; hide Special; hide ValNext; hide EqNext;
    LowerPlain(c);
    ValueLetter(proto, i);
    ValueState(proto, i);
    ValueNext(proto, i, c);
  }

  lemma ValueLetter(proto: int, i: nat)
    requires i < |ProtoName(proto)|
    ensures ProtoName(proto)[i] !in {'@', ';', '?', ':', '='}
  {
  }

  lemma ValueState(proto: int, i: nat)
    requires i < |ValueChain(proto)|
    ensures KindOf(ValueChain(proto)[i]) == Val
  {
  }

  lemma UdpNext(proto: int, i: nat, c: char)
    requires |ProtoName(proto)| == |ValueChain(proto)| && i < |ProtoName(proto)| && Lower(c) == ProtoName(proto)[i]
    requires proto == PROTO_UDP
    ensures i == 0 ==> EqNext(PT_EQ, c) == ValueChain(proto)[0]
    ensures i > 0 ==> ValNext(ValueChain(proto)[i - 1], c) == ValueChain(proto)[i]
  {
    hide Lower;
  }

  lemma TcpNext(proto: int, i: nat, c: char)
    requires |ProtoName(proto)| == |ValueChain(proto)| && i < |ProtoName(proto)| && Lower(c) == ProtoName(proto)[i]
    requires proto == PROTO_TCP
    ensures i == 0 ==> EqNext(PT_EQ, c) == ValueChain(proto)[0]
    ensures i > 0 ==> ValNext(ValueChain(proto)[i - 1], c) == ValueChain(proto)[i]
  {
    hide Lower;
  }

  lemma TlsNext(proto: int, i: nat, c: char)
    requires |ProtoName(proto)| == |ValueChain(proto)| && i < |ProtoName(proto)| && Lower(c) == ProtoName(proto)[i]
    requires proto == PROTO_TLS
    ensures i == 0 ==> EqNext(PT_EQ, c) == ValueChain(proto)[0]
    ensures i > 0 ==> ValNext(ValueChain(proto)[i - 1], c) == ValueChain(proto)[i]
  {
    hide Lower;
  }

  lemma SctpNext(proto: int, i: nat, c: char)
    requires |ProtoName(proto)| == |ValueChain(proto)| && i < |ProtoName(proto)| && Lower(c) == ProtoName(proto)[i]
    requires proto !in {PROTO_UDP, PROTO_TCP, PROTO_TLS}
    ensures i == 0 ==> EqNext(PT_EQ, c) == ValueChain(proto)[0]
    ensures i > 0 ==> ValNext(ValueChain(proto)[i - 1], c) == ValueChain(proto)[i]
  {
    hide Lower;
  }

  lemma ValueNext(proto: int, i: nat, c: char)
    requires |ProtoName(proto)| == |ValueChain(proto)| && i < |ProtoName(proto)| && Lower(c) == ProtoName(proto)[i]
    ensures i == 0 ==> EqNext(PT_EQ, c) == ValueChain(proto)[0]
    ensures i > 0 ==> ValNext(ValueChain(proto)[i - 1], c) == ValueChain(proto)[i]
  {
    hide Lower; hide ProtoName; hide ValueChain; hide EqNext; hide ValNext;
    if proto == PROTO_UDP {
      UdpNext(proto, i, c);
    } else if proto == PROTO_TCP {
      TcpNext(proto, i, c);
    } else if proto == PROTO_TLS {
      TlsNext(proto, i, c);
    } else {
      SctpNext(proto, i, c);
    }
  }

  lemma ValueChainEnd(proto: int)
    requires PROTO_UDP <= proto <= PROTO_SCTP
    ensures |ProtoName(proto)| == |ValueChain(proto)| >= 3
            && ProtoOf(ValueChain(proto)[|ProtoName(proto)| - 1]) == proto
  {
  }

  lemma {:induction false} ReadsValue(buf: string, v: Vars, q: nat, proto: int, i: nat)
    requires PROTO_UDP <= proto <= PROTO_SCTP && v.state == PT_EQ && i < |ProtoName(proto)|
             && Reads(buf, q, ProtoName(proto)[..i + 1])
    ensures |ValueChain(proto)| == |ProtoName(proto)|
    ensures Scan(buf, v, q) == Scan(buf, v.(param := To(Transport), v := q, state := ValueChain(proto)[i]), q + i + 1)
  {
    hide Step; hide ValueChain; hide ProtoName; hide Scan; hide ValNext; hide KindOf; hide Special;
    ValueChainEnd(proto);
    var w := ProtoName(proto)[..i + 1];
    assert Lower(buf[q + i]) == w[i] == ProtoName(proto)[i];
    ValueChainRow(proto, i, buf[q + i]);
    if i == 0 {
      EqIsEq();
      StepEq(v, buf[q], q, Transport);
      One(buf, v, q, v.(param := To(Transport), v := q, state := ValueChain(proto)[0]));
    } else {
      PrefixReads(buf, q, w, i);
      assert w[..i] == ProtoName(proto)[..i];
      ReadsValue(buf, v, q, proto, i - 1);
      ValueChainRow(proto, i - 1, buf[q + i - 1]) by {
        assert Lower(buf[q + (i - 1)]) == w[i - 1];
      }
      var x := v.(param := To(Transport), v := q, state := ValueChain(proto)[i - 1]);
      StartsReading(x, Transport, x.b, q);
      ValueOne(x, buf[q + i], q + i, Transport, x.b, q);
      One(buf, x, q + i, x.(state := ValueChain(proto)[i]));
    }
  }

  lemma EqIsEq()
    ensures KindOf(PT_EQ) == Eq && EqParam(PT_EQ) == Transport
  {
  }

  /** A parameter "transport=udp" (tcp, tls, sctp) sets the protocol when it ends. */
  lemma SetsProto(buf: string, v: Vars, p: nat, proto: int) returns (w: Vars)
    requires PROTO_UDP <= proto <= PROTO_SCTP && v.state == URI_PARAM && Reads(buf, p, "transport=" + ProtoName(proto))
    requires Ends(buf, p + 10 + |ProtoName(proto)|)
    ensures var e := p + 10 + |ProtoName(proto)|;
            Scan(buf, v, p) == Scan(buf, w, e) && AfterParam(buf, w, e).Ok?
            && AfterParam(buf, w, e).value.proto == proto
  {
    hide Step; hide Scan; hide Finish; hide ProtoOf; hide KindOf; hide Chain; hide ProtoName; hide ValueChain;
    ReadsTransport(buf, v, p, ProtoName(proto));
    var q := p + 10;
    var i := |ProtoName(proto)| - 1;
    ValueChainEnd(proto);
    assert ProtoName(proto)[..i + 1] == ProtoName(proto);
    var x := v.(state := PT_EQ, b := p);
    ReadsValue(buf, x, q, proto, i);
    w := x.(param := To(Transport), v := q, state := ValueChain(proto)[i]);
    ValueChainRow(proto, i, buf[q + i]) by {
      assert Lower(buf[q + i]) == ProtoName(proto)[i];
    }
    StartsReading(w, Transport, p, q);
    var e := q + i + 1;
    if e == |buf| {
      FinishEnd(w, e, Transport, p, q);
    } else {
      StepEnd(w, buf[e], e, Transport, p, q);
    }
  }

  lemma ReadsTransport(buf: string, v: Vars, p: nat, rest: string)
    requires v.state == URI_PARAM && Reads(buf, p, "transport=" + rest)
    ensures p + 10 <= |buf| && Scan(buf, v, p) == Scan(buf, v.(state := PT_EQ, b := p), p + 10)
            && Reads(buf, p + 10, rest)
    ensures Reads(buf, p, Word(Transport)) && buf[p + 9] == '='
  {
    hide Step; hide Scan; hide Chain;
    var whole := "transport=" + rest;
    PrefixReads(buf, p, whole, 10);
    assert whole[..10] == Word(Transport) == Word(Transport)[..10];
    ReadsPrefix(buf, v, p, Transport, 9);
    TailReads(buf, p, whole, 10);
    assert whole[10..] == rest;
    LastState();
    LowerPlain(buf[p + 9]);
    assert Lower(buf[p + 9]) == whole[9];
  }

  lemma LastState()
    ensures |Chain(Transport)| == 10 && Chain(Transport)[9] == PT_EQ
  {
  }

  lemma TailReads(buf: string, p: int, w: string, i: nat)
    requires Reads(buf, p, w) && i <= |w|
    ensures Reads(buf, p + i, w[i..])
  {
    forall j | 0 <= j < |w[i..]| ensures Lower(buf[p + i + j]) == w[i..][j] {
      assert Lower(buf[p + (i + j)]) == w[i + j];
    }
  }
}
