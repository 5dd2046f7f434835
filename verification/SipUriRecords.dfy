/** Which parameters `parse_uri` records, exactly: of every name it knows the last one in the parameters of the URI, and
    the transport of the last `transport` parameter that names one. */
module SipUriRecords {
  import opened SipUri
  import opened SipUriParams
  import opened SipUriLayout
  import opened SipUriFinds
  import opened SipUriQuirks
  import R = SipUriReads

  // ---------- what is recorded, in terms of the text ----------

  /** `f` is a parameter that is recorded as `k`: it has a value that does not start with ':', or it is "lr",
      or "lr=" at the very end. */
  ghost predicate Named(buf: string, k: Param, f: Field) {
    var n := |NameOf(k)|;
    k != R2 && ParamAt(buf, k, f)
    && ((f.len > n + 1 && buf[f.s + n + 1] != ':')
        || (k == Lr && (f.len == n || (f.len == n + 1 && f.s + f.len == |buf|))))
  }

  /** `f` is the value of such a parameter. */
  ghost predicate Valued(buf: string, k: Param, f: Field) {
    k != R2 && ValueAt(buf, k, f) && buf[f.s] != ':'
  }

  /** `f` starts at `s` or later and ends before `n`. */
  ghost predicate Lies(f: Field, s: int, n: int) {
    s <= f.s && f.s + f.len < n
  }

  ghost predicate LastNamed(buf: string, k: Param, f: Field, s: int, n: int) {
    Named(buf, k, f) && Lies(f, s, n) && forall g | Named(buf, k, g) && Lies(g, s, n) :: g.s <= f.s
  }

  ghost predicate LastValued(buf: string, k: Param, f: Field, s: int, n: int) {
    Valued(buf, k, f) && Lies(f, s, n) && forall g | Valued(buf, k, g) && Lies(g, s, n) :: g.s <= f.s
  }

  /** `f` is the value of a `transport` parameter and names the protocol. */
  ghost predicate Gives(buf: string, f: Field, proto: int) {
    PROTO_UDP <= proto <= PROTO_SCTP && GivesProto(buf, f, proto)
  }

  ghost predicate LastGiven(buf: string, f: Field, proto: int, s: int, n: int) {
    Gives(buf, f, proto) && Lies(f, s, n) && forall g, q | Gives(buf, g, q) && Lies(g, s, n) :: g.s <= f.s
  }

  ghost predicate NamesLast(buf: string, names: map<Param, Field>, s: int, n: int) {
    forall k :: if k in names then LastNamed(buf, k, names[k], s, n) else forall g | Lies(g, s, n) :: !Named(buf, k, g)
  }

  ghost predicate ValsLast(buf: string, vals: map<Param, Field>, s: int, n: int) {
    forall k :: if k in vals then LastValued(buf, k, vals[k], s, n) else forall g | Lies(g, s, n) :: !Valued(buf, k, g)
  }

  ghost predicate ProtoLast(buf: string, proto: int, s: int, n: int) {
    if proto == PROTO_NONE then forall g, q | Lies(g, s, n) :: !Gives(buf, g, q)
    else exists f :: LastGiven(buf, f, proto, s, n)
  }

  /** Recorded is exactly the last of each kind between `s` and `n`. */
  ghost predicate RecordsLast(buf: string, u: Uri, s: int, n: int) {
    NamesLast(buf, u.names, s, n) && ValsLast(buf, u.vals, s, n) && ProtoLast(buf, u.proto, s, n)
  }

  ghost predicate NoRecords(u: Uri) {
    u.names == map[] && u.vals == map[] && u.proto == PROTO_NONE
  }

  // ---------- the parameter that ends at `e` is the only new one ----------

  /** A whole parameter starts at `c` and ends at `e`. */
  ghost predicate Whole(buf: string, c: int, e: int) {
    Starts(buf, c) && c <= e <= |buf| && Inner(buf, c, e) && Ends(buf, e)
  }

  lemma OnlyOne(buf: string, k: Param, f: Field, s: int, c: int, e: int)
    requires Whole(buf, c, e) && ParamAt(buf, k, f) && Lies(f, s, e + 1)
    ensures Lies(f, s, c) || f == FromTo(c, e)
  {
    hide Reads; hide NameOf;
    var fe := f.s + f.len;
    if fe >= c {
      assert f.s >= c;
      assert f.s == c;
    }
  }

  /** The value of a parameter lies where the parameter does. */
  lemma OnlyOneValue(buf: string, k: Param, g: Field, s: int, c: int, e: int)
    requires Whole(buf, c, e) && ValueAt(buf, k, g) && Lies(g, s, e + 1) && s <= c && Starts(buf, s)
    ensures Lies(g, s, c) || g == FromTo(c + |NameOf(k)| + 1, e)
  {
    hide Reads;
    var f := FromTo(g.s - |NameOf(k)| - 1, g.s + g.len);
    assert f.s >= s;
    OnlyOne(buf, k, f, s, c, e);
  }

  lemma NamesMore(buf: string, names: map<Param, Field>, names': map<Param, Field>, s: int, c: int, e: int)
    requires NamesLast(buf, names, s, c) && Whole(buf, c, e) && s <= c
    requires forall k :: if Named(buf, k, FromTo(c, e)) then k in names' && names'[k] == FromTo(c, e)
                         else (k in names' <==> k in names) && (k in names ==> names'[k] == names[k])
    ensures NamesLast(buf, names', s, e + 1)
  {
    hide ParamAt; hide Whole;
    forall k
      ensures if k in names' then LastNamed(buf, k, names'[k], s, e + 1)
              else forall g | Lies(g, s, e + 1) :: !Named(buf, k, g)
    {
      forall g | Named(buf, k, g) && Lies(g, s, e + 1) ensures Lies(g, s, c) || g == FromTo(c, e) {
        OnlyOne(buf, k, g, s, c, e);
      }
      NotBefore(buf, c, e);
      assert k in names ==> LastNamed(buf, k, names[k], s, c);
    }
  }

  lemma NotBefore(buf: string, c: int, e: int)
    requires Whole(buf, c, e)
    ensures c <= e
  {
  }

  lemma ValsMore(buf: string, vals: map<Param, Field>, vals': map<Param, Field>, s: int, c: int, e: int)
    requires ValsLast(buf, vals, s, c) && Whole(buf, c, e) && s <= c && Starts(buf, s)
    requires forall k :: var g := FromTo(c + |NameOf(k)| + 1, e);
                         if Valued(buf, k, g) then k in vals' && vals'[k] == g
                         else (k in vals' <==> k in vals) && (k in vals ==> vals'[k] == vals[k])
    ensures ValsLast(buf, vals', s, e + 1)
  {
    hide ValueAt; hide Whole; hide NameOf; hide Starts;
    forall k
      ensures if k in vals' then LastValued(buf, k, vals'[k], s, e + 1)
              else forall g | Lies(g, s, e + 1) :: !Valued(buf, k, g)
    {
      forall g | Valued(buf, k, g) && Lies(g, s, e + 1)
        ensures Lies(g, s, c) || g == FromTo(c + |NameOf(k)| + 1, e)
      {
        OnlyOneValue(buf, k, g, s, c, e);
      }
      NotBefore(buf, c, e);
      ValueLength(buf, k);
      assert k in vals ==> LastValued(buf, k, vals[k], s, c);
    }
  }

  lemma ValueLength(buf: string, k: Param)
    ensures forall g :: Valued(buf, k, g) ==> g.len > 0
  {
  }

  /** `proto'` is what the value `g` gives, or else `proto`. */
  ghost predicate GivenBy(buf: string, g: Field, proto: int, proto': int) {
    (Gives(buf, g, proto') || proto' == proto) && forall q | Gives(buf, g, q) :: q == proto'
  }

  /** `proto'` is what the parameter that ends at `e` gives, or else what it was. */
  lemma ProtoMore(buf: string, proto: int, proto': int, s: int, c: int, e: int)
    requires ProtoLast(buf, proto, s, c) && Whole(buf, c, e) && s <= c && Starts(buf, s)
    requires GivenBy(buf, FromTo(c + 10, e), proto, proto')
    ensures ProtoLast(buf, proto', s, e + 1)
  {
    hide GivesProto; hide Whole; hide Starts;
    var g0 := FromTo(c + 10, e);
    forall g, q | Gives(buf, g, q) && Lies(g, s, e + 1) ensures (Lies(g, s, c) || g == g0) && g.len > 0 {
      GivenValue(buf, g, q);
      OnlyOneValue(buf, Transport, g, s, c, e);
    }
    NotBefore(buf, c, e);
    if Gives(buf, g0, proto') {
      GivenValue(buf, g0, proto');
      assert LastGiven(buf, g0, proto', s, e + 1);
    } else if proto' != PROTO_NONE {
      var f :| LastGiven(buf, f, proto, s, c);
      assert LastGiven(buf, f, proto, s, e + 1);
    }
  }

  lemma GivenValue(buf: string, g: Field, q: int)
    requires Gives(buf, g, q)
    ensures ValueAt(buf, Transport, g) && |NameOf(Transport)| == 9 && g.len > 0
  {
  }

  // ---------- what the state says of the parameter being read ----------

  /** Whatever follows, the parameter at `c` will not be recorded as `k`: its text has left "<name>=", or its value
      starts with ':'. */
  ghost predicate Dead(buf: string, c: int, p: int, k: Param) {
    var w := R.Word(k);
    (exists j | 0 <= j < |w| :: Differs(buf, c, p, w, j)) || (c + |w| < p && Is(buf, c + |w|, ':'))
  }

  ghost predicate Differs(buf: string, c: int, p: int, w: string, j: int)
    requires 0 <= j < |w|
  {
    0 <= c + j < p && c + j < |buf| && Lower(buf[c + j]) != w[j]
  }

  /** And its value at `q` names no protocol `proto`. */
  ghost predicate DeadValue(buf: string, q: int, p: int, proto: int) {
    var w := ProtoName(proto);
    q + |w| < p || exists j | 0 <= j < |w| :: Differs(buf, q, p, w, j)
  }

  ghost predicate AllDead(buf: string, c: int, p: int) {
    forall k | k != R2 :: Dead(buf, c, p, k)
  }

  ghost predicate AllDeadValue(buf: string, q: int, p: int) {
    forall proto | PROTO_UDP <= proto <= PROTO_SCTP :: DeadValue(buf, q, p, proto)
  }

  /** The parameter being read starts at `c`, and the state tells all there is to know about it. */
  ghost predicate Current(buf: string, v: Vars, c: int, p: nat) {
    Starts(buf, c) && c <= p <= |buf| && Inner(buf, c, p) && !OfR2(v.state)
    && match KindOf(v.state)
       case Start => c == p
       case Plain => AllDead(buf, c, p)
       case Name => v.b == c && Spelling(buf, v, p)
       case Eq => v.b == c && Spelling(buf, v, p)
       case Flag => v.b == c && Spelling(buf, v, p)
       case Val => v.b == c && InValue(buf, v, p) && ValueRead(buf, v, c, p)
       case _ => false
  }

  ghost predicate ValueRead(buf: string, v: Vars, c: int, p: int) {
    v.param.To? && v.param.param != R2 && 0 <= c < v.v == c + |R.Word(v.param.param)| < |buf| && buf[v.v] != ':'
    && (v.state == URI_VAL_P && v.param.param == Transport ==> AllDeadValue(buf, v.v, p))
  }

  lemma DeadLater(buf: string, c: int, p: nat)
    requires AllDead(buf, c, p)
    ensures AllDead(buf, c, p + 1)
  {
    var n := p + 1;
    forall k | k != R2 ensures Dead(buf, c, n, k) {
      assert Dead(buf, c, p, k);
      DeadOneLater(buf, c, p, k);
    }
  }

  lemma DeadOneLater(buf: string, c: int, p: nat, k: Param)
    requires Dead(buf, c, p, k)
    ensures Dead(buf, c, p + 1, k)
  {
    hide NameOf;
    var w := R.Word(k);
    if j :| 0 <= j < |w| && Differs(buf, c, p, w, j) {
      assert Differs(buf, c, p + 1, w, j);
    }
  }

  lemma DeadValueLater(buf: string, q: int, p: nat)
    requires AllDeadValue(buf, q, p)
    ensures AllDeadValue(buf, q, p + 1)
  {
    hide ProtoName;
    var n := p + 1;
    forall proto | PROTO_UDP <= proto <= PROTO_SCTP ensures DeadValue(buf, q, n, proto) {
      assert DeadValue(buf, q, p, proto);
      var w := ProtoName(proto);
      if j :| 0 <= j < |w| && Differs(buf, q, p, w, j) {
        assert Differs(buf, q, n, w, j);
      }
    }
  }

  // ---------- tables and words ----------

  /** The two words agree as far as the first goes. */
  ghost predicate Begins(a: string, w: string) {
    |a| <= |w| && (|a| > 0 ==> a[0] == w[0]) && (|a| > 1 ==> a[1] == w[1]) && (|a| > 2 ==> a[2] == w[2])
    && (|a| > 3 ==> a[3] == w[3]) && (|a| > 4 ==> a[4] == w[4]) && (|a| > 5 ==> a[5] == w[5])
    && (|a| > 6 ==> a[6] == w[6]) && (|a| > 7 ==> a[7] == w[7]) && (|a| > 8 ==> a[8] == w[8])
  }

  /** The states on the way to "<name>=". */
  function OnWay(k: Param): set<State> {
    match k
    case Transport => {PT_T, PT_R, PT_A, PT_N, PT_S, PT_P, PT_O, PT_R2, PT_T2}
    case Ttl => {PT_T, PTTL_T2, PTTL_L}
    case UserParam => {PU_U, PU_S, PU_E, PU_R}
    case Maddr => {PM_M, PMA_A, PMA_D, PMA_D2, PMA_R}
    case Method => {PM_M, PM_E, PM_T, PM_H, PM_O, PM_D}
    case Lr => {PLR_L, PLR_R_FIN}
    case R2 => {PR2_R, PR2_2_FIN}
  }

  lemma OnTransport(st: State)
    requires st in {PT_T, PT_R, PT_A, PT_N, PT_S, PT_P, PT_O, PT_R2, PT_T2}
    ensures 0 < |Spelled(st)| <= |R.Chain(Transport)| && st == R.Chain(Transport)[|Spelled(st)| - 1]
  {
  }

  lemma OnTtl(st: State)
    requires st in {PT_T, PTTL_T2, PTTL_L}
    ensures 0 < |Spelled(st)| <= |R.Chain(Ttl)| && st == R.Chain(Ttl)[|Spelled(st)| - 1]
  {
  }

  lemma OnUserParam(st: State)
    requires st in {PU_U, PU_S, PU_E, PU_R}
    ensures 0 < |Spelled(st)| <= |R.Chain(UserParam)| && st == R.Chain(UserParam)[|Spelled(st)| - 1]
  {
  }

  lemma OnMaddr(st: State)
    requires st in {PM_M, PMA_A, PMA_D, PMA_D2, PMA_R}
    ensures 0 < |Spelled(st)| <= |R.Chain(Maddr)| && st == R.Chain(Maddr)[|Spelled(st)| - 1]
  {
  }

  lemma OnMethod(st: State)
    requires st in {PM_M, PM_E, PM_T, PM_H, PM_O, PM_D}
    ensures 0 < |Spelled(st)| <= |R.Chain(Method)| && st == R.Chain(Method)[|Spelled(st)| - 1]
  {
  }

  lemma OnLr(st: State)
    requires st in {PLR_L, PLR_R_FIN}
    ensures 0 < |Spelled(st)| <= |R.Chain(Lr)| && st == R.Chain(Lr)[|Spelled(st)| - 1]
  {
  }

  lemma SpelledOnWay(st: State, k: Param)
    requires st in OnWay(k) && k != R2
    ensures 0 < |Spelled(st)| <= |R.Chain(k)| && st == R.Chain(k)[|Spelled(st)| - 1]
  {
    hide Spelled; hide R.Chain;
    match k
    case Transport => OnTransport(st);
    case Ttl => OnTtl(st);
    case UserParam => OnUserParam(st);
    case Maddr => OnMaddr(st);
    case Method => OnMethod(st);
    case Lr => OnLr(st);
  }

  /** The first two letters of what a state spells. */
  function LettersOf(st: State): (char, char) {
    match st
    case PTTL_T2 | PTTL_L => ('t', 't')
    case PT_T => ('t', ' ')
    case PT_R | PT_A | PT_N | PT_S | PT_P | PT_O | PT_R2 | PT_T2 => ('t', 'r')
    case PU_U => ('u', ' ')
    case PU_S | PU_E | PU_R => ('u', 's')
    case PM_M => ('m', ' ')
    case PM_E | PM_T | PM_H | PM_O | PM_D => ('m', 'e')
    case PMA_A | PMA_D | PMA_D2 | PMA_R => ('m', 'a')
    case PLR_L => ('l', ' ')
    case _ => ('l', 'r')
  }

  lemma SpelledLetters(st: State)
    requires KindOf(st) in {Name, Flag} && !OfR2(st)
    ensures |Spelled(st)| > 0 && Spelled(st)[0] == LettersOf(st).0
    ensures if |Spelled(st)| == 1 then LettersOf(st).1 == ' ' else Spelled(st)[1] == LettersOf(st).1
  {
  }

  /** They tell the other states. */
  lemma SpelledOffWay(st: State, k: Param)
    requires KindOf(st) in {Name, Flag} && !OfR2(st) && k != R2 && st !in OnWay(k)
    ensures LettersOf(st).0 == FirstOf(k) ==> LettersOf(st).1 !in {SecondOf(k), ' '}
  {
  }

  function FirstOf(k: Param): char {
    match k case Transport => 't' case Ttl => 't' case UserParam => 'u' case Lr => 'l' case R2 => 'r' case _ => 'm'
  }

  function SecondOf(k: Param): char {
    match k
    case Transport => 'r' case Ttl => 't' case UserParam => 's' case Maddr => 'a' case Method => 'e' case Lr => 'r'
    case R2 => '2'
  }

  lemma WordLetters(k: Param)
    ensures R.Word(k)[0] == FirstOf(k) && R.Word(k)[1] == SecondOf(k)
  {
  }

  lemma SpelledChain(st: State, k: Param)
    requires KindOf(st) in {Name, Flag} && !OfR2(st) && k != R2 && Begins(Spelled(st), R.Word(k))
    ensures 0 < |Spelled(st)| <= |R.Chain(k)| && st == R.Chain(k)[|Spelled(st)| - 1]
  {
    hide Spelled; hide KindOf; hide R.Chain; hide R.Word; hide OfR2; hide FirstOf; hide SecondOf; hide OnWay;
    hide LettersOf;
    WordLetters(k);
    if st in OnWay(k) {
      SpelledOnWay(st, k);
    } else {
      SpelledLetters(st);
      SpelledOffWay(st, k);
    }
  }

  /** What the states spell: no '=' before the end, and "lr" only in one. */
  lemma SpelledPlain(st: State)
    requires KindOf(st) in {Name, Flag} && !OfR2(st)
    ensures 0 < |Spelled(st)| <= 9 && '=' !in Spelled(st)
    ensures (|Spelled(st)| == 2 && Spelled(st)[0] == 'l' && Spelled(st)[1] == 'r') <==> st == PLR_R_FIN
  {
  }

  /** A name has no '=' in it, and no two have the same length and first letter. */
  lemma NamesApart(k: Param, k': Param)
    requires k != R2 && k' != R2
    ensures '=' !in NameOf(k) && |NameOf(k)| >= 2
    ensures k != k' ==> |NameOf(k)| != |NameOf(k')|
  {
  }

  lemma WordHas(k: Param, j: nat)
    requires k != R2 && j < |R.Word(k)|
    ensures R.Word(k)[j] == if j < |NameOf(k)| then NameOf(k)[j] else '='
    ensures j < |NameOf(k)| ==> R.Word(k)[j] !in {'=', ';', ':', '?', '@'}
  {
  }

  // ---------- one character ----------

  lemma NotBegins(a: string, w: string) returns (j: nat)
    requires |a| <= |w| && |a| <= 9 && !Begins(a, w)
    ensures j < |a| && a[j] != w[j]
  {
    j :| 0 <= j < |a| && a[j] != w[j];
  }

  /** A character that is not the next of "<name>=". */
  lemma LeavesWord(buf: string, st: State, c: nat, p: nat, k: Param)
    requires KindOf(st) in {Name, Flag} && !OfR2(st) && k != R2 && p < |buf|
    requires p == c + |Spelled(st)| && Reads(buf, c, Spelled(st))
    requires Begins(Spelled(st), R.Word(k)) && |Spelled(st)| < |R.Word(k)| ==>
               Lower(buf[p]) != R.Word(k)[|Spelled(st)|]
    ensures Dead(buf, c, p + 1, k)
  {
    hide Spelled; hide R.Word; hide KindOf; hide Lower; hide Begins; hide OfR2;
    var a, w := Spelled(st), R.Word(k);
    SpelledPlain(st);
    if |a| < |w| {
      if Begins(a, w) {
        assert Differs(buf, c, p + 1, w, |a|);
      } else {
        var j := NotBegins(a, w);
        assert Lower(buf[c + j]) == a[j];
        assert Differs(buf, c, p + 1, w, j);
      }
    } else {
      R.WordParts(k);
      var j := |w| - 1;
      assert Lower(buf[c + j]) == a[j];
      assert Differs(buf, c, p + 1, w, j);
    }
  }

  /** Leaving the states that spell a name. */
  lemma LeavesNames(buf: string, st: State, c: nat, p: nat)
    requires KindOf(st) in {Name, Flag} && !OfR2(st) && p < |buf|
    requires p == c + |Spelled(st)| && Reads(buf, c, Spelled(st))
    requires Special(buf[p]) || if KindOf(st) == Name then NameNext(st, buf[p]) == URI_PARAM_P else buf[p] != '='
    ensures AllDead(buf, c, p + 1)
  {
    hide Spelled; hide R.Word; hide KindOf; hide Lower; hide Begins; hide OfR2; hide NameNext; hide R.Chain;
    hide Special; hide Reads; hide Dead;
    var n, a := p + 1, Spelled(st);
    forall k | k != R2 ensures Dead(buf, c, n, k) {
      if Begins(a, R.Word(k)) && |a| < |R.Word(k)| && Lower(buf[p]) == R.Word(k)[|a|] {
        SpelledChain(st, k);
        R.WordParts(k);
        R.ChainRow(k, |a| - 1, buf[p]);
        ChainGoesOn(k, |a|);
        assert false;
      }
      LeavesWord(buf, st, c, p, k);
    }
  }

  lemma ChainGoesOn(k: Param, i: nat)
    requires k != R2 && i < |R.Chain(k)|
    ensures R.Chain(k)[i] != URI_PARAM_P
  {
  }

  /** A first letter that starts none of the names. */
  lemma LeavesStart(buf: string, c: nat)
    requires c < |buf| && (Special(buf[c]) || StartNext(buf[c]) == URI_PARAM_P)
    ensures AllDead(buf, c, c + 1)
  {
    hide StartNext; hide Lower; hide NameOf; hide Special;
    var n := c + 1;
    forall k | k != R2 ensures Dead(buf, c, n, k) {
      R.WordParts(k);
      if Lower(buf[c]) == R.Word(k)[0] {
        R.ChainStart(k, buf[c]);
        ChainGoesOn(k, 0);
        assert false;
      }
      assert Differs(buf, c, n, R.Word(k), 0);
    }
  }

  /** After "<name>=", a ':' keeps the parameter from being recorded; it is of no other name anyway. */
  lemma LeavesEq(buf: string, c: nat, p: nat, k0: Param)
    requires k0 != R2 && p == c + |R.Word(k0)| < |buf| && Reads(buf, c, R.Word(k0)) && buf[p] == ':'
    ensures AllDead(buf, c, p + 1)
  {
    hide NameOf; hide Reads; hide Lower;
    var n := p + 1;
    forall k | k != R2 ensures Dead(buf, c, n, k) {
      if k != k0 {
        OtherWord(buf, c, n, k0, k);
      }
    }
  }

  /** A text that reads "<name>=" reads no other name and its '='. */
  lemma OtherWord(buf: string, c: nat, p: nat, k: Param, k': Param)
    requires k != R2 && k' != R2 && k != k' && Reads(buf, c, R.Word(k)) && c + |R.Word(k)| <= p
    ensures exists j | 0 <= j < |R.Word(k')| :: Differs(buf, c, p, R.Word(k'), j)
  {
    hide NameOf; hide Lower;
    NamesApart(k, k');
    NamesApart(k', k);
    var w, w' := R.Word(k), R.Word(k');
    var j := if |w| < |w'| then |w| - 1 else |w'| - 1;
    WordHas(k, j);
    WordHas(k', j);
    assert Lower(buf[c + j]) == w[j];
    assert Differs(buf, c, p, w', j);
  }

  // ---------- the end of a parameter ----------

  /** Nothing of the parameter `[c, e)` is recorded under this name. */
  ghost predicate Passed(buf: string, c: int, e: int, k: Param) {
    !Named(buf, k, FromTo(c, e)) && !Valued(buf, k, FromTo(c + |NameOf(k)| + 1, e))
  }

  /** Whatever of the two is recorded, there is a parameter of the name, of some length. */
  lemma ParamOf(buf: string, c: int, e: int, k: Param)
    ensures Named(buf, k, FromTo(c, e)) || Valued(buf, k, FromTo(c + |NameOf(k)| + 1, e)) ==>
              ParamAt(buf, k, FromTo(c, e))
    ensures Valued(buf, k, FromTo(c + |NameOf(k)| + 1, e)) ==>
              c + |NameOf(k)| + 1 < e && 0 <= c + |NameOf(k)| + 1 < |buf| && buf[c + |NameOf(k)| + 1] != ':'
  {
    hide NameOf; hide Reads; hide Inner;
    var n := |NameOf(k)|;
    assert FromTo(c + n + 1 - n - 1, c + n + 1 + (e - c - n - 1)) == FromTo(c, e);
  }

  lemma DeadParam(buf: string, c: int, e: int, k: Param)
    requires k != R2 && Dead(buf, c, e, k) && 0 <= c && ParamAt(buf, k, FromTo(c, e))
    ensures c + |R.Word(k)| < e && Is(buf, c + |R.Word(k)|, ':')
  {
    hide NameOf; hide Inner; hide Starts; hide Ends;
    var w := R.Word(k);
    forall j | 0 <= j < |w| ensures !Differs(buf, c, e, w, j) {
      WordHas(k, j);
      assert Lower('=') == '=';
      assert j < |NameOf(k)| ==> Lower(buf[c + j]) == NameOf(k)[j];
    }
  }

  lemma DeadPassed(buf: string, c: int, e: int, k: Param)
    requires k != R2 && Dead(buf, c, e, k) && e <= |buf| && 0 <= c
    ensures Passed(buf, c, e, k)
  {
    hide NameOf; hide Valued; hide ParamAt; hide Dead;
    ParamOf(buf, c, e, k);
    if ParamAt(buf, k, FromTo(c, e)) {
      DeadParam(buf, c, e, k);
    }
  }

  /** A text that a state spells has no '=' in it. */
  lemma SpelledParam(buf: string, st: State, c: int, e: int, k: Param)
    requires KindOf(st) in {Name, Flag} && !OfR2(st) && 0 <= c && e == c + |Spelled(st)| && Reads(buf, c, Spelled(st))
    requires ParamAt(buf, k, FromTo(c, e))
    ensures e - c == |NameOf(k)|
  {
    hide Spelled; hide KindOf; hide Starts; hide Ends; hide Inner; hide NameOf; hide OfR2;
    SpelledPlain(st);
    var a := Spelled(st);
    forall i | c <= i < e ensures buf[i] != '=' {
      assert Lower(buf[c + (i - c)]) == a[i - c];
      assert Lower('=') == '=';
    }
  }

  lemma ReadsLr(buf: string, st: State, c: int)
    requires KindOf(st) in {Name, Flag} && !OfR2(st) && Reads(buf, c, Spelled(st)) && |Spelled(st)| == 2
    requires Reads(buf, c, NameOf(Lr))
    ensures st == PLR_R_FIN
  {
    hide Spelled; hide KindOf; hide OfR2;
    SpelledPlain(st);
    var a, w := Spelled(st), NameOf(Lr);
    assert w[0] == 'l' && w[1] == 'r';
    assert Lower(buf[c + 0]) == a[0] == w[0] && Lower(buf[c + 1]) == a[1] == w[1];
  }

  lemma SpelledPassed(buf: string, st: State, c: int, e: int, k: Param)
    requires KindOf(st) == Name && !OfR2(st) && k != R2 && 0 <= c
    requires e == c + |Spelled(st)| && Reads(buf, c, Spelled(st))
    ensures Passed(buf, c, e, k)
  {
    hide Spelled; hide KindOf; hide NameOf; hide Valued; hide OfR2; hide ParamAt;
    ParamOf(buf, c, e, k);
    if ParamAt(buf, k, FromTo(c, e)) {
      SpelledParam(buf, st, c, e, k);
      if k == Lr {
        LrParam(buf, c, e);
        NotTheFlag(st);
        if |Spelled(st)| == 2 {
          ReadsLr(buf, st, c);
        }
      }
    }
  }

  lemma LrParam(buf: string, c: int, e: int)
    requires ParamAt(buf, Lr, FromTo(c, e))
    ensures Reads(buf, c, NameOf(Lr)) && |NameOf(Lr)| == 2
  {
  }

  lemma NotTheFlag(st: State)
    requires KindOf(st) == Name
    ensures st != PLR_R_FIN
  {
  }
  /** "lr" alone is recorded as `lr` without a value, and as nothing else. */
  lemma FlagPassed(buf: string, c: int, e: int, k: Param)
    requires k != R2 && e == c + 2
    ensures !Valued(buf, k, FromTo(c + |NameOf(k)| + 1, e)) && (k != Lr ==> !Named(buf, k, FromTo(c, e)))
  {
    hide ParamAt; hide Reads;
    R.WordParts(k);
    NamesApart(k, Lr);
    assert |NameOf(Lr)| == 2;
  }

  /** "<name>=" alone is recorded only for `lr` and only at the end of the text. */
  lemma EqPassed(buf: string, c: int, e: int, k0: Param, k: Param)
    requires k0 != R2 && k != R2 && 0 <= c && e == c + |R.Word(k0)| <= |buf| && Reads(buf, c, R.Word(k0))
    ensures !Valued(buf, k, FromTo(c + |NameOf(k)| + 1, e))
    ensures !(k == k0 == Lr && e == |buf|) ==> !Named(buf, k, FromTo(c, e))
  {
    hide NameOf;
    R.WordParts(k);
    R.WordParts(k0);
    if k != k0 {
      OtherWord(buf, c, e, k0, k);
      DeadPassed(buf, c, e, k);
    }
  }

  /** A parameter with a value is recorded under its own name, and under no other. */
  lemma ValuePassed(buf: string, c: int, e: int, k0: Param, k: Param)
    requires k0 != R2 && k != R2 && k != k0 && 0 <= c && c + |R.Word(k0)| < e <= |buf| && Reads(buf, c, R.Word(k0))
    ensures Passed(buf, c, e, k)
  {
    hide NameOf; hide Passed;
    OtherWord(buf, c, e, k0, k);
    DeadPassed(buf, c, e, k);
  }

  // ---------- recording at the end of a parameter ----------

  /** Nothing of the parameter `[c, e)` is recorded. */
  ghost predicate Unrecorded(buf: string, c: int, e: int) {
    forall k | k != R2 :: Passed(buf, c, e, k)
  }

  ghost predicate SameRecords(u: Uri, u': Uri) {
    u'.names == u.names && u'.vals == u.vals && u'.proto == u.proto
  }

  /** A value that gives a protocol is one of a `transport` parameter. */
  lemma GivesValued(buf: string, c: int, e: int, q: int)
    requires Gives(buf, FromTo(c + 10, e), q) && 0 <= c
    ensures Valued(buf, Transport, FromTo(c + |NameOf(Transport)| + 1, e)) && c + 10 + |ProtoName(q)| == e
            && Reads(buf, c + 10, ProtoName(q))
  {
    hide ParamAt;
    assert |NameOf(Transport)| == 9;
    assert FromTo(c + 9 + 1, e) == FromTo(c + 10, e);
    ProtoLetters(q);
    assert Lower(buf[c + 10 + 0]) == ProtoName(q)[0];
  }

  lemma NoneGiven(buf: string, c: int, e: int, proto: int)
    requires 0 <= c && !Valued(buf, Transport, FromTo(c + |NameOf(Transport)| + 1, e))
    ensures GivenBy(buf, FromTo(c + 10, e), proto, proto)
  {
    hide Valued; hide Gives; hide NameOf;
    var g := FromTo(c + 10, e);
    forall q ensures !Gives(buf, g, q) {
      if Gives(buf, g, q) {
        GivesValued(buf, c, e, q);
      }
    }
  }

  lemma ProtoLetters(q: int)
    ensures |ProtoName(q)| >= 3 && forall j | 0 <= j < |ProtoName(q)| :: ProtoName(q)[j] !in {';', ':', '?', '@', '='}
  {
  }

  lemma NothingMore(buf: string, u: Uri, u': Uri, s: int, c: int, e: int)
    requires RecordsLast(buf, u, s, c) && SameRecords(u, u') && Unrecorded(buf, c, e)
    requires Whole(buf, c, e) && Starts(buf, s) && s <= c
    ensures RecordsLast(buf, u', s, e + 1)
  {
    hide NamesLast; hide ValsLast; hide ProtoLast; hide Whole; hide Named; hide Valued; hide Gives; hide NameOf;
    forall k ensures !Named(buf, k, FromTo(c, e)) && !Valued(buf, k, FromTo(c + |NameOf(k)| + 1, e)) {
      R2Passed(buf, c, e);
      assert k != R2 ==> Passed(buf, c, e, k);
    }
    NamesMore(buf, u.names, u'.names, s, c, e);
    ValsMore(buf, u.vals, u'.vals, s, c, e);
    StartsAfter(buf, s);
    NoneGiven(buf, c, e, u.proto);
    ProtoMore(buf, u.proto, u'.proto, s, c, e);
  }

  lemma R2Passed(buf: string, c: int, e: int)
    ensures Passed(buf, c, e, R2)
  {
  }

  lemma StartsAfter(buf: string, s: int)
    requires Starts(buf, s)
    ensures s > 0
  {
  }

  /** The name of `lr` alone. */
  lemma FlagMore(buf: string, u: Uri, u': Uri, s: int, c: int, e: int)
    requires RecordsLast(buf, u, s, c) && u'.names == u.names[Lr := FromTo(c, e)] && u'.vals == u.vals
             && u'.proto == u.proto
    requires Whole(buf, c, e) && Starts(buf, s) && s <= c && Named(buf, Lr, FromTo(c, e))
    requires forall k | k != R2 :: !Valued(buf, k, FromTo(c + |NameOf(k)| + 1, e))
    requires forall k | k != R2 && k != Lr :: !Named(buf, k, FromTo(c, e))
    ensures RecordsLast(buf, u', s, e + 1)
  {
    hide NamesLast; hide ValsLast; hide ProtoLast; hide Whole; hide Named; hide Valued; hide Gives; hide NameOf;
    R2Passed(buf, c, e);
    NamesMore(buf, u.names, u'.names, s, c, e);
    ValsMore(buf, u.vals, u'.vals, s, c, e);
    StartsAfter(buf, s);
    NoneGiven(buf, c, e, u.proto);
    ProtoMore(buf, u.proto, u'.proto, s, c, e);
  }

  /** A name and its value. */
  lemma ValueMore(buf: string, u: Uri, u': Uri, s: int, c: int, e: int, k: Param)
    requires RecordsLast(buf, u, s, c) && k != R2
    requires var g := FromTo(c + |NameOf(k)| + 1, e);
             u'.names == u.names[k := FromTo(c, e)] && u'.vals == u.vals[k := g] && Valued(buf, k, g)
    requires Whole(buf, c, e) && Starts(buf, s) && s <= c && Named(buf, k, FromTo(c, e))
    requires forall k' | k' != R2 && k' != k :: Passed(buf, c, e, k')
    requires GivenBy(buf, FromTo(c + 10, e), u.proto, u'.proto)
    ensures RecordsLast(buf, u', s, e + 1)
  {
    hide NamesLast; hide ValsLast; hide ProtoLast; hide Whole; hide Named; hide Valued; hide Gives; hide NameOf;
    R2Passed(buf, c, e);
    forall k' | k' != k ensures !Named(buf, k', FromTo(c, e)) && !Valued(buf, k', FromTo(c + |NameOf(k')| + 1, e)) {
      assert Passed(buf, c, e, k');
    }
    NamesMore(buf, u.names, u'.names, s, c, e);
    ValsMore(buf, u.vals, u'.vals, s, c, e);
    ProtoMore(buf, u.proto, u'.proto, s, c, e);
  }

  // ---------- the protocol of a value ----------

  lemma SpelledProto(st: State, q: int)
    requires KindOf(st) == Val && st != URI_VAL_P && PROTO_UDP <= q <= PROTO_SCTP
    requires var a, w := SpelledValue(st), ProtoName(q); |a| == |w| && Begins(a, w)
    ensures ProtoOf(st) == q
  {
  }

  lemma SpelledValueShort(st: State)
    requires KindOf(st) == Val && st != URI_VAL_P
    ensures 0 < |SpelledValue(st)| <= 4
  {
  }

  /** A value that a state spells gives just the protocol of that state. */
  lemma SpelledGives(buf: string, st: State, c: int, e: int, q: int)
    requires KindOf(st) == Val && st != URI_VAL_P && 0 <= c && Gives(buf, FromTo(c + 10, e), q)
    requires e == c + 10 + |SpelledValue(st)| && Reads(buf, c + 10, SpelledValue(st))
    ensures ProtoOf(st) == q
  {
    hide SpelledValue; hide ProtoName; hide KindOf; hide ProtoOf; hide Gives; hide Valued; hide NameOf;
    GivesValued(buf, c, e, q);
    SpelledValueShort(st);
    GivesRange(buf, FromTo(c + 10, e), q);
    var a, w := SpelledValue(st), ProtoName(q);
    forall j | 0 <= j < |a| ensures a[j] == w[j] {
      assert Lower(buf[c + 10 + j]) == a[j];
    }
    SpelledProto(st, q);
  }

  lemma GivesRange(buf: string, g: Field, q: int)
    requires Gives(buf, g, q)
    ensures PROTO_UDP <= q <= PROTO_SCTP
  {
  }

  lemma DeadGives(buf: string, c: int, e: int, q: int)
    requires 0 <= c && (PROTO_UDP <= q <= PROTO_SCTP ==> DeadValue(buf, c + 10, e, q))
    ensures !Gives(buf, FromTo(c + 10, e), q)
  {
    hide ProtoName; hide Gives; hide Valued; hide NameOf;
    if Gives(buf, FromTo(c + 10, e), q) {
      GivesValued(buf, c, e, q);
      GivesRange(buf, FromTo(c + 10, e), q);
    }
  }

  lemma PlainValue(st: State)
    requires KindOf(st) == Val
    ensures st == URI_VAL_P ==> ProtoOf(st) == PROTO_NONE
    ensures PROTO_NONE <= ProtoOf(st) <= PROTO_SCTP
  {
  }

  /** The protocol set at the end of a value is the one its text gives. */
  lemma ValueGiven(buf: string, v: Vars, c: int, e: nat)
    requires KindOf(v.state) == Val && v.b == c > 0 && InValue(buf, v, e) && ValueRead(buf, v, c, e) && Ends(buf, e)
    ensures GivenBy(buf, FromTo(c + 10, e), v.uri.proto,
              if ProtoOf(v.state) == PROTO_NONE then v.uri.proto else ProtoOf(v.state))
  {
    hide SpelledValue; hide ProtoName; hide KindOf; hide ProtoOf; hide NameOf; hide Gives; hide Reads;
    hide Starts; hide Inner; hide Ends;
    var k, g := v.param.param, FromTo(c + 10, e);
    PlainValue(v.state);
    TransportWord();
    if k != Transport {
      NameEq(buf, v, c, e);
      ValuePassed(buf, c, e, k, Transport);
      NoneGiven(buf, c, e, v.uri.proto);
    } else if v.state == URI_VAL_P {
      forall q ensures !Gives(buf, g, q) {
        DeadGives(buf, c, e, q);
      }
    } else {
      forall q | Gives(buf, g, q) ensures ProtoOf(v.state) == q && PROTO_UDP <= q <= PROTO_SCTP {
        SpelledGives(buf, v.state, c, e, q);
        GivesRange(buf, g, q);
      }
      if ProtoOf(v.state) != PROTO_NONE {
        ProtoSpelled(v.state);
        RecordValueAt(buf, v, e);
        GivesNow(buf, g, ProtoOf(v.state));
      }
    }
  }

  lemma GivesNow(buf: string, g: Field, q: int)
    requires ValueAt(buf, Transport, g) && g.len == |ProtoName(q)| && Reads(buf, g.s, ProtoName(q))
             && PROTO_UDP <= q <= PROTO_SCTP
    ensures Gives(buf, g, q)
  {
  }

  lemma TransportWord()
    ensures |NameOf(Transport)| == 9 && |R.Word(Transport)| == 10
  {
  }

  lemma NameEq(buf: string, v: Vars, c: int, e: nat)
    requires v.b == c && InValue(buf, v, e) && ValueRead(buf, v, c, e)
    ensures Reads(buf, c, R.Word(v.param.param)) && c + |R.Word(v.param.param)| < e <= |buf|
  {
    hide NameOf;
    var k := v.param.param;
    forall j | 0 <= j < |R.Word(k)| ensures Lower(buf[c + j]) == R.Word(k)[j] {
      assert j < |NameOf(k)| ==> Lower(buf[c + j]) == NameOf(k)[j];
      assert Lower('=') == '=';
    }
  }

  // ---------- what the end of a parameter does ----------

  /** The records when the parameter being read ends at `e`: with ';', with '?', or with the text. */
  ghost predicate EndsWith(v: Vars, e: int, last: bool, u': Uri) {
    var u := v.uri;
    match KindOf(v.state)
    case Flag => u'.names == u.names[Lr := FromTo(v.b, e)] && u'.vals == u.vals && u'.proto == u.proto
    case Val =>
      v.param.To? && u'.names == u.names[v.param.param := FromTo(v.b, e)]
      && u'.vals == u.vals[v.param.param := FromTo(v.v, e)]
      && u'.proto == if ProtoOf(v.state) == PROTO_NONE then u.proto else ProtoOf(v.state)
    case Eq =>
      if last && v.state == PLR_EQ then
        u'.names == u.names[Lr := FromTo(v.b, e)] && u'.vals == u.vals && u'.proto == u.proto
      else SameRecords(u, u')
    case _ => SameRecords(u, u')
  }

  lemma FlagState(st: State)
    requires KindOf(st) == Flag && !OfR2(st)
    ensures st == PLR_R_FIN && Spelled(st) == "lr" == NameOf(Lr)
  {
  }

  lemma EqState(st: State)
    requires KindOf(st) == Eq && !OfR2(st)
    ensures Spelled(st) == R.Word(EqParam(st)) && EqParam(st) != R2 && (EqParam(st) == Lr <==> st == PLR_EQ)
  {
  }

  lemma WholeHere(buf: string, v: Vars, c: int, e: nat)
    requires Current(buf, v, c, e) && Ends(buf, e)
    ensures Whole(buf, c, e) && c > 0
  {
    hide Inner;
  }

  lemma FlagRecords(buf: string, v: Vars, s: int, c: int, e: nat, u': Uri)
    requires KindOf(v.state) == Flag && Current(buf, v, c, e) && Ends(buf, e) && RecordsLast(buf, v.uri, s, c)
    requires EndsWith(v, e, e == |buf|, u') && Starts(buf, s) && s <= c
    ensures RecordsLast(buf, u', s, e + 1)
  {
    hide RecordsLast; hide Named; hide Valued; hide Reads; hide NameOf; hide Inner; hide Starts; hide Ends; hide KindOf;
    hide OfR2; hide Whole;
    WholeHere(buf, v, c, e);
    FlagState(v.state);
    FlagSpelled(buf, v, e);
    LrNamed(buf, c, e);
    forall k | k != R2 ensures !Valued(buf, k, FromTo(c + |NameOf(k)| + 1, e)) {
      FlagPassed(buf, c, e, k);
    }
    forall k | k != R2 && k != Lr ensures !Named(buf, k, FromTo(c, e)) {
      FlagPassed(buf, c, e, k);
    }
    FlagMore(buf, v.uri, u', s, c, e);
  }

  lemma LrNamed(buf: string, c: int, e: int)
    requires ParamAt(buf, Lr, FromTo(c, e)) && (e == c + 2 || (e == c + 3 && e == |buf|))
    ensures Named(buf, Lr, FromTo(c, e))
  {
  }

  lemma EqRecords(buf: string, v: Vars, s: int, c: int, e: nat, u': Uri)
    requires KindOf(v.state) == Eq && Current(buf, v, c, e) && Ends(buf, e) && RecordsLast(buf, v.uri, s, c)
    requires EndsWith(v, e, e == |buf|, u') && Starts(buf, s) && s <= c
    ensures RecordsLast(buf, u', s, e + 1)
  {
    hide RecordsLast; hide Named; hide Valued; hide Reads; hide NameOf; hide Inner; hide Starts; hide Ends; hide KindOf;
    hide OfR2; hide Whole; hide EqParam; hide Spelled; hide R.Word;
    WholeHere(buf, v, c, e);
    EqState(v.state);
    var k0 := EqParam(v.state);
    forall k | k != R2
      ensures !Valued(buf, k, FromTo(c + |NameOf(k)| + 1, e)) && (!(k0 == k == Lr && e == |buf|) ==>
                                                                    !Named(buf, k, FromTo(c, e)))
    {
      EqPassed(buf, c, e, k0, k);
    }
    if e == |buf| && v.state == PLR_EQ {
      FlagSpelled(buf, v, e);
      LrWord();
      LrNamed(buf, c, e);
      FlagMore(buf, v.uri, u', s, c, e);
    } else {
      NothingMore(buf, v.uri, u', s, c, e);
    }
  }

  lemma LrWord()
    ensures |R.Word(Lr)| == 3
  {
  }

  lemma ValRecords(buf: string, v: Vars, s: int, c: int, e: nat, u': Uri)
    requires KindOf(v.state) == Val && Current(buf, v, c, e) && Ends(buf, e) && RecordsLast(buf, v.uri, s, c)
    requires EndsWith(v, e, e == |buf|, u') && Starts(buf, s) && s <= c
    ensures RecordsLast(buf, u', s, e + 1)
  {
    hide RecordsLast; hide Named; hide Valued; hide Reads; hide NameOf; hide Inner; hide Starts; hide Ends; hide KindOf;
    hide OfR2; hide Whole; hide GivenBy; hide ProtoOf; hide Passed; hide R.Word;
    WholeHere(buf, v, c, e);
    var k := v.param.param;
    R.WordParts(k);
    NameEq(buf, v, c, e);
    forall k' | k' != R2 && k' != k ensures Passed(buf, c, e, k') {
      ValuePassed(buf, c, e, k, k');
    }
    ValueGiven(buf, v, c, e);
    RecordValueAt(buf, v, e);
    ValueNamed(buf, k, c, e);
    ValueMore(buf, v.uri, u', s, c, e, k);
  }

  lemma ValueNamed(buf: string, k: Param, c: int, e: int)
    requires k != R2 && 0 <= c && ValueAt(buf, k, FromTo(c + |NameOf(k)| + 1, e)) && buf[c + |NameOf(k)| + 1] != ':'
    ensures Named(buf, k, FromTo(c, e)) && Valued(buf, k, FromTo(c + |NameOf(k)| + 1, e))
  {
    hide NameOf; hide Reads; hide Inner;
    assert FromTo(c + |NameOf(k)| + 1 - |NameOf(k)| - 1, e) == FromTo(c, e);
  }

  lemma OtherRecords(buf: string, v: Vars, s: int, c: int, e: nat, u': Uri)
    requires KindOf(v.state) in {Start, Plain, Name} && Current(buf, v, c, e) && Ends(buf, e)
             && RecordsLast(buf, v.uri, s, c)
    requires EndsWith(v, e, e == |buf|, u') && Starts(buf, s) && s <= c
    ensures RecordsLast(buf, u', s, e + 1)
  {
    hide RecordsLast; hide Named; hide Valued; hide Reads; hide NameOf; hide Inner; hide Starts; hide Ends; hide KindOf;
    hide OfR2; hide Whole; hide Dead; hide Passed; hide Spelled;
    WholeHere(buf, v, c, e);
    forall k | k != R2 ensures Passed(buf, c, e, k) {
      match KindOf(v.state)
      case Start => EmptyPassed(buf, c, k);
      case Plain => DeadPassed(buf, c, e, k);
      case _ => SpelledPassed(buf, v.state, c, e, k);
    }
    NothingMore(buf, v.uri, u', s, c, e);
  }

  lemma EmptyPassed(buf: string, c: int, k: Param)
    requires k != R2
    ensures Passed(buf, c, c, k)
  {
    NamesApart(k, k);
  }

  /** At its end the parameter is recorded exactly as its text says. */
  lemma EndRecords(buf: string, v: Vars, s: int, c: int, e: nat, u': Uri)
    requires Current(buf, v, c, e) && Ends(buf, e) && RecordsLast(buf, v.uri, s, c)
    requires EndsWith(v, e, e == |buf|, u') && Starts(buf, s) && s <= c
    ensures RecordsLast(buf, u', s, e + 1)
  {
    hide RecordsLast; hide Starts; hide Ends; hide KindOf; hide Inner; hide InValue; hide ValueRead; hide Spelling;
    hide EndsWith; hide AllDead;
    match KindOf(v.state)
    case Flag => FlagRecords(buf, v, s, c, e, u');
    case Eq => EqRecords(buf, v, s, c, e, u');
    case Val => ValRecords(buf, v, s, c, e, u');
    case _ => OtherRecords(buf, v, s, c, e, u');
  }

  // ---------- values that leave the spelling of a protocol ----------

  /** The rows of the value tables, backwards: a state that spells the beginning of a protocol goes on with it. */
  lemma ValueGoesOn(st: State, q: int, c: char)
    requires KindOf(st) == Val && st != URI_VAL_P && PROTO_UDP <= q <= PROTO_SCTP
    requires var a, w := SpelledValue(st), ProtoName(q); |a| < |w| && Begins(a, w) && Lower(c) == w[|a|]
    ensures ValNext(st, c) != URI_VAL_P
  {
    hide Lower;
  }

  lemma FirstGoesOn(q: int, c: char)
    requires PROTO_UDP <= q <= PROTO_SCTP && Lower(c) == ProtoName(q)[0]
    ensures EqNext(PT_EQ, c) != URI_VAL_P
  {
    hide Lower;
  }

  lemma LeavesValue(buf: string, st: State, q: nat, p: nat)
    requires KindOf(st) == Val && st != URI_VAL_P && p < |buf| && p == q + |SpelledValue(st)|
             && Reads(buf, q, SpelledValue(st))
    requires Special(buf[p]) || ValNext(st, buf[p]) == URI_VAL_P
    ensures AllDeadValue(buf, q, p + 1)
  {
    hide SpelledValue; hide ProtoName; hide KindOf; hide Lower; hide Begins; hide ValNext; hide Special; hide DeadValue;
    var n, a := p + 1, SpelledValue(st);
    SpelledValueShort(st);
    forall proto | PROTO_UDP <= proto <= PROTO_SCTP ensures DeadValue(buf, q, n, proto) {
      R.LowerPlain(buf[p]);
      ProtoLetters(proto);
      if Begins(a, ProtoName(proto)) && |a| < |ProtoName(proto)| && Lower(buf[p]) == ProtoName(proto)[|a|] {
        ValueGoesOn(st, proto, buf[p]);
        assert false;
      }
      DeadAt(buf, q, p, a, proto);
    }
  }

  lemma DeadAt(buf: string, q: nat, p: nat, a: string, proto: int)
    requires p < |buf| && p == q + |a| && |a| <= 9 && Reads(buf, q, a)
    requires var w := ProtoName(proto); Begins(a, w) && |a| < |w| ==> Lower(buf[p]) != w[|a|]
    ensures DeadValue(buf, q, p + 1, proto)
  {
    hide ProtoName; hide Lower; hide Begins;
    var w := ProtoName(proto);
    if |a| < |w| {
      if Begins(a, w) {
        assert Differs(buf, q, p + 1, w, |a|);
      } else {
        var j := NotBegins(a, w);
        assert Lower(buf[q + j]) == a[j];
        assert Differs(buf, q, p + 1, w, j);
      }
    }
  }

  lemma LeavesFirst(buf: string, p: nat)
    requires p < |buf| && EqNext(PT_EQ, buf[p]) == URI_VAL_P
    ensures AllDeadValue(buf, p, p + 1)
  {
    hide ProtoName; hide Lower; hide Begins; hide EqNext; hide DeadValue;
    var n := p + 1;
    forall proto | PROTO_UDP <= proto <= PROTO_SCTP ensures DeadValue(buf, p, n, proto) {
      ProtoLetters(proto);
      if Lower(buf[p]) == ProtoName(proto)[0] {
        FirstGoesOn(proto, buf[p]);
        assert false;
      }
      DeadAt(buf, p, p, "", proto);
    }
  }

  // ---------- inside a parameter ----------

  /** The step leaves the records and the slices alone. */
  ghost predicate Goes(v: Vars, w: Vars) {
    SameRecords(v.uri, w.uri) && w.s == v.s && w.uri.params == v.uri.params
  }

  lemma StartOn(buf: string, v: Vars, c: int, p: nat, w: Vars)
    requires Current(buf, v, c, p) && KindOf(v.state) == Start && p < |buf| && buf[p] !in {'@', ';', '?'}
    requires Step(v, buf[p], p) == Ok(w) && Noted(buf, w, p + 1) && NoR2(w)
    ensures Current(buf, w, c, p + 1) && Goes(v, w)
  {
    hide StartNext; hide Marks; hide Recorded; hide NameOf; hide Reads; hide Spelled; hide LeadStep; hide FlagStep;
    hide HeadersStep; hide ValueCommon; hide NameNext; hide AllDead; hide InValue; hide ValueRead; hide OfR2;
    StartKinds(buf[p]);
    if Special(buf[p]) || StartNext(buf[p]) == URI_PARAM_P {
      LeavesStart(buf, p);
    }
    PlainIs(w.state);
  }

  lemma PlainIs(st: State)
    ensures KindOf(st) == Plain <==> st == URI_PARAM_P
  {
  }

  lemma PlainOn(buf: string, v: Vars, c: int, p: nat, w: Vars)
    requires Current(buf, v, c, p) && KindOf(v.state) == Plain && p < |buf| && buf[p] !in {'@', ';', '?'}
    requires Step(v, buf[p], p) == Ok(w) && NoR2(w)
    ensures Current(buf, w, c, p + 1) && Goes(v, w)
  {
    hide AllDead; hide NameOf; hide Reads; hide Spelled; hide LeadStep; hide FlagStep; hide HeadersStep;
    hide ValueCommon; hide NameNext; hide InValue; hide ValueRead; hide OfR2;
    DeadLater(buf, c, p);
    PlainIs(v.state);
    PlainIs(w.state);
  }

  lemma NameOn(buf: string, v: Vars, c: int, p: nat, w: Vars)
    requires Current(buf, v, c, p) && KindOf(v.state) == Name && p < |buf| && buf[p] !in {'@', ';', '?'}
    requires Step(v, buf[p], p) == Ok(w) && Noted(buf, w, p + 1) && NoR2(w)
    ensures Current(buf, w, c, p + 1) && Goes(v, w)
  {
    hide AllDead; hide NameOf; hide Reads; hide Spelled; hide LeadStep; hide FlagStep; hide HeadersStep; hide Recorded;
    hide ValueCommon; hide NameNext; hide InValue; hide ValueRead; hide OfR2;
    NextKinds(v.state, buf[p]);
    if Special(buf[p]) || NameNext(v.state, buf[p]) == URI_PARAM_P {
      LeavesNames(buf, v.state, c, p);
    }
    PlainIs(w.state);
  }

  lemma FlagOn(buf: string, v: Vars, c: int, p: nat, w: Vars)
    requires Current(buf, v, c, p) && KindOf(v.state) == Flag && p < |buf| && buf[p] !in {'@', ';', '?'}
    requires Step(v, buf[p], p) == Ok(w) && Noted(buf, w, p + 1) && NoR2(w)
    ensures Current(buf, w, c, p + 1) && Goes(v, w)
  {
    hide AllDead; hide NameOf; hide Reads; hide Spelled; hide LeadStep; hide HeadersStep; hide Recorded;
    hide ValueCommon; hide NameNext; hide InValue; hide ValueRead; hide OfR2;
    if buf[p] != '=' {
      LeavesNames(buf, v.state, c, p);
    }
    PlainIs(w.state);
    FlagState(v.state);
  }

  lemma EqOn(buf: string, v: Vars, c: int, p: nat, w: Vars)
    requires Current(buf, v, c, p) && KindOf(v.state) == Eq && p < |buf| && buf[p] !in {'@', ';', '?'}
    requires Step(v, buf[p], p) == Ok(w) && Noted(buf, w, p + 1) && NoR2(w)
    ensures Current(buf, w, c, p + 1) && Goes(v, w)
  {
    hide AllDead; hide NameOf; hide Reads; hide Spelled; hide LeadStep; hide FlagStep; hide HeadersStep; hide Recorded;
    hide ValueCommon; hide NameNext; hide InValue; hide OfR2; hide EqParam; hide EqNext; hide AllDeadValue; hide R.Word;
    EqState(v.state);
    if buf[p] == ':' {
      LeavesEq(buf, c, p, EqParam(v.state));
    } else {
      ValueKinds(v.state, buf[p]);
      EqTransport(v.state);
      if EqParam(v.state) == Transport && EqNext(v.state, buf[p]) == URI_VAL_P {
        LeavesFirst(buf, p);
      }
      R.WordParts(EqParam(v.state));
    }
    PlainIs(w.state);
  }

  lemma EqTransport(st: State)
    requires KindOf(st) == Eq
    ensures EqParam(st) == Transport <==> st == PT_EQ
  {
  }

  lemma ValOn(buf: string, v: Vars, c: int, p: nat, w: Vars)
    requires Current(buf, v, c, p) && KindOf(v.state) == Val && p < |buf| && buf[p] !in {'@', ';', '?'}
    requires Step(v, buf[p], p) == Ok(w) && Noted(buf, w, p + 1) && NoR2(w)
    ensures Current(buf, w, c, p + 1) && Goes(v, w)
  {
    hide AllDead; hide NameOf; hide Reads; hide SpelledValue; hide LeadStep; hide FlagStep; hide HeadersStep;
    hide Recorded; hide NameNext; hide OfR2; hide ValNext; hide AllDeadValue; hide R.Word; hide ProtoOf; hide Spelled;
    ValueKinds(v.state, buf[p]);
    if v.param.param == Transport {
      if v.state == URI_VAL_P {
        DeadValueLater(buf, v.v, p);
      } else if Special(buf[p]) || ValNext(v.state, buf[p]) == URI_VAL_P {
        LeavesValue(buf, v.state, v.v, p);
      }
    }
    ValIs(w.state);
  }

  lemma ValIs(st: State)
    ensures st == URI_VAL_P ==> KindOf(st) == Val
  {
  }

  // ---------- where the parameters are ----------

  /** `a` is the last '@' before `p`, or the start of the URI if there is none. */
  ghost predicate Opened(buf: string, base: int, a: int, p: int) {
    base <= a && (a == base || (a < p && Is(buf, a, '@'))) && NoneOf(buf, a + 1, p, {'@'})
  }

  /** The first mark behind `a` is a ';', before `s`, and there is no '?' from there to `e`. */
  ghost predicate ParamsFrom(buf: string, a: int, s: int, e: int) {
    a < s - 1 && Is(buf, s - 1, ';') && NoneOf(buf, a + 1, s - 1, {';', '?'}) && s <= e <= |buf|
    && NoneOf(buf, s, e, {'?'})
  }

  /** `r` are the parameters: from the first ';' behind `a` to the next '?' or the end. */
  ghost predicate ParamsAt(buf: string, a: int, r: Field) {
    ParamsFrom(buf, a, r.s, r.s + r.len) && (r.s + r.len == |buf| || Is(buf, r.s + r.len, '?'))
  }

  /** Or the first mark is a '?', before `p`. */
  ghost predicate HeadersFrom(buf: string, a: int, p: int) {
    exists m :: a < m < p && Is(buf, m, '?') && NoneOf(buf, a + 1, m, {';', '?'})
  }

  lemma OneRegion(buf: string, a: int, r: Field, r': Field)
    requires ParamsAt(buf, a, r) && ParamsAt(buf, a, r') && -1 <= a
    ensures r == r'
  {
    assert buf[r.s - 1] == ';' && buf[r'.s - 1] == ';';
    assert r.s == r'.s;
  }

  lemma NoRegion(buf: string, a: int, p: int, r: Field)
    requires HeadersFrom(buf, a, p) && -1 <= a
    ensures !ParamsAt(buf, a, r)
  {
    var m :| a < m < p && Is(buf, m, '?') && NoneOf(buf, a + 1, m, {';', '?'});
  }

  // ---------- the invariant ----------

  ghost predicate HeadersRecords(buf: string, a: int, u: Uri, p: int) {
    if u.params == UNSET then NoRecords(u) && HeadersFrom(buf, a, p)
    else ParamsAt(buf, a, u.params) && u.params.s + u.params.len < p
         && RecordsLast(buf, u, u.params.s, u.params.s + u.params.len + 1)
  }

  ghost predicate LeadRecords(buf: string, base: nat, v: Vars, p: nat, a: int) {
    NoRecords(v.uri) && v.uri.params == UNSET && NoneOf(buf, a + 1, p, {';', '?'})
    && (if v.state == URI_INIT then a == p == base else a < p)
  }

  ghost predicate ParamsRecords(buf: string, v: Vars, p: nat, a: int, c: int) {
    ParamsFrom(buf, a, v.s, p) && v.uri.params == UNSET && v.s <= c && RecordsLast(buf, v.uri, v.s, c)
    && Current(buf, v, c, p)
  }

  /** `a` as above; `c` is where the parameter being read starts. */
  ghost predicate Tracked(buf: string, base: nat, v: Vars, p: nat, a: int, c: int) {
    base <= p <= |buf| && NoR2(v) && Noted(buf, v, p) && Opened(buf, base, a, p)
    && match KindOf(v.state)
       case Lead => LeadRecords(buf, base, v, p, a)
       case Headers => HeadersRecords(buf, a, v.uri, p)
       case _ => ParamsRecords(buf, v, p, a, c)
  }

  lemma NoneYet(buf: string, u: Uri, s: int)
    requires NoRecords(u)
    ensures RecordsLast(buf, u, s, s)
  {
    hide Reads; hide Inner;
    assert forall k, g :: Named(buf, k, g) ==> g.len >= 0;
    assert forall k, g :: Valued(buf, k, g) ==> g.len >= 0;
    forall g, q | Gives(buf, g, q) ensures g.len >= 0 {
      GivenValue(buf, g, q);
    }
  }

  lemma LeadShape(v: Vars, c: char, p: nat, w: Vars)
    requires KindOf(v.state) == Lead && LeadStep(v, c, p) == Ok(w)
    ensures SameRecords(v.uri, w.uri) && w.uri.params == v.uri.params && w.state != URI_INIT
    ensures KindOf(w.state) == Lead ==> (if v.state == URI_INIT then c != '@' else c !in {';', '?'})
    ensures KindOf(w.state) == Lead || (w.state == URI_PARAM && c == ';' && w.s == p + 1 && v.state != URI_INIT)
            || (w.state == URI_HEADERS && c == '?' && v.state != URI_INIT)
  {
    if v.state in {URI_INIT, URI_USER, URI_PASSWORD, URI_PASSWORD_ALPHA} {
      EarlyShape(v, c, p, w);
      hide LeadStep;
    }
  }

  lemma EarlyShape(v: Vars, c: char, p: nat, w: Vars)
    requires v.state in {URI_INIT, URI_USER, URI_PASSWORD, URI_PASSWORD_ALPHA} && LeadStep(v, c, p) == Ok(w)
    ensures SameRecords(v.uri, w.uri) && w.uri.params == v.uri.params && w.state != URI_INIT
    ensures KindOf(w.state) == Lead ==> (if v.state == URI_INIT then c != '@' else c !in {';', '?'})
    ensures KindOf(w.state) == Lead || (w.state == URI_PARAM && c == ';' && w.s == p + 1 && v.state != URI_INIT)
            || (w.state == URI_HEADERS && c == '?' && v.state != URI_INIT)
  {
    hide HostEnd;
  }

  lemma LeadTracked(buf: string, base: nat, v: Vars, p: nat, a: int, c: int, w: Vars) returns (a': int)
    requires Tracked(buf, base, v, p, a, c) && KindOf(v.state) == Lead && p < |buf| && Step(v, buf[p], p) == Ok(w)
    requires NoR2(w) && Noted(buf, w, p + 1)
    ensures Tracked(buf, base, w, p + 1, a', p + 1)
  {
    hide LeadStep; hide FlagStep; hide HeadersStep; hide ParamCommon; hide ValueCommon; hide Noted; hide RecordsLast;
    hide KindOf; hide NameNext; hide ValNext; hide OfR2; hide HeadersRecords;
    LeadKind(v.state);
    LeadShape(v, buf[p], p, w);
    a' := if buf[p] == '@' then p else a;
    StateKinds();
    if w.state == URI_PARAM {
      NoneYet(buf, w.uri, p + 1);
      StartsHere(buf, w, p + 1);
    } else if w.state == URI_HEADERS {
      MarkHere(buf, a, w.uri, p);
    }
  }

  lemma LeadKind(st: State)
    ensures KindOf(st) == Lead ==> st != URI_PARAM && st != URI_HEADERS
  {
  }

  lemma StateKinds()
    ensures KindOf(URI_PARAM) == Start && KindOf(URI_HEADERS) == Headers && KindOf(URI_HOST) == Lead
            && !OfR2(URI_PARAM)
  {
  }

  lemma StartsHere(buf: string, w: Vars, c: nat)
    requires w.state == URI_PARAM && 0 < c <= |buf| && buf[c - 1] == ';'
    ensures Current(buf, w, c, c)
  {
  }

  lemma MarkHere(buf: string, a: int, u: Uri, p: nat)
    requires NoRecords(u) && u.params == UNSET && a < p < |buf| && buf[p] == '?' && NoneOf(buf, a + 1, p, {';', '?'})
    ensures HeadersRecords(buf, a, u, p + 1)
  {
    assert Is(buf, p, '?');
  }

  /** `still_at_user` starts over. */
  lemma AtTracked(buf: string, base: nat, p: nat, w: Vars)
    requires base <= p < |buf| && buf[p] == '@' && NoR2(w) && Noted(buf, w, p + 1)
    requires w.state == URI_HOST && NoRecords(w.uri) && w.uri.params == UNSET
    ensures Tracked(buf, base, w, p + 1, p, p + 1)
  {
    hide Noted;
  }

  predicate ParamKind(st: State) {
    KindOf(st) in {Start, Plain, Name, Eq, Val, Flag}
  }

  lemma ParamEnds(v: Vars, c: char, p: int, w: Vars)
    requires ParamKind(v.state) && !OfR2(v.state) && c in {';', '?'} && Step(v, c, p) == Ok(w)
             && (KindOf(v.state) == Val ==> v.param.To?)
    ensures EndsWith(v, p, false, w.uri)
    ensures c == ';' ==> w.state == URI_PARAM && w.s == v.s && w.uri.params == v.uri.params
    ensures c == '?' ==> w.state == URI_HEADERS && w.uri.params == FromTo(v.s, p)
  {
    hide LeadStep; hide HeadersStep; hide NameNext; hide ValNext; hide EqNext; hide StartNext; hide StillAtUser;
    hide Colon; hide EqParam;
    CommonEnds(v, c, p);
    if KindOf(v.state) == Eq {
      CommonEnds(v.(param := To(EqParam(v.state))), c, p);
    }
    if KindOf(v.state) == Val {
      PlainValue(v.state);
      hide ProtoOf;
    }
    if KindOf(v.state) == Flag {
      FlagState(v.state);
    }
  }

  lemma CommonEnds(v: Vars, c: char, p: int)
    requires c in {';', '?'}
    ensures ParamCommon(v, c, p).Ok?
    ensures var w := ParamCommon(v, c, p).value;
            SameRecords(v.uri, w.uri) && w.b == v.b && w.v == v.v && w.param == v.param
            && (c == ';' ==> w.state == URI_PARAM && w.s == v.s && w.uri.params == v.uri.params && w == Semicolon(v))
            && (c == '?' ==> w.state == URI_HEADERS && w.uri.params == FromTo(v.s, p) && w == Question(v, p))
  {
  }

  /** A mark ends the parameter. */
  lemma MarkTracked(buf: string, base: nat, v: Vars, p: nat, a: int, c: int, w: Vars)
    requires Tracked(buf, base, v, p, a, c) && ParamKind(v.state) && p < |buf| && buf[p] in {';', '?'}
    requires Step(v, buf[p], p) == Ok(w) && NoR2(w) && Noted(buf, w, p + 1)
    ensures Tracked(buf, base, w, p + 1, a, p + 1)
  {
    hide Step; hide Noted; hide RecordsLast; hide KindOf; hide EndsWith; hide Inner; hide OfR2;
    StateKinds();
    assert ParamsRecords(buf, v, p, a, c);
    CurrentFacts(buf, v, c, p);
    ParamEnds(v, buf[p], p, w);
    ParamsStart(buf, a, v.s, p);
    EndRecords(buf, v, v.s, c, p, w.uri);
    if buf[p] == ';' {
      StartsHere(buf, w, p + 1);
    } else {
      assert ParamsAt(buf, a, w.uri.params);
    }
  }

  lemma CurrentFacts(buf: string, v: Vars, c: int, p: nat)
    requires Current(buf, v, c, p)
    ensures !OfR2(v.state) && (KindOf(v.state) == Val ==> v.param.To?)
  {
    hide Inner; hide Spelling;
  }

  lemma ParamsStart(buf: string, a: int, s: int, p: int)
    requires ParamsFrom(buf, a, s, p) && -1 <= a
    ensures Starts(buf, s)
  {
  }

  /** Any other character but '@' goes on with it. */
  lemma OnTracked(buf: string, base: nat, v: Vars, p: nat, a: int, c: int, w: Vars)
    requires Tracked(buf, base, v, p, a, c) && ParamKind(v.state) && p < |buf| && buf[p] !in {'@', ';', '?'}
    requires Step(v, buf[p], p) == Ok(w) && NoR2(w) && Noted(buf, w, p + 1)
    ensures Tracked(buf, base, w, p + 1, a, c)
  {
    hide Step; hide Noted; hide KindOf; hide Inner; hide OfR2; hide Current; hide NamesLast; hide ValsLast;
    hide ProtoLast;
    assert ParamsRecords(buf, v, p, a, c);
    match KindOf(v.state) {
      case Start => StartOn(buf, v, c, p, w);
      case Plain => PlainOn(buf, v, c, p, w);
      case Name => NameOn(buf, v, c, p, w);
      case Flag => FlagOn(buf, v, c, p, w);
      case Eq => EqOn(buf, v, c, p, w);
      case Val => ValOn(buf, v, c, p, w);
    }
    CurrentKind(buf, w, c, p + 1);
  }

  lemma CurrentKind(buf: string, v: Vars, c: int, p: nat)
    requires Current(buf, v, c, p)
    ensures ParamKind(v.state)
  {
    hide Inner; hide Spelling; hide InValue; hide ValueRead; hide AllDead;
  }

  lemma HeadersTracked(buf: string, base: nat, v: Vars, p: nat, a: int, c: int, w: Vars)
    requires Tracked(buf, base, v, p, a, c) && KindOf(v.state) == Headers && p < |buf| && buf[p] != '@'
    requires HeadersStep(v, buf[p], p) == Ok(w) && NoR2(w) && Noted(buf, w, p + 1)
    ensures Tracked(buf, base, w, p + 1, a, c)
  {
    hide Noted; hide NamesLast; hide ValsLast; hide ProtoLast; hide OfR2;
    OnlyHeaders(v.state);
  }

  lemma StepTracked(buf: string, base: nat, v: Vars, p: nat, a: int, c: int, w: Vars) returns (a': int, c': int)
    requires Tracked(buf, base, v, p, a, c) && p < |buf| && Step(v, buf[p], p) == Ok(w)
    ensures Tracked(buf, base, w, p + 1, a', c')
  {
    hide Noted; hide RecordsLast; hide NoR2; hide ParamsRecords; hide LeadRecords; hide HeadersRecords; hide KindOf;
    StepAvoids(v, buf[p], p);
    StepNotes(buf, v, p, w);
    a', c' := a, p + 1;
    var st := v.state;
    if KindOf(st) == Lead {
      a' := LeadTracked(buf, base, v, p, a, c, w);
    } else if buf[p] == '@' {
      AtStep(v, p, w);
      AtTracked(buf, base, p, w);
      a' := p;
    } else if KindOf(st) == Headers {
      HeadersTracked(buf, base, v, p, a, c, w);
      c' := c;
    } else if buf[p] in {';', '?'} {
      MarkTracked(buf, base, v, p, a, c, w);
    } else {
      OnTracked(buf, base, v, p, a, c, w);
      c' := c;
    }
  }

  lemma AtStep(v: Vars, p: nat, w: Vars)
    requires KindOf(v.state) != Lead && Step(v, '@', p) == Ok(w)
    ensures w.state == URI_HOST && NoRecords(w.uri) && w.uri.params == UNSET
  {
  }

  // ---------- the whole text ----------

  lemma {:induction false} ScanTracked(buf: string, base: nat, v: Vars, p: nat, a: int, c: int, w: Vars)
    returns (a': int, c': int)
    requires Tracked(buf, base, v, p, a, c) && p <= |buf| && Scan(buf, v, p) == Ok(w)
    ensures Tracked(buf, base, w, |buf|, a', c')
    decreases |buf| - p
  {
    hide Step; hide Tracked;
    a', c' := a, c;
    if p < |buf| {
      var x := Step(v, buf[p], p).value;
      a', c' := StepTracked(buf, base, v, p, a, c, x);
      a', c' := ScanTracked(buf, base, x, p + 1, a', c', w);
    }
  }

  /** Recorded are the last of the parameters behind `a`, or nothing if there are none. */
  ghost predicate RecordsBehind(buf: string, a: int, u: Uri) {
    (forall r | ParamsAt(buf, a, r) :: RecordsLast(buf, u, r.s, r.s + r.len + 1))
    && ((forall r :: !ParamsAt(buf, a, r)) ==> NoRecords(u))
    && (u.params.s != NIL ==> ParamsAt(buf, a, u.params))
  }

  lemma BehindOne(buf: string, a: int, u: Uri, r: Field)
    requires ParamsAt(buf, a, r) && -1 <= a && RecordsLast(buf, u, r.s, r.s + r.len + 1) && u.params == r
    ensures RecordsBehind(buf, a, u)
  {
    hide RecordsLast; hide ParamsAt;
    forall x | ParamsAt(buf, a, x) ensures x == r {
      OneRegion(buf, a, x, r);
    }
  }

  lemma BehindNone(buf: string, a: int, u: Uri)
    requires NoRecords(u) && u.params == UNSET && forall r :: !ParamsAt(buf, a, r)
    ensures RecordsBehind(buf, a, u)
  {
  }

  lemma FinishEnds(v: Vars, n: int, u: Uri)
    requires ParamKind(v.state) && !OfR2(v.state) && Finish(v, n) == Ok(u) && (KindOf(v.state) == Val ==> v.param.To?)
    ensures EndsWith(v, n, true, u) && u.params == FromTo(v.s, n)
  {
    if KindOf(v.state) == Flag {
      FlagState(v.state);
    }
    if KindOf(v.state) == Val {
      PlainValue(v.state);
      hide ProtoOf;
    }
  }

  lemma FinishLead(v: Vars, n: int, u: Uri)
    requires KindOf(v.state) == Lead && Finish(v, n) == Ok(u)
    ensures SameRecords(v.uri, u) && u.params == v.uri.params
  {
  }

  lemma LeadTail(buf: string, base: nat, v: Vars, a: int, u: Uri)
    requires LeadRecords(buf, base, v, |buf|, a) && SameRecords(v.uri, u) && u.params == v.uri.params
    ensures RecordsBehind(buf, a, u)
  {
    forall r ensures !ParamsAt(buf, a, r) {
    }
    BehindNone(buf, a, u);
  }

  lemma HeadersTail(buf: string, a: int, x: Uri, u: Uri)
    requires HeadersRecords(buf, a, x, |buf|) && SameRecords(x, u) && u.params == x.params && -1 <= a
    ensures RecordsBehind(buf, a, u)
  {
    hide RecordsLast; hide RecordsBehind; hide HeadersFrom; hide ParamsAt;
    if u.params == UNSET {
      forall r ensures !ParamsAt(buf, a, r) {
        NoRegion(buf, a, |buf|, r);
      }
      BehindNone(buf, a, u);
    } else {
      SameLast(buf, x, u, u.params.s, u.params.s + u.params.len + 1);
      BehindOne(buf, a, u, u.params);
    }
  }

  lemma ParamsTail(buf: string, v: Vars, a: int, c: int, u: Uri)
    requires ParamsRecords(buf, v, |buf|, a, c) && EndsWith(v, |buf|, true, u) && u.params == FromTo(v.s, |buf|)
             && -1 <= a
    ensures RecordsBehind(buf, a, u)
  {
    hide RecordsLast; hide EndsWith; hide RecordsBehind; hide Current; hide ParamsFrom;
    var n := |buf|;
    ParamsStart(buf, a, v.s, n);
    EndRecords(buf, v, v.s, c, n, u);
    assert ParamsAt(buf, a, FromTo(v.s, n)) by { ParamsBound(buf, a, v.s, n); }
    BehindOne(buf, a, u, FromTo(v.s, n));
  }

  lemma ParamsBound(buf: string, a: int, s: int, e: int)
    requires ParamsFrom(buf, a, s, e)
    ensures s <= e
  {
  }

  lemma FinishTracked(buf: string, base: nat, v: Vars, a: int, c: int, u: Uri)
    requires Tracked(buf, base, v, |buf|, a, c) && Finish(v, |buf|) == Ok(u)
    ensures RecordsBehind(buf, a, u)
  {
    hide Noted; hide RecordsBehind; hide Finish; hide KindOf; hide LeadRecords; hide HeadersRecords; hide ParamsRecords;
    hide EndsWith; hide SameRecords; hide NoR2;
    assert -1 <= a by { OpenedBound(buf, base, a); }
    if KindOf(v.state) == Lead {
      FinishLead(v, |buf|, u);
      LeadTail(buf, base, v, a, u);
    } else if KindOf(v.state) == Headers {
      HeadersEnd(v, |buf|, u);
      HeadersTail(buf, a, v.uri, u);
    } else {
      InParameters(buf, v, a, c);
      FinishEnds(v, |buf|, u);
      ParamsTail(buf, v, a, c, u);
    }
  }

  lemma OpenedBound(buf: string, base: nat, a: int)
    requires Opened(buf, base, a, |buf|)
    ensures -1 <= a
  {
  }

  lemma InParameters(buf: string, v: Vars, a: int, c: int)
    requires ParamsRecords(buf, v, |buf|, a, c)
    ensures ParamKind(v.state) && !OfR2(v.state) && (KindOf(v.state) == Val ==> v.param.To?)
  {
    hide Current; hide KindOf; hide OfR2; hide RecordsLast;
    CurrentFacts(buf, v, c, |buf|);
    CurrentKind(buf, v, c, |buf|);
  }

  lemma HeadersEnd(v: Vars, n: int, u: Uri)
    requires KindOf(v.state) == Headers && Finish(v, n) == Ok(u)
    ensures SameRecords(v.uri, u) && u.params == v.uri.params
  {
  }

  lemma SameLast(buf: string, u: Uri, u': Uri, s: int, n: int)
    requires RecordsLast(buf, u, s, n) && SameRecords(u, u')
    ensures RecordsLast(buf, u', s, n)
  {
    hide NamesLast; hide ValsLast; hide ProtoLast;
  }

  /** Of every accepted text: behind its last '@', or in all of it if there is none, the first ';' that no '?' precedes
      starts the parameters. Of these the last of each known name (but `r2`) is recorded, with the last value, and the
      protocol is that of the last `transport` parameter that names one; nothing else is. */
  lemma RecordsLastOnes(buf: string, u: Uri) returns (a: int)
    requires Parsed(buf) == Ok(u)
    ensures Opened(buf, Scheme(buf).value.1, a, |buf|)
    ensures forall r | ParamsAt(buf, a, r) :: RecordsLast(buf, u, r.s, r.s + r.len + 1)
    ensures (forall r :: !ParamsAt(buf, a, r)) ==> NoRecords(u)
    ensures u.params.s != NIL && u.ty == Scheme(buf).value.0 ==> ParamsAt(buf, a, u.params)
  {
    hide Scan; hide Finish; hide RecordsLast; hide ParamsAt; hide Phone; hide FindSemicolon; hide Noted;
    var (ty, base) := Scheme(buf).value;
    var v := Initial(ty, base);
    NothingNoted(buf, v, base);
    InitialTracked(buf, base, v);
    var w := Scan(buf, v, base).value;
    var c;
    a, c := ScanTracked(buf, base, v, base, base, base, w);
    FinishTracked(buf, base, w, a, c, Finish(w, |buf|).value);
    FixKeeps(buf, Finish(w, |buf|).value, u);
    forall r | ParamsAt(buf, a, r) ensures RecordsLast(buf, u, r.s, r.s + r.len + 1) {
      SameLast(buf, Finish(w, |buf|).value, u, r.s, r.s + r.len + 1);
    }
    ScanType(buf, v, base, w);
    FinishType(w, |buf|);
  }

  lemma InitialTracked(buf: string, base: nat, v: Vars)
    requires base <= |buf| && v == Initial(v.uri.ty, base) && Noted(buf, v, base)
    ensures Tracked(buf, base, v, base, base, base)
  {
    hide Noted;
  }

  lemma FixKeeps(buf: string, x: Uri, u: Uri)
    requires FixType(buf, x) == Ok(u)
    ensures SameRecords(x, u) && (u.ty == x.ty ==> u.params == x.params)
  {
    hide Phone; hide FindSemicolon;
  }
}
