/** The automaton of `parse_uri`: its variables, and what one turn of its loop and its end do to them. */
module SipUri {

  const NIL: int := -1
  /** The address of a constant empty string, outside the buffer. */
  const ELSEWHERE: int := -2

  /** A `str`: a start in the buffer, or NIL, and a length. */
  datatype Field = Field(s: int, len: int)

  const UNSET := Field(NIL, 0)

  datatype UriType = ErrorUri | SipUri | SipsUri | TelUri | TelsUri

  datatype Param = Transport | Ttl | UserParam | Maddr | Method | Lr | R2

  const PROTO_NONE := 0
  const PROTO_UDP := 1
  const PROTO_TCP := 2
  const PROTO_TLS := 3
  const PROTO_SCTP := 4

  /** `struct sip_uri`; recognized parameters that were not seen are absent from the two maps. */
  datatype Uri = Uri(ty: UriType, user: Field, passwd: Field, host: Field, port: Field, params: Field, headers: Field,
                     portNo: int, proto: int, names: map<Param, Field>, vals: map<Param, Field>)

  function Blank(ty: UriType): Uri {
    Uri(ty, UNSET, UNSET, UNSET, UNSET, UNSET, UNSET, 0, PROTO_NONE, map[], map[])
  }

  datatype State =
    | URI_INIT | URI_USER | URI_PASSWORD | URI_PASSWORD_ALPHA | URI_HOST | URI_HOST_P | URI_HOST6_P | URI_HOST6_END
    | URI_PORT | URI_PARAM | URI_PARAM_P | URI_VAL_P | URI_HEADERS
    | PT_T | PT_R | PT_A | PT_N | PT_S | PT_P | PT_O | PT_R2 | PT_T2 | PT_EQ
    | PTTL_T2 | PTTL_L | PTTL_EQ
    | PU_U | PU_S | PU_E | PU_R | PU_EQ
    | PM_M | PM_E | PM_T | PM_H | PM_O | PM_D | PM_EQ
    | PMA_A | PMA_D | PMA_D2 | PMA_R | PMA_EQ
    | PLR_L | PLR_R_FIN | PLR_EQ
    | PR2_R | PR2_2_FIN | PR2_EQ
    | VU_U | VU_D | VU_P_FIN
    | VT_T | VT_C | VT_P_FIN
    | VTLS_L | VTLS_S_FIN
    | VS_S | VS_C | VS_T | VS_P_FIN

  datatype ParamRef = NoParam | To(param: Param)

  /** The local variables of `parse_uri` and the structure it fills. */
  datatype Vars = Vars(state: State, s: int, b: int, v: int, param: ParamRef, pass: int, portNo: int,
                       foundUser: bool, errorHeaders: bool, uri: Uri)

  datatype Error = TooShort | BadChar | BadHost | BadPort | BadUri | BadHeaders | Bug

  datatype Res<T> = Ok(value: T) | Err(error: Error)

  function Lower(c: char): char {
    if 'A' <= c <= 'Z' then c - 'A' + 'a' else c
  }

  predicate IsDigit(c: char) { '0' <= c <= '9' }

  function Digit(c: char): int { c as int - '0' as int }

  function FromTo(s: int, e: int): Field { Field(s, e - s) }

  // ---------- the cases shared by the parameter states ----------

  /** Characters that end or abort a parameter. */
  predicate Special(c: char) { c == '@' || c == ';' || c == '?' || c == ':' }

  /** `still_at_user`: what looked like host and parameters was user and password. */
  function StillAtUser(v: Vars, p: int): Res<Vars> {
    if v.foundUser then Err(BadChar)
    else
      var start := v.uri.host.s;
      var user := if v.pass != NIL then FromTo(start, v.pass) else FromTo(start, p);
      var passwd := if v.pass != NIL then FromTo(v.pass + 1, p) else UNSET;
      Ok(v.(state := URI_HOST, s := p + 1, foundUser := true, errorHeaders := false,
            uri := Blank(v.uri.ty).(user := user, passwd := passwd)))
  }

  /** The `if (pass)` block of `semicolon_case` and `question_case`. */
  function DropPass(v: Vars): Vars {
    if v.pass != NIL then v.(foundUser := true, pass := NIL) else v
  }

  function Semicolon(v: Vars): Vars {
    DropPass(v).(state := URI_PARAM)
  }

  function Question(v: Vars, p: int): Vars {
    DropPass(v).(state := URI_HEADERS, s := p + 1, uri := v.uri.(params := FromTo(v.s, p)))
  }

  function Colon(v: Vars, p: int): Vars {
    var w := if v.foundUser then v else if v.pass != NIL then v.(foundUser := true, pass := NIL) else v.(pass := p);
    w.(state := URI_PARAM_P)
  }

  /** `param_common_cases`. */
  function ParamCommon(v: Vars, c: char, p: int): Res<Vars>
    requires Special(c)
  {
    if c == '@' then StillAtUser(v, p)
    else if c == ';' then Ok(Semicolon(v))
    else if c == '?' then Ok(Question(v, p))
    else Ok(Colon(v, p))
  }

  /** `param_set`. */
  function ParamSet(v: Vars, p: int): Vars {
    match v.param
    case NoParam => v
    case To(k) => v.(uri := v.uri.(names := v.uri.names[k := FromTo(v.b, p)], vals := v.uri.vals[k := FromTo(v.v, p)]))
  }

  /** `value_common_cases`, with the protocol a complete transport value stands for. */
  function ValueCommon(v: Vars, c: char, p: int, proto: int): Res<Vars>
    requires Special(c)
  {
    if c == '@' then StillAtUser(v, p)
    else if c == ';' then Ok(SetProto(ParamSet(Semicolon(v), p), proto))
    else if c == '?' then Ok(SetProto(ParamSet(Question(v, p), p), proto))
    else Ok(Colon(v, p).(state := URI_VAL_P))
  }

  function SetProto(v: Vars, proto: int): Vars {
    if proto == PROTO_NONE then v else v.(uri := v.uri.(proto := proto))
  }

  // ---------- tables ----------

  datatype Kind = Lead | Start | Plain | Name | Eq | Val | Flag | Headers

  function KindOf(st: State): Kind {
    match st
    case URI_PARAM => Start
    case URI_PARAM_P => Plain
    case URI_HEADERS => Headers
    case PT_EQ | PTTL_EQ | PU_EQ | PM_EQ | PMA_EQ | PLR_EQ | PR2_EQ => Eq
    case PLR_R_FIN | PR2_2_FIN => Flag
    case URI_VAL_P | VU_U | VU_D | VU_P_FIN | VT_T | VT_C | VT_P_FIN => Val
    case VTLS_L | VTLS_S_FIN | VS_S | VS_C | VS_T | VS_P_FIN => Val
    case PT_T | PT_R | PT_A | PT_N | PT_S | PT_P | PT_O | PT_R2 | PT_T2 => Name
    case PTTL_T2 | PTTL_L | PU_U | PU_S | PU_E | PU_R => Name
    case PM_M | PM_E | PM_T | PM_H | PM_O | PM_D | PMA_A | PMA_D | PMA_D2 | PMA_R | PLR_L | PR2_R => Name
    case _ => Lead
  }

  /** The `param_switch` rows: the state after `c` inside a parameter name. */
  function NameNext(st: State, c: char): State {
    var l := Lower(c);
    match st
    case PT_T => if l == 'r' then PT_R else if l == 't' then PTTL_T2 else URI_PARAM_P
    case PT_R => if l == 'a' then PT_A else URI_PARAM_P
    case PT_A => if l == 'n' then PT_N else URI_PARAM_P
    case PT_N => if l == 's' then PT_S else URI_PARAM_P
    case PT_S => if l == 'p' then PT_P else URI_PARAM_P
    case PT_P => if l == 'o' then PT_O else URI_PARAM_P
    case PT_O => if l == 'r' then PT_R2 else URI_PARAM_P
    case PT_R2 => if l == 't' then PT_T2 else URI_PARAM_P
    case PT_T2 => if c == '=' then PT_EQ else URI_PARAM_P
    case PTTL_T2 => if l == 'l' then PTTL_L else URI_PARAM_P
    case PTTL_L => if c == '=' then PTTL_EQ else URI_PARAM_P
    case PU_U => if l == 's' then PU_S else URI_PARAM_P
    case PU_S => if l == 'e' then PU_E else URI_PARAM_P
    case PU_E => if l == 'r' then PU_R else URI_PARAM_P
    case PU_R => if c == '=' then PU_EQ else URI_PARAM_P
    case PM_M => if l == 'e' then PM_E else if l == 'a' then PMA_A else URI_PARAM_P
    case PM_E => if l == 't' then PM_T else URI_PARAM_P
    case PM_T => if l == 'h' then PM_H else URI_PARAM_P
    case PM_H => if l == 'o' then PM_O else URI_PARAM_P
    case PM_O => if l == 'd' then PM_D else URI_PARAM_P
    case PM_D => if c == '=' then PM_EQ else URI_PARAM_P
    case PMA_A => if l == 'd' then PMA_D else URI_PARAM_P
    case PMA_D => if l == 'd' then PMA_D2 else URI_PARAM_P
    case PMA_D2 => if l == 'r' then PMA_R else URI_PARAM_P
    case PMA_R => if c == '=' then PMA_EQ else URI_PARAM_P
    case PLR_L => if l == 'r' then PLR_R_FIN else URI_PARAM_P
    case PR2_R => if c == '2' then PR2_2_FIN else URI_PARAM_P
    case _ => URI_PARAM_P
  }

  /** The first letter of a parameter; 'r' falls through to the default, so `r2` is never entered. */
  function StartNext(c: char): State {
    match Lower(c)
    case 't' => PT_T
    case 'u' => PU_U
    case 'm' => PM_M
    case 'l' => PLR_L
    case _ => URI_PARAM_P
  }

  /** Letters that set `b`. */
  predicate Marks(c: char) {
    Lower(c) in {'t', 'u', 'm', 'l', 'r'}
  }

  function EqParam(st: State): Param {
    match st
    case PT_EQ => Transport
    case PTTL_EQ => Ttl
    case PU_EQ => UserParam
    case PM_EQ => Method
    case PMA_EQ => Maddr
    case PLR_EQ => Lr
    case _ => R2
  }

  /** The state after the first character of a value. */
  function EqNext(st: State, c: char): State {
    if st != PT_EQ then URI_VAL_P
    else match Lower(c)
      case 'u' => VU_U
      case 't' => VT_T
      case 's' => VS_S
      case _ => URI_VAL_P
  }

  /** The `value_switch` rows. */
  function ValNext(st: State, c: char): State {
    var l := Lower(c);
    match st
    case VU_U => if l == 'd' then VU_D else URI_VAL_P
    case VU_D => if l == 'p' then VU_P_FIN else URI_VAL_P
    case VT_T => if l == 'c' then VT_C else if l == 'l' then VTLS_L else URI_VAL_P
    case VT_C => if l == 'p' then VT_P_FIN else URI_VAL_P
    case VTLS_L => if l == 's' then VTLS_S_FIN else URI_VAL_P
    case VS_S => if l == 'c' then VS_C else URI_VAL_P
    case VS_C => if l == 't' then VS_T else URI_VAL_P
    case VS_T => if l == 'p' then VS_P_FIN else URI_VAL_P
    case _ => URI_VAL_P
  }

  function ProtoOf(st: State): int {
    match st
    case VU_P_FIN => PROTO_UDP
    case VT_P_FIN => PROTO_TCP
    case VTLS_S_FIN => PROTO_TLS
    case VS_P_FIN => PROTO_SCTP
    case _ => PROTO_NONE
  }

  // ---------- one turn of the loop ----------

  /** `check_host_end`; None stands for the characters it does not mention. */
  function HostEnd(v: Vars, c: char, p: int): Res<Vars>
    requires Special(c) || c == '&'
  {
    var w := v.(s := p + 1, uri := v.uri.(host := FromTo(v.s, p)));
    if c == ':' then Ok(w.(state := URI_PORT))
    else if c == ';' then Ok(w.(state := URI_PARAM))
    else if c == '?' then Ok(w.(state := URI_HEADERS))
    else Err(BadChar)
  }

  /** The user candidate turns out to be host and port. */
  function UserIsHost(v: Vars, p: int, next: State): Vars {
    v.(state := next, s := p + 1, foundUser := true,
       uri := v.uri.(port := FromTo(v.s, p), portNo := v.portNo % 65536, host := v.uri.user, user := UNSET))
  }

  function LeadStep(v: Vars, c: char, p: int): Res<Vars> {
    match v.state
    case URI_INIT =>
      if c == '[' then Ok(v.(state := URI_HOST6_P, s := p))
      else if c == ']' || c == ':' || c == '@' then Err(BadChar)
      else Ok(v.(state := URI_USER))
    case URI_USER =>
      if c == '@' then Ok(v.(state := URI_HOST, foundUser := true, s := p + 1, uri := v.uri.(user := FromTo(v.s, p))))
      else if c == ':' then Ok(v.(state := URI_PASSWORD, s := p + 1, uri := v.uri.(user := FromTo(v.s, p))))
      else if c == ';' then Ok(v.(state := URI_PARAM, s := p + 1, uri := v.uri.(host := FromTo(v.s, p))))
      else if c == '?' then Ok(v.(state := URI_HEADERS, s := p + 1, uri := v.uri.(host := FromTo(v.s, p))))
      else if c == '[' || c == ']' then Err(BadChar)
      else Ok(v)
    case URI_PASSWORD =>
      if c == '@' then Ok(v.(state := URI_HOST, portNo := 0, foundUser := true, s := p + 1,
        uri := v.uri.(passwd := FromTo(v.s, p))))
      else if c == ';' then Ok(UserIsHost(v, p, URI_PARAM))
      else if c == '?' then Ok(UserIsHost(v, p, URI_HEADERS))
      else if IsDigit(c) then Ok(v.(portNo := v.portNo * 10 + Digit(c)))
      else if c == '[' || c == ']' || c == ':' then Err(BadChar)
      else Ok(v.(state := URI_PASSWORD_ALPHA, portNo := 0))
    case URI_PASSWORD_ALPHA =>
      if c == '@' then Ok(v.(state := URI_HOST, foundUser := true, s := p + 1, uri := v.uri.(passwd := FromTo(v.s, p))))
      else if c == ';' || c == '?' then Err(BadPort)
      else if c == '[' || c == ']' || c == ':' then Err(BadChar)
      else Ok(v)
    case URI_HOST =>
      if c == '[' then Ok(v.(state := URI_HOST6_P))
      else if Special(c) || c == '&' then Err(BadHost)
      else Ok(v.(state := URI_HOST_P))
    case URI_HOST_P =>
      if Special(c) || c == '&' then HostEnd(v, c, p) else Ok(v)
    case URI_HOST6_END =>
      if Special(c) || c == '&' then HostEnd(v, c, p) else Err(BadHost)
    case URI_HOST6_P =>
      if c == ']' then Ok(v.(state := URI_HOST6_END))
      else if c == '[' || c == '&' || c == '@' || c == ';' || c == '?' then Err(BadHost)
      else Ok(v)
    case URI_PORT =>
      var w := v.(s := p + 1, uri := v.uri.(port := FromTo(v.s, p), portNo := v.portNo % 65536));
      if c == ';' then Ok(w.(state := URI_PARAM))
      else if c == '?' then Ok(w.(state := URI_HEADERS))
      else if IsDigit(c) then Ok(v.(portNo := v.portNo * 10 + Digit(c)))
      else Err(BadPort)
    case _ => Err(Bug)
  }

  function FlagStep(v: Vars, c: char, p: int): Res<Vars> {
    var k := if v.state == PLR_R_FIN then Lr else R2;
    if c == '@' then StillAtUser(v, p)
    else if c == '=' then Ok(v.(state := if v.state == PLR_R_FIN then PLR_EQ else PR2_EQ))
    else if c == ';' then Ok(SetName(Semicolon(v), k, p))
    else if c == '?' then Ok(SetName(Question(v, p), k, p))
    else if c == ':' then Ok(Colon(v, p))
    else Ok(v.(state := URI_PARAM_P))
  }

  function SetName(v: Vars, k: Param, p: int): Vars {
    v.(uri := v.uri.(names := v.uri.names[k := FromTo(v.b, p)]))
  }

  function HeadersStep(v: Vars, c: char, p: int): Res<Vars> {
    if c == '@' then StillAtUser(v, p)
    else if c == ';' then
      if v.foundUser then Err(BadChar)
      else if v.pass != NIL then Err(BadHeaders)
      else Ok(v.(errorHeaders := true))
    else if c == ':' then Ok(Colon(v, p).(state := URI_HEADERS))
    else if c == '?' then Ok(DropPass(v))
    else Ok(v)
  }

  /** The body of the loop, for the character `c` at `p`. */
  function Step(v: Vars, c: char, p: int): Res<Vars> {
    match KindOf(v.state)
    case Lead => LeadStep(v, c, p)
    case Start =>
      if Special(c) then ParamCommon(v, c, p)
      else Ok(v.(state := StartNext(c), b := if Marks(c) then p else v.b))
    case Plain => if Special(c) then ParamCommon(v, c, p) else Ok(v)
    case Name => if Special(c) then ParamCommon(v, c, p) else Ok(v.(state := NameNext(v.state, c)))
    case Eq =>
      var w := v.(param := To(EqParam(v.state)));
      if Special(c) then ParamCommon(w, c, p) else Ok(w.(v := p, state := EqNext(v.state, c)))
    case Val => if Special(c) then ValueCommon(v, c, p, ProtoOf(v.state)) else Ok(v.(state := ValNext(v.state, c)))
    case Flag => FlagStep(v, c, p)
    case Headers => HeadersStep(v, c, p)
  }

  // ---------- before and after the loop ----------

  /** `scheme|=0x20202020`, one byte at a time. */
  function SetBit5(c: char): int {
    if c as int / 32 % 2 == 1 then c as int else c as int + 32
  }

  predicate SchemeIs(buf: string, scheme: string)
    requires |buf| >= 4 && |scheme| == 4
  {
    forall i | 0 <= i < 4 :: SetBit5(buf[i]) == scheme[i] as int
  }

  /** The scheme and the position after it. */
  function Scheme(buf: string): (r: Res<(UriType, int)>) {
    if |buf| < 5 then Err(TooShort)
    else if SchemeIs(buf, "sip:") then Ok((SipUri, 4))
    else if SchemeIs(buf, "sips") then (if buf[4] == ':' then Ok((SipsUri, 5)) else Err(BadUri))
    else if SchemeIs(buf, "tel:") then Ok((TelUri, 4))
    else Err(BadUri)
  }

  function Initial(ty: UriType, base: int): Vars {
    Vars(URI_INIT, base, NIL, NIL, NoParam, NIL, 0, false, false, Blank(ty))
  }

  /** The switch on the state after the last character. */
  function Finish(v: Vars, p: int): Res<Uri> {
    var rest := FromTo(v.s, p);
    var u := v.uri;
    match KindOf(v.state)
    case Lead =>
      (match v.state
       case URI_INIT => Err(TooShort)
       case URI_USER => if v.foundUser then Err(BadUri) else Ok(u.(host := rest))
       case URI_PASSWORD =>
         if v.foundUser then Err(BadPort)
           else Ok(u.(port := rest, portNo := v.portNo % 65536, host := u.user, user := UNSET))
       case URI_PASSWORD_ALPHA => Err(BadPort)
       case URI_HOST_P | URI_HOST6_END => Ok(u.(host := rest))
       case URI_HOST | URI_HOST6_P => Err(BadHost)
       case URI_PORT => Ok(u.(port := rest, portNo := v.portNo % 65536))
       case _ => Err(Bug))
    case Start => Ok(u.(params := rest))
    case Plain => Ok(u.(params := rest))
    case Name => if v.state in {PMA_A, PMA_D, PMA_D2, PMA_R} then Err(Bug) else Ok(u.(params := rest))
    case Eq =>
      if v.state == PMA_EQ then Err(Bug)
      else if v.state == PLR_EQ then Ok(SetName(v, Lr, p).uri.(params := rest))
      else if v.state == PR2_EQ then Ok(SetName(v, R2, p).uri.(params := rest))
      else Ok(u.(params := rest))
    case Flag => Ok(SetName(v, if v.state == PLR_R_FIN then Lr else R2, p).uri.(params := rest))
    case Val => Ok(SetProto(ParamSet(v, p), ProtoOf(v.state)).uri.(params := rest))
    case Headers => if v.errorHeaders then Err(BadHeaders) else Ok(u.(headers := rest))
  }

  function Phone(buf: string, f: Field): bool {
    f.len == 5 && 0 <= f.s && f.s + 5 <= |buf|
    && forall i | 0 <= i < 5 :: Lower(buf[f.s + i]) == "phone"[i]
  }

  /** The first ';' of the user part, or NIL. */
  function FindSemicolon(buf: string, at: int, e: int): int
    decreases e - at
  {
    if at < 0 || at >= e || e > |buf| then NIL else if buf[at] == ';' then at else FindSemicolon(buf, at + 1, e)
  }

  /** `user=phone`: the parameters in the user part become those of the URI. */
  function PhoneFix(buf: string, u: Uri, ty: UriType): Uri {
    var q := FindSemicolon(buf, u.user.s, u.user.s + u.user.len);
    if q == NIL then u.(ty := ty)
    else u.(ty := ty, params := Field(q + 1, u.user.s + u.user.len - q - 1), user := FromTo(u.user.s, q))
  }

  /** The switch on the type at the very end. */
  function FixType(buf: string, u: Uri): Res<Uri> {
    var value := if UserParam in u.vals then u.vals[UserParam] else UNSET;
    match u.ty
    case SipUri => Ok(if Phone(buf, value) then PhoneFix(buf, u, TelUri) else u)
    case SipsUri => Ok(if Phone(buf, value) then PhoneFix(buf, u, TelsUri) else u)
    case TelUri => Ok(u.(user := u.host, host := Field(ELSEWHERE, 0)))
    case TelsUri => Ok(u.(user := u.host, host := Field(ELSEWHERE, 0)))
    case ErrorUri => Err(BadUri)
  }

  /** The automaton over the characters from `p` on. */
  function Scan(buf: string, v: Vars, p: nat): Res<Vars>
    requires p <= |buf|
    decreases |buf| - p
  {
    if p == |buf| then Ok(v)
    else match Step(v, buf[p], p)
      case Err(e) => Err(e)
      case Ok(w) => Scan(buf, w, p + 1)
  }

  /** What `parse_uri` returns, as a function of the text. */
  function Parsed(buf: string): Res<Uri> {
    match Scheme(buf)
    case Err(e) => Err(e)
    case Ok((ty, base)) =>
      match Scan(buf, Initial(ty, base), base)
      case Err(e) => Err(e)
      case Ok(v) =>
        match Finish(v, |buf|)
        case Err(e) => Err(e)
        case Ok(u) => FixType(buf, u)
  }

  /** `parse_uri`. */
  method ParseUri(buf: string) returns (r: Res<Uri>)
    ensures r == Parsed(buf)
  {
    var start := Scheme(buf);
    if start.Err? {
      return Err(start.error);
    }
    var base := start.value.1;
    var v, p := Initial(start.value.0, base), base;
    while p < |buf|
      invariant base <= p <= |buf| && Scan(buf, v, p) == Scan(buf, Initial(start.value.0, base), base)
    {
      var next := Step(v, buf[p], p);
      if next.Err? {
        return Err(next.error);
      }
      v, p := next.value, p + 1;
    }
    var end := Finish(v, p);
    if end.Err? {
      return Err(end.error);
    }
    return FixType(buf, end.value);
  }
}
