/** JSON texts as in RFC 8259: a concrete syntax tree for every text of the grammar, with
    its printed form, so that "is valid JSON" means "is the print of some tree". */
module JsonText {

  predicate IsWs(s: string) {
    forall i :: 0 <= i < |s| ==> s[i] == ' ' || s[i] == '\t' || s[i] == '\n' || s[i] == '\r'
  }

  predicate IsDigit(c: char) {
    '0' <= c <= '9'
  }

  predicate IsHex(c: char) {
    IsDigit(c) || 'a' <= c <= 'f' || 'A' <= c <= 'F'
  }

  predicate AllDigits(s: string) {
    forall i :: 0 <= i < |s| ==> IsDigit(s[i])
  }

  /** Section 6: [ minus ] int [ frac ] [ exp ], given by its parts. */
  datatype Number = Number(minus: bool, whole: string, frac: string, exp: string)

  predicate NumberOk(n: Number) {
    && n.whole != "" && AllDigits(n.whole) && (|n.whole| > 1 ==> n.whole[0] != '0')
    && (n.frac == "" || (|n.frac| > 1 && n.frac[0] == '.' && AllDigits(n.frac[1..])))
    && (n.exp == "" || (|n.exp| > 1 && (n.exp[0] == 'e' || n.exp[0] == 'E')
        && (AllDigits(n.exp[1..]) || (|n.exp| > 2 && (n.exp[1] == '+' || n.exp[1] == '-') && AllDigits(n.exp[2..])))))
  }

  function PrintNumber(n: Number): string {
    (if n.minus then "-" else "") + n.whole + n.frac + n.exp
  }

  /** Section 7: one character of a string, in the form it is written in. */
  datatype Unit = Plain(c: char) | Escape(c: char) | Unicode(hex: string)

  predicate UnitOk(u: Unit) {
    match u
    case Plain(c) => c >= ' ' && c != '"' && c != '\\'
    case Escape(c) => c in ['"', '\\', '/', 'b', 'f', 'n', 'r', 't']
    case Unicode(h) => |h| == 4 && forall i :: 0 <= i < 4 ==> IsHex(h[i])
  }

  function PrintUnit(u: Unit): string {
    match u
    case Plain(c) => [c]
    case Escape(c) => ['\\', c]
    case Unicode(h) => ['\\', 'u'] + h
  }

  predicate UnitsOk(us: seq<Unit>) {
    forall i :: 0 <= i < |us| ==> UnitOk(us[i])
  }

  function PrintUnits(us: seq<Unit>): string {
    if us == [] then "" else PrintUnit(us[0]) + PrintUnits(us[1..])
  }

  function PrintString(us: seq<Unit>): string {
    ['"'] + PrintUnits(us) + ['"']
  }

  /** Sections 3 to 5; white space is allowed where the grammar has `ws`. */
  datatype Value =
    | True | False | Null
    | Num(n: Number)
    | Str(us: seq<Unit>)
    | Arr(ws: string, elems: Elems)
    | Obj(ws: string, members: Members)

  datatype Elems = NoElems | Elem(v: Value, ws: string, rest: Elems, pre: string)

  datatype Members = NoMembers | Member(key: seq<Unit>, ws1: string, ws2: string, v: Value, ws3: string,
                                        rest: Members, pre: string)

  predicate Ok(v: Value) {
    match v
    case Num(n) => NumberOk(n)
    case Str(us) => UnitsOk(us)
    case Arr(ws, es) => IsWs(ws) && ElemsOk(es)
    case Obj(ws, ms) => IsWs(ws) && MembersOk(ms)
    case _ => true
  }

  predicate ElemsOk(es: Elems) {
    es.Elem? ==> Ok(es.v) && IsWs(es.ws) && IsWs(es.pre) && ElemsOk(es.rest)
  }

  predicate MembersOk(ms: Members) {
    ms.Member? ==>
      UnitsOk(ms.key) && IsWs(ms.ws1) && IsWs(ms.ws2) && Ok(ms.v) && IsWs(ms.ws3) && IsWs(ms.pre) && MembersOk(ms.rest)
  }

  function Print(v: Value): string {
    match v
    case True => "true"
    case False => "false"
    case Null => "null"
    case Num(n) => PrintNumber(n)
    case Str(us) => PrintString(us)
    case Arr(ws, es) => ['['] + (ws + (PrintElems(es) + [']']))
    case Obj(ws, ms) => ['{'] + (ws + (PrintMembers(ms) + ['}']))
  }

  /** Each element with the white space after it; `pre` is the white space after the comma. */
  function PrintElems(es: Elems): string {
    match es
    case NoElems => ""
    case Elem(v, ws, rest, pre) =>
      Print(v) + (ws + if rest.NoElems? then "" else [','] + (pre + PrintElems(rest)))
  }

  function PrintMembers(ms: Members): string {
    match ms
    case NoMembers => ""
    case Member(key, ws1, ws2, v, ws3, rest, pre) =>
      PrintString(key) + (ws1 + ([':'] + (ws2 + (Print(v)
        + (ws3 + if rest.NoMembers? then "" else [','] + (pre + PrintMembers(rest)))))))
  }

  /** How deep arrays and objects are nested. */
  function Depth(v: Value): nat {
    match v
    case Arr(_, es) => 1 + DepthElems(es)
    case Obj(_, ms) => 1 + DepthMembers(ms)
    case _ => 0
  }

  function DepthElems(es: Elems): nat {
    match es
    case NoElems => 0
    case Elem(v, _, rest, _) => if Depth(v) > DepthElems(rest) then Depth(v) else DepthElems(rest)
  }

  function DepthMembers(ms: Members): nat {
    match ms
    case NoMembers => 0
    case Member(_, _, _, v, _, rest, _) => if Depth(v) > DepthMembers(rest) then Depth(v) else DepthMembers(rest)
  }

  /** Section 9 lets a parser limit the nesting; this is the limit of Go's encoding/json. */
  const MAX_DEPTH := 10000

  ghost predicate Reads(s: string, before: string, v: Value, after: string) {
    IsWs(before) && Ok(v) && Depth(v) <= MAX_DEPTH && IsWs(after) && s == before + Print(v) + after
  }

  /** Section 2: JSON-text = ws value ws, nested no deeper than the parser's limit. */
  ghost predicate IsJson(s: string) {
    exists before, v, after :: Reads(s, before, v, after)
  }
}
