/** Finding the JSON value a model buried in its reply: a bracket scanner that tracks string
    state, tried from every opening bracket of one kind. */
module ExtractJson {
  import opened Strings
  import opened Fences
  import opened JsonText

  function CloseOf(open: char): char {
    if open == '[' then ']' else '}'
  }

  predicate IsOpen(c: char) {
    c == '{' || c == '['
  }

  // ----- The depth scan -----

  /** Where the bracket opened before position i is closed, or -1. */
  function ScanEnd(s: string, i: nat, depth: int, inString: bool, open: char): int
    decreases |s| - i
  {
    if i >= |s| then -1
    else if s[i] == '\\' && inString then ScanEnd(s, i + 2, depth, inString, open)
    else if s[i] == '"' then ScanEnd(s, i + 1, depth, !inString, open)
    else if inString then ScanEnd(s, i + 1, depth, inString, open)
    else if s[i] == open then ScanEnd(s, i + 1, depth + 1, inString, open)
    else if s[i] == CloseOf(open) then
      if depth - 1 == 0 then i else ScanEnd(s, i + 1, depth - 1, inString, open)
    else ScanEnd(s, i + 1, depth, inString, open)
  }

  lemma {:induction false} ScanRange(s: string, i: nat, depth: int, inString: bool, open: char)
    requires IsOpen(open)
    ensures var e := ScanEnd(s, i, depth, inString, open);
            e == -1 || (i <= e < |s| && s[e] == CloseOf(open))
    decreases |s| - i
  {
    if i < |s| {
      if s[i] == '\\' && inString {
        ScanRange(s, i + 2, depth, inString, open);
      } else if s[i] == '"' {
        ScanRange(s, i + 1, depth, !inString, open);
      } else if inString {
        ScanRange(s, i + 1, depth, inString, open);
      } else if s[i] == open {
        ScanRange(s, i + 1, depth + 1, inString, open);
      } else if s[i] == CloseOf(open) {
        if depth - 1 != 0 {
          ScanRange(s, i + 1, depth - 1, inString, open);
        }
      } else {
        ScanRange(s, i + 1, depth, inString, open);
      }
    }
  }

  /** t stands in s at position i. */
  predicate At(s: string, i: nat, t: string) {
    i + |t| <= |s| && s[i..i + |t|] == t
  }

  lemma AtSplit(s: string, i: nat, a: string, b: string)
    requires At(s, i, a + b)
    ensures At(s, i, a) && At(s, i + |a|, b)
  {
    var t := s[i..i + |a + b|];
    assert t[..|a|] == a && t[|a|..] == b;
    assert s[i..i + |a|] == t[..|a|] && s[i + |a|..i + |a| + |b|] == t[|a|..];
  }

  /** A character the scan, outside strings, takes no notice of. */
  predicate Neutral(c: char) {
    c != '"' && !IsOpen(c) && c != ']' && c != '}'
  }

  /** White space, or the comma or colon of the grammar. */
  predicate Between(t: string) {
    IsWs(t) || t == "," || t == ":"
  }

  ghost predicate Skips(s: string, i: nat, t: string, d: int, open: char) {
    ScanEnd(s, i, d, false, open) == ScanEnd(s, i + |t|, d, false, open)
  }

  lemma {:induction false} SkipNeutral(s: string, i: nat, t: string, d: int, open: char)
    requires IsOpen(open) && At(s, i, t) && forall k :: 0 <= k < |t| ==> Neutral(t[k])
    ensures Skips(s, i, t, d, open)
    decreases |t|
  {
    if t != "" {
      assert s[i] == s[i..i + |t|][0] == t[0];
      assert s[i + 1..i + 1 + |t[1..]|] == t[1..];
      SkipNeutral(s, i + 1, t[1..], d, open);
    }
  }

  lemma SkipBetween(s: string, i: nat, t: string, d: int, open: char)
    requires IsOpen(open) && At(s, i, t) && Between(t)
    ensures Skips(s, i, t, d, open)
  {
    SkipNeutral(s, i, t, d, open);
  }

  lemma SkipTwo(s: string, i: nat, a: string, b: string, d: int, open: char)
    requires Skips(s, i, a, d, open) && Skips(s, i + |a|, b, d, open)
    ensures Skips(s, i, a + b, d, open)
  {
  }

  lemma SkipUnit(s: string, i: nat, u: Unit, d: int, open: char)
    requires UnitOk(u) && At(s, i, PrintUnit(u))
    ensures ScanEnd(s, i, d, true, open) == ScanEnd(s, i + |PrintUnit(u)|, d, true, open)
  {
    hide At;
    var t := PrintUnit(u);
    AtChar(s, i, t, 0);
    match u
    case Plain(_) =>
    case Escape(_) =>
      AtChar(s, i, t, 1);
    case Unicode(h) =>
      AtChar(s, i, t, 1);
      AtChar(s, i, t, 2);
      AtChar(s, i, t, 3);
      AtChar(s, i, t, 4);
      AtChar(s, i, t, 5);
      assert ScanEnd(s, i, d, true, open) == ScanEnd(s, i + 2, d, true, open);
      assert ScanEnd(s, i + 2, d, true, open) == ScanEnd(s, i + 3, d, true, open);
      assert ScanEnd(s, i + 3, d, true, open) == ScanEnd(s, i + 4, d, true, open);
      assert ScanEnd(s, i + 4, d, true, open) == ScanEnd(s, i + 5, d, true, open);
      assert ScanEnd(s, i + 5, d, true, open) == ScanEnd(s, i + 6, d, true, open);
  }

  lemma AtChar(s: string, i: nat, t: string, k: nat)
    requires At(s, i, t) && k < |t|
    ensures i + k < |s| && s[i + k] == t[k]
  {
    assert s[i + k] == s[i..i + |t|][k];
  }

  lemma {:induction false} SkipUnits(s: string, i: nat, us: seq<Unit>, d: int, open: char)
    requires UnitsOk(us) && At(s, i, PrintUnits(us))
    ensures ScanEnd(s, i, d, true, open) == ScanEnd(s, i + |PrintUnits(us)|, d, true, open)
    decreases |us|
  {
    hide ScanEnd, At, PrintUnit, UnitOk;
    if us != [] {
      AtSplit(s, i, PrintUnit(us[0]), PrintUnits(us[1..]));
      SkipUnit(s, i, us[0], d, open);
      SkipUnits(s, i + |PrintUnit(us[0])|, us[1..], d, open);
    }
  }

  lemma SkipString(s: string, i: nat, us: seq<Unit>, d: int, open: char)
    requires IsOpen(open) && UnitsOk(us) && At(s, i, PrintString(us))
    ensures Skips(s, i, PrintString(us), d, open)
  {
    hide At, PrintUnits, UnitsOk;
    var body := PrintUnits(us);
    AtSplit(s, i, ['"'] + body, ['"']);
    AtSplit(s, i, ['"'], body);
    AtChar(s, i, ['"'], 0);
    AtChar(s, i + 1 + |body|, ['"'], 0);
    SkipUnits(s, i + 1, us, d, open);
  }

  lemma NumberIsNeutral(n: Number)
    requires NumberOk(n)
    ensures forall k :: 0 <= k < |PrintNumber(n)| ==> Neutral(PrintNumber(n)[k])
  {
    assert n.frac != "" ==> n.frac == ['.'] + n.frac[1..];
    assert n.exp != "" ==> n.exp == [n.exp[0]] + n.exp[1..];
    assert |n.exp| > 2 ==> n.exp[1..] == [n.exp[1]] + n.exp[2..];
  }

  /** Inside an open bracket the scan passes over any printed value ... */
  lemma {:induction false} SkipValue(s: string, i: nat, v: Value, d: int, open: char)
    requires IsOpen(open) && Ok(v) && At(s, i, Print(v)) && d >= 1
    ensures Skips(s, i, Print(v), d, open)
    decreases v, 1
  {
    match v
    case Num(n) =>
      NumberIsNeutral(n);
      SkipNeutral(s, i, Print(v), d, open);
    case Str(us) =>
      SkipString(s, i, us, d, open);
    case Arr(_, _) =>
      var inside := if open == '[' then d + 1 else d;
      SkipInside(s, i, v, inside, open);
      assert s[i + |Print(v)| - 1] == ']';
    case Obj(_, _) =>
      var inside := if open == '{' then d + 1 else d;
      SkipInside(s, i, v, inside, open);
      assert s[i + |Print(v)| - 1] == '}';
    case _ =>
      SkipNeutral(s, i, Print(v), d, open);
  }

  /** What stands between the brackets of an array or object. */
  function Inside(v: Value): string
    requires v.Arr? || v.Obj?
  {
    if v.Arr? then PrintElems(v.elems) else PrintMembers(v.members)
  }

  lemma BracketsAround(s: string, i: nat, v: Value)
    requires (v.Arr? || v.Obj?) && At(s, i, Print(v))
    ensures |Print(v)| == |v.ws| + |Inside(v)| + 2 && i + |Print(v)| <= |s|
    ensures At(s, i + 1, v.ws) && At(s, i + 1 + |v.ws|, Inside(v))
    ensures s[i] == (if v.Arr? then '[' else '{') && s[i + |Print(v)| - 1] == CloseOf(s[i])
  {
    hide PrintElems, PrintMembers;
    var first, last := [if v.Arr? then '[' else '{'], [if v.Arr? then ']' else '}'];
    assert Print(v) == first + (v.ws + (Inside(v) + last));
    FourParts(s, i, first, v.ws, Inside(v), last);
  }

  lemma FourParts(s: string, i: nat, a: string, b: string, c: string, d: string)
    requires At(s, i, a + (b + (c + d)))
    ensures var n := |a| + |b| + |c|;
            && At(s, i, a) && At(s, i + |a|, b) && At(s, i + |a| + |b|, c) && At(s, i + n, d)
  {
    hide At;
    AtSplit(s, i, a, b + (c + d));
    AtSplit(s, i + |a|, b, c + d);
    AtSplit(s, i + |a| + |b|, c, d);
  }

  /** ... and over everything between the brackets of an array or object. */
  lemma {:induction false} SkipInside(s: string, i: nat, v: Value, d: int, open: char)
    requires IsOpen(open) && Ok(v) && At(s, i, Print(v)) && d >= 1 && (v.Arr? || v.Obj?)
    ensures |Print(v)| >= 2
    ensures s[i] == (if v.Arr? then '[' else '{') && s[i + |Print(v)| - 1] == CloseOf(s[i])
    ensures ScanEnd(s, i + 1, d, false, open) == ScanEnd(s, i + |Print(v)| - 1, d, false, open)
    decreases v, 0
  {
    hide ScanEnd, IsWs, At, PrintElems, PrintMembers, Print, Skips, CloseOf;
    BracketsAround(s, i, v);
    SkipBetween(s, i + 1, v.ws, d, open);
    if v.Arr? {
      SkipElems(s, i + 1 + |v.ws|, v.elems, d, open);
    } else {
      SkipMembers(s, i + 1 + |v.ws|, v.members, d, open);
    }
    SkippedTwo(s, i + 1, v.ws, Inside(v), d, open);
  }

  lemma SkippedTwo(s: string, i: nat, a: string, b: string, d: int, open: char)
    requires Skips(s, i, a, d, open) && Skips(s, i + |a|, b, d, open)
    ensures ScanEnd(s, i, d, false, open) == ScanEnd(s, i + |a| + |b|, d, false, open)
  {
  }

  /** A comma, white space and the rest of the list. */
  lemma SkipTail(s: string, i: nat, pre: string, rest: string, d: int, open: char)
    requires IsOpen(open) && IsWs(pre) && At(s, i, [','] + (pre + rest))
    requires Skips(s, i + 1 + |pre|, rest, d, open)
    ensures Skips(s, i, [','] + (pre + rest), d, open)
  {
    hide ScanEnd, IsWs, At, Skips;
    AtSplit(s, i, [','], pre + rest);
    AtSplit(s, i + 1, pre, rest);
    SkipBetween(s, i, [','], d, open);
    SkipBetween(s, i + 1, pre, d, open);
    SkipTwo(s, i + 1, pre, rest, d, open);
    SkipTwo(s, i, [','], pre + rest, d, open);
  }

  lemma TailAt(s: string, i: nat, pre: string, rest: string)
    requires At(s, i, [','] + (pre + rest))
    ensures At(s, i + 1 + |pre|, rest)
  {
    hide At;
    AtSplit(s, i, [','], pre + rest);
    AtSplit(s, i + 1, pre, rest);
  }

  lemma SkipNothing(s: string, i: nat, d: int, open: char)
    ensures Skips(s, i, "", d, open)
  {
  }

  lemma {:induction false} SkipElems(s: string, i: nat, es: Elems, d: int, open: char)
    requires IsOpen(open) && ElemsOk(es) && At(s, i, PrintElems(es)) && d >= 1
    ensures Skips(s, i, PrintElems(es), d, open)
    decreases es, 0
  {
    hide ScanEnd, IsWs, At, Skips, Print, Ok;
    if es.NoElems? {
      SkipNothing(s, i, d, open);
    } else {
      var text := Print(es.v);
      var tail := if es.rest.NoElems? then "" else [','] + (es.pre + PrintElems(es.rest));
      AtSplit(s, i, text, es.ws + tail);
      SkipValue(s, i, es.v, d, open);
      var j := i + |text|;
      AtSplit(s, j, es.ws, tail);
      SkipBetween(s, j, es.ws, d, open);
      var k := j + |es.ws|;
      if es.rest.Elem? {
        TailAt(s, k, es.pre, PrintElems(es.rest));
        SkipElems(s, k + 1 + |es.pre|, es.rest, d, open);
        SkipTail(s, k, es.pre, PrintElems(es.rest), d, open);
      } else {
        SkipNothing(s, k, d, open);
      }
      SkipTwo(s, j, es.ws, tail, d, open);
      SkipTwo(s, i, text, es.ws + tail, d, open);
    }
  }

  /** The part of a member before its value. */
  lemma SkipHead(s: string, i: nat, ms: Members, rest: string, d: int, open: char)
    requires IsOpen(open) && MembersOk(ms) && ms.Member?
    requires At(s, i, PrintString(ms.key) + (ms.ws1 + ([':'] + (ms.ws2 + rest))))
    ensures var j := i + |PrintString(ms.key)| + |ms.ws1| + 1 + |ms.ws2|;
            && At(s, j, rest)
            && (Skips(s, j, rest, d, open) ==>
                  Skips(s, i, PrintString(ms.key) + (ms.ws1 + ([':'] + (ms.ws2 + rest))), d, open))
  {
    hide ScanEnd, IsWs, At, Skips, PrintString, UnitsOk, Ok;
    var key := PrintString(ms.key);
    AtSplit(s, i, key, ms.ws1 + ([':'] + (ms.ws2 + rest)));
    var j := i + |key|;
    AtSplit(s, j, ms.ws1, [':'] + (ms.ws2 + rest));
    var k := j + |ms.ws1|;
    AtSplit(s, k, [':'], ms.ws2 + rest);
    AtSplit(s, k + 1, ms.ws2, rest);
    var l := k + 1 + |ms.ws2|;
    if Skips(s, l, rest, d, open) {
      SkipBetween(s, k + 1, ms.ws2, d, open);
      SkipTwo(s, k + 1, ms.ws2, rest, d, open);
      SkipBetween(s, k, [':'], d, open);
      SkipTwo(s, k, [':'], ms.ws2 + rest, d, open);
      SkipBetween(s, j, ms.ws1, d, open);
      SkipTwo(s, j, ms.ws1, [':'] + (ms.ws2 + rest), d, open);
      SkipString(s, i, ms.key, d, open);
      SkipTwo(s, i, key, ms.ws1 + ([':'] + (ms.ws2 + rest)), d, open);
    }
  }

  lemma {:induction false} SkipMembers(s: string, i: nat, ms: Members, d: int, open: char)
    requires IsOpen(open) && MembersOk(ms) && At(s, i, PrintMembers(ms)) && d >= 1
    ensures Skips(s, i, PrintMembers(ms), d, open)
    decreases ms, 0
  {
    hide ScanEnd, IsWs, At, Skips, Print, Ok, PrintString, UnitsOk;
    if ms.NoMembers? {
      SkipNothing(s, i, d, open);
    } else {
      var text := Print(ms.v);
      var tail := if ms.rest.NoMembers? then "" else [','] + (ms.pre + PrintMembers(ms.rest));
      SkipHead(s, i, ms, text + (ms.ws3 + tail), d, open);
      var j := i + |PrintString(ms.key)| + |ms.ws1| + 1 + |ms.ws2|;
      AtSplit(s, j, text, ms.ws3 + tail);
      SkipValue(s, j, ms.v, d, open);
      var k := j + |text|;
      AtSplit(s, k, ms.ws3, tail);
      SkipBetween(s, k, ms.ws3, d, open);
      var l := k + |ms.ws3|;
      if ms.rest.Member? {
        TailAt(s, l, ms.pre, PrintMembers(ms.rest));
        SkipMembers(s, l + 1 + |ms.pre|, ms.rest, d, open);
        SkipTail(s, l, ms.pre, PrintMembers(ms.rest), d, open);
      } else {
        SkipNothing(s, l, d, open);
      }
      SkipTwo(s, k, ms.ws3, tail, d, open);
      SkipTwo(s, j, text, ms.ws3 + tail, d, open);
    }
  }

  /** From the opening bracket of a printed value the scan ends exactly at its last character. */
  lemma ScanFindsValue(s: string, i: nat, v: Value)
    requires Ok(v) && At(s, i, Print(v)) && (v.Arr? || v.Obj?)
    ensures |Print(v)| >= 2 && IsOpen(s[i])
    ensures ScanEnd(s, i, 0, false, s[i]) == i + |Print(v)| - 1
  {
    var open := if v.Arr? then '[' else '{';
    SkipInside(s, i, v, 1, open);
  }

  // ----- Which candidate is accepted -----

  ghost predicate Accepts(s: string, p: nat, open: char) {
    && p < |s| && s[p] == open
    && var e := ScanEnd(s, p, 0, false, open);
       p <= e < |s| && IsJson(s[p..e + 1])
  }

  lemma WsIsNotOpen(s: string)
    requires IsWs(s) && s != ""
    ensures !IsOpen(s[0])
  {
  }

  lemma PrintIsJson(v: Value)
    requires Ok(v) && Depth(v) <= MAX_DEPTH
    ensures IsJson(Print(v))
  {
    assert "" + Print(v) + "" == Print(v);
    assert Reads(Print(v), "", v, "");
  }

  /** The value at the start of a JSON text that opens with a bracket. */
  lemma LeadingValue(t: string) returns (v: Value)
    requires IsJson(t) && t != "" && IsOpen(t[0])
    ensures Ok(v) && Depth(v) <= MAX_DEPTH && (v.Arr? || v.Obj?) && At(t, 0, Print(v)) && IsWs(t[|Print(v)|..])
  {
    hide Ok, Depth, Print;
    var before, w, after :| Reads(t, before, w, after);
    v := w;
    if before != "" {
      WsIsNotOpen(before);
      assert false;
    }
    assert before == "";
    assert t == Print(v) + after;
    OpensLikeBracket(v);
    assert t[0] == Print(v)[0];
  }

  lemma OpensLikeBracket(v: Value)
    requires Ok(v)
    ensures Print(v) != "" && (IsOpen(Print(v)[0]) ==> v.Arr? || v.Obj?)
  {
    hide PrintElems, PrintMembers, PrintUnits, ElemsOk, MembersOk, UnitsOk;
  }

  /** A position is accepted exactly when some JSON text starts there, and then the accepted
      text is that value with nothing after it. */
  lemma AcceptsIffValueStarts(s: string, p: nat, open: char)
    requires IsOpen(open) && p < |s| && s[p] == open
    ensures Accepts(s, p, open) <==> exists q :: p < q <= |s| && IsJson(s[p..q])
    ensures forall q :: p < q <= |s| && IsJson(s[p..q]) ==>
              var e := ScanEnd(s, p, 0, false, open);
              p <= e < q && IsWs(s[e + 1..q])
  {
    ScanRange(s, p, 0, false, open);
    forall q | p < q <= |s| && IsJson(s[p..q])
      ensures Accepts(s, p, open)
      ensures var e := ScanEnd(s, p, 0, false, open); p <= e < q && IsWs(s[e + 1..q])
    {
      ValueStarts(s, p, q, open);
    }
  }

  lemma ValueStarts(s: string, p: nat, q: nat, open: char)
    requires IsOpen(open) && p < q <= |s| && s[p] == open && IsJson(s[p..q])
    ensures Accepts(s, p, open)
    ensures var e := ScanEnd(s, p, 0, false, open); p <= e < q && IsWs(s[e + 1..q])
  {
    hide ScanEnd, IsWs, Ok, Depth, Print, IsJson;
    var v := LeadingValue(s[p..q]);
    ScanFindsValue(s, p, v);
    PrintIsJson(v);
    var e := p + |Print(v)| - 1;
    assert s[p..e + 1] == Print(v);
    assert s[p..q][|Print(v)|..] == s[e + 1..q];
  }

  // ----- What the extraction returns -----

  /** The first bracket of either kind decides which kind is tried. */
  function FirstOpen(s: string): Option<char> {
    var obj, arr := Index(s, "{"), Index(s, "[");
    if arr != -1 && (obj == -1 || arr < obj) then Some('[')
    else if obj != -1 then Some('{')
    else None
  }

  ghost predicate NoneBefore(s: string, p: nat, open: char) {
    forall j :: 0 <= j < p ==> !Accepts(s, j, open)
  }

  ghost predicate LeftmostValue(s: string, open: char, r: string) {
    exists p :: Leftmost(s, open, r, p)
  }

  ghost predicate Leftmost(s: string, open: char, r: string, p: nat) {
    Accepts(s, p, open) && NoneBefore(s, p, open) && r == s[p..ScanEnd(s, p, 0, false, open) + 1]
  }

  ghost predicate Scanned(s: string, r: string) {
    match FirstOpen(s)
    case None => r == s
    case Some(open) => LeftmostValue(s, open, r) || (NoneBefore(s, |s|, open) && r == s)
  }

  /** The content of the first code fence, without its language line. */
  function FenceContent(s: string): string
    requires Contains(s, FENCE)
  {
    TrimSpace(BeforeFence(AfterLine(s[Index(s, FENCE) + 3..])))
  }

  ghost predicate Extracted(raw: string, r: string) {
    var s := TrimSpace(raw);
    if s == "" then r == ""
    else if Contains(s, FENCE) && IsJson(FenceContent(s)) then r == FenceContent(s)
    else Scanned(s, r)
  }

  // ----- The extraction as it runs -----

  method FindEnd(s: string, start: nat, open: char) returns (end: int)
    ensures end == ScanEnd(s, start, 0, false, open)
  {
    var depth, inString, i := 0, false, start;
    end := -1;
    while i < |s|
      invariant end == -1 && start <= i
      invariant ScanEnd(s, i, depth, inString, open) == ScanEnd(s, start, 0, false, open)
      decreases |s| - i
    {
      var ch := s[i];
      if ch == '\\' && inString {
        i := i + 2;
        continue;
      }
      if ch == '"' {
        inString := !inString;
        i := i + 1;
        continue;
      }
      if inString {
        i := i + 1;
        continue;
      }
      if ch == open {
        depth := depth + 1;
      } else if ch == CloseOf(open) {
        depth := depth - 1;
        if depth == 0 {
          end := i;
          break;
        }
      }
      i := i + 1;
    }
  }

  /** The standard library's validity test, as an oracle for the grammar. */
  ghost predicate Decides(valid: string -> bool) {
    forall t :: valid(t) <==> IsJson(t)
  }

  lemma CandidateIsTrimmed(s: string, p: nat, e: nat)
    requires p <= e < |s| && !IsSpace(s[p]) && !IsSpace(s[e])
    ensures TrimSpace(s[p..e + 1]) == s[p..e + 1]
  {
    hide TrimSpace, IsSpace;
    TrimSpaceTrims(s[p..e + 1]);
  }

  /** Scans from one opening bracket and asks whether the balanced text is JSON. */
  method Attempt(s: string, start: nat, open: char, valid: string -> bool) returns (hit: Option<string>)
    requires Decides(valid) && IsOpen(open) && start < |s| && s[start] == open
    ensures hit.Some? <==> Accepts(s, start, open)
    ensures hit.Some? ==> hit.value == s[start..ScanEnd(s, start, 0, false, open) + 1]
  {
    hide ScanEnd, IsJson, TrimSpace;
    var end := FindEnd(s, start, open);
    ScanRange(s, start, 0, false, open);
    hit := None;
    if end != -1 {
      CandidateIsTrimmed(s, start, end);
      var candidate := TrimSpace(s[start..end + 1]);
      if valid(candidate) {
        hit := Some(candidate);
      }
    }
  }

  method TryFrom(s: string, first: nat, open: char, valid: string -> bool) returns (r: string)
    requires Decides(valid) && IsOpen(open) && first < |s|
    requires NoneBefore(s, first, open)
    ensures LeftmostValue(s, open, r) || (NoneBefore(s, |s|, open) && r == s)
  {
    hide ScanEnd, Accepts, Decides;
    var start: nat := first;
    while start < |s|
      invariant start <= |s| && NoneBefore(s, start, open)
      decreases |s| - start
    {
      if s[start] != open {
        var next := IndexFrom(s, [open], start);
        NoOpenUntil(s, start, next, open);
        if next == -1 {
          break;
        }
        start := next;
      }
      var hit := Attempt(s, start, open, valid);
      if hit.Some? {
        assert Leftmost(s, open, hit.value, start);
        return hit.value;
      }
      var next := IndexFrom(s, [open], start + 1);
      NoOpenUntil(s, start + 1, next, open);
      if next == -1 {
        break;
      }
      start := next;
    }
    r := s;
  }

  lemma NoOpenUntil(s: string, start: nat, next: int, open: char)
    requires start <= |s| && next == IndexFrom(s, [open], start)
    requires NoneBefore(s, start, open)
    ensures next == -1 ==> NoneBefore(s, |s|, open)
    ensures next != -1 ==> start <= next < |s| && s[next] == open && NoneBefore(s, next, open)
  {
    forall j | start <= j < |s| && s[j] == open ensures next != -1 && next <= j {
      assert s[j..j + 1] == [open];
      assert OccursAt(s, [open], j);
    }
    if next != -1 {
      assert s[next] == s[next..next + 1][0];
    }
  }

  method FencedCandidate(s: string) returns (candidate: string)
    requires Contains(s, FENCE)
    ensures candidate == FenceContent(s)
  {
    hide TrimSpace;
    var inner := s[Index(s, FENCE) + 3..];
    ghost var fenced := inner;
    var nl := Index(inner, "\n");
    if nl != -1 {
      inner := inner[nl + 1..];
    }
    assert inner == AfterLine(fenced);
    ghost var body := inner;
    var fenceEnd := Index(inner, FENCE);
    if fenceEnd != -1 {
      inner := inner[..fenceEnd];
    }
    assert inner == BeforeFence(body);
    candidate := TrimSpace(inner);
  }

  method ScanBrackets(s: string, valid: string -> bool) returns (r: string)
    requires Decides(valid)
    ensures Scanned(s, r)
  {
    hide Accepts, Decides;
    var firstObj, firstArr := Index(s, "{"), Index(s, "[");
    var first, open := firstObj, '{';
    if firstArr != -1 && (firstObj == -1 || firstArr < firstObj) {
      first, open := firstArr, '[';
    }
    if first == -1 {
      return s;
    }
    NoOpenUntil(s, 0, first, open);
    r := TryFrom(s, first, open, valid);
  }

  method ExtractJSON(raw: string, valid: string -> bool) returns (r: string)
    requires Decides(valid)
    ensures Extracted(raw, r)
  {
    hide Scanned, IsJson, FenceContent;
    var s := TrimSpace(raw);
    if s == "" {
      return "";
    }
    if Index(s, FENCE) != -1 {
      var candidate := FencedCandidate(s);
      if valid(candidate) {
        return candidate;
      }
    }
    r := ScanBrackets(s, valid);
  }

  // ----- What the extraction guarantees -----

  ghost predicate Occurs(s: string, t: string) {
    exists i: nat :: At(s, i, t)
  }

  lemma SliceOccurs(s: string, i: nat, j: nat)
    requires i <= j <= |s|
    ensures Occurs(s, s[i..j])
  {
    assert At(s, i, s[i..j]);
  }

  lemma OccursTransitive(s: string, t: string, u: string)
    requires Occurs(s, t) && Occurs(t, u)
    ensures Occurs(s, u)
  {
    var i: nat :| At(s, i, t);
    var j: nat :| At(t, j, u);
    SliceOfSlice(s, i, |t|, j, |u|);
    assert At(s, i + j, u);
  }

  lemma SliceOfSlice(s: string, i: nat, n: nat, j: nat, m: nat)
    requires i + n <= |s| && j + m <= n
    ensures s[i..i + n][j..j + m] == s[i + j..i + j + m]
  {
    var inner, outer := s[i..i + n][j..j + m], s[i + j..i + j + m];
    forall k | 0 <= k < m ensures inner[k] == outer[k] {
    }
  }

  lemma AfterLineOccurs(t: string)
    ensures Occurs(t, AfterLine(t))
  {
    SliceOccurs(t, 0, |t|);
    assert t[0..|t|] == t;
    if Contains(t, "\n") {
      SliceOccurs(t, Index(t, "\n") + 1, |t|);
    }
  }

  lemma BeforeFenceOccurs(t: string)
    ensures Occurs(t, BeforeFence(t))
  {
    SliceOccurs(t, 0, |t|);
    assert t[0..|t|] == t;
    if Contains(t, FENCE) {
      SliceOccurs(t, 0, Index(t, FENCE));
    }
  }

  lemma {:induction false} FenceOccurs(s: string, content: string)
    requires Contains(s, FENCE) && content == FenceContent(s)
    ensures Occurs(s, content)
  {
    hide Occurs, TrimSpace, AfterLine, BeforeFence;
    var start := Index(s, FENCE) + 3;
    var inner := s[start..];
    SliceOccurs(s, start, |s|);
    assert inner == s[start..|s|];
    AfterLineOccurs(inner);
    OccursTransitive(s, inner, AfterLine(inner));
    var block := BeforeFence(AfterLine(inner));
    BeforeFenceOccurs(AfterLine(inner));
    OccursTransitive(s, AfterLine(inner), block);
    var i, j := TrimSlice(block);
    SliceOccurs(block, i, j);
    OccursTransitive(s, block, content);
  }

  lemma ScannedIsEmbedded(s: string, r: string)
    requires Scanned(s, r) && r != s
    ensures IsJson(r) && Occurs(s, r)
  {
    hide ScanEnd, IsJson, Occurs;
    var open := FirstOpen(s).value;
    var p :| Leftmost(s, open, r, p);
    SliceOccurs(s, p, ScanEnd(s, p, 0, false, open) + 1);
  }

  /** A result other than the trimmed input is a JSON text that occurs in the input. */
  lemma ResultIsEmbeddedJson(raw: string, r: string)
    ensures Extracted(raw, r) && r != TrimSpace(raw) ==> IsJson(r) && Occurs(raw, r)
  {
    hide FenceContent, IsJson, Scanned, Occurs, TrimSpace;
    var s := TrimSpace(raw);
    if Extracted(raw, r) && r != s {
      var i, j := TrimSlice(raw);
      SliceOccurs(raw, i, j);
      if Contains(s, FENCE) && IsJson(FenceContent(s)) {
        FenceOccurs(s, r);
      } else {
        ScannedIsEmbedded(s, r);
      }
      OccursTransitive(raw, s, r);
    }
  }

  // ----- A value in a code fence -----

  lemma ContentOfFence(pre: string, lang: string, body: string, rest: string)
    requires FenceFree(pre) && '\n' !in lang && FenceFree(body)
    ensures var s := pre + Fenced(lang, body) + rest;
            Contains(s, FENCE) && FenceContent(s) == TrimSpace(body)
  {
    hide TrimSpace, FenceFree;
    var s := pre + Fenced(lang, body) + rest;
    var inner := lang + "\n" + (body + FENCE + rest);
    assert s == pre + FENCE + inner;
    FirstFence(pre, inner);
    assert s[|pre| + 3..] == inner;
    CutLine(lang, body + FENCE + rest);
    FirstFence(body, rest);
    assert (body + FENCE + rest)[..|body|] == body;
  }

  /** A value in the first fence is returned, without its language line and white space, whatever
      stands before and behind the fence. */
  lemma FencedValueIsReturned(pre: string, lang: string, body: string, rest: string, r: string)
    requires FenceFree(pre) && '\n' !in lang && FenceFree(body) && IsJson(TrimSpace(body))
    requires Extracted(pre + Fenced(lang, body) + rest, r)
    ensures r == TrimSpace(body)
  {
    hide TrimSpace, FenceFree, IsJson, FenceContent, Scanned;
    var t := Fenced(lang, body);
    var a, b := TrimKeeps(pre + t + rest, pre, t, rest);
    FenceFreeTail(pre, a);
    ContentOfFence(pre[a..], lang, body, rest[..b]);
  }

  predicate NoOpens(s: string) {
    forall i :: 0 <= i < |s| ==> !IsOpen(s[i])
  }

  /** Trimming the input moves the value but keeps it whole, and the preamble bracket-free. */
  lemma Surrounded(raw: string, pre: string, t: string, suf: string) returns (p: nat)
    requires raw == pre + t + suf && NoOpens(pre) && t != "" && Trimmed(t)
    ensures At(TrimSpace(raw), p, t) && NoOpens(TrimSpace(raw)[..p])
  {
    hide TrimSpace;
    var i, j := TrimSlice(raw);
    var s := TrimSpace(raw);
    assert raw[|pre|] == t[0] && raw[|pre| + |t| - 1] == t[|t| - 1];
    assert i <= |pre| && |pre| + |t| <= j;
    p := |pre| - i;
    SliceOfSlice(raw, i, j - i, p, |t|);
    assert raw[|pre|..|pre| + |t|] == t;
    forall k | 0 <= k < p ensures !IsOpen(s[..p][k]) {
      assert s[..p][k] == raw[i + k] == pre[i + k];
    }
  }

  lemma TrimmingAddsNoFence(raw: string)
    ensures Contains(TrimSpace(raw), FENCE) ==> Contains(raw, FENCE)
  {
    hide TrimSpace, IsSpace;
    var i, j := TrimSlice(raw);
    var s := TrimSpace(raw);
    if Contains(s, FENCE) {
      var k := Index(s, FENCE);
      SliceOfSlice(raw, i, j - i, k, 3);
      assert OccursAt(raw, FENCE, i + k);
    }
  }

  lemma FirstOpenAt(s: string, p: nat, open: char)
    requires p < |s| && s[p] == open && IsOpen(open) && NoOpens(s[..p])
    ensures FirstOpen(s) == Some(open)
  {
    assert OccursAt(s, [open], p) by { assert s[p..p + 1] == [open]; }
    assert forall k :: 0 <= k < p ==> s[..p][k] == s[k];
    forall c, k | IsOpen(c) && OccursAt(s, [c], k) ensures k >= p && s[k] == c {
      assert s[k] == s[k..k + 1][0];
    }
    var obj, arr := Index(s, "{"), Index(s, "[");
    assert "{" == ['{'] && "[" == ['['];
  }

  /** The accepted text is the whole of a trimmed value. */
  lemma LastOfValue(s: string, p: nat, t: string, open: char)
    requires At(s, p, t) && t != "" && Trimmed(t)
    requires var e := ScanEnd(s, p, 0, false, open); p <= e < p + |t| && IsWs(s[e + 1..p + |t|])
    ensures s[p..ScanEnd(s, p, 0, false, open) + 1] == t
  {
    var e := ScanEnd(s, p, 0, false, open);
    assert s[e + 1..p + |t|] == t[e + 1 - p..];
  }

  /** An object or array behind a preamble without brackets, and no fence anywhere. */
  ghost predicate Buried(pre: string, t: string, suf: string) {
    NoOpens(pre) && IsJson(t) && t != "" && IsOpen(t[0]) && Trimmed(t) && !Contains(pre + t + suf, FENCE)
  }

  /** Such a value, with anything after it, is found exactly. */
  lemma FindsValueAfterPreamble(pre: string, t: string, suf: string, r: string)
    ensures Buried(pre, t, suf) && Extracted(pre + t + suf, r) ==> r == t
  {
    hide ScanEnd, IsJson, Contains, TrimSpace, FirstOpen, Accepts, Trimmed, NoOpens, IsOpen;
    if Buried(pre, t, suf) && Extracted(pre + t + suf, r) {
      var raw := pre + t + suf;
      var p := Surrounded(raw, pre, t, suf);
      TrimmingAddsNoFence(raw);
      FoundAt(TrimSpace(raw), p, t, r);
    }
  }

  lemma FoundAt(s: string, p: nat, t: string, r: string)
    requires At(s, p, t) && IsJson(t) && t != "" && IsOpen(t[0]) && Trimmed(t)
    requires NoOpens(s[..p]) && Scanned(s, r)
    ensures r == t
  {
    hide ScanEnd, IsJson, FirstOpen, IsWs, IsSpace;
    var open := t[0];
    AtChar(s, p, t, 0);
    FirstOpenAt(s, p, open);
    ValueStarts(s, p, p + |t|, open);
    LastOfValue(s, p, t, open);
    assert forall j :: 0 <= j < p ==> s[..p][j] == s[j];
    assert NoneBefore(s, p, open);
    assert LeftmostValue(s, open, r);
    var q :| Leftmost(s, open, r, q);
    assert q == p;
  }

  ghost predicate ValueAt(s: string, p: nat, q: nat, open: char) {
    p < q <= |s| && s[p] == open && IsJson(s[p..q])
  }

  ghost predicate LeftmostAt(s: string, p: nat, q: nat, open: char) {
    ValueAt(s, p, q, open) && forall j: nat, k: nat :: j < p ==> !ValueAt(s, j, k, open)
  }

  /** Without a fence, the scan finds a value exactly when a JSON text of the first bracket's
      kind starts anywhere in the input, and it finds the leftmost one. */
  lemma FindsIffPresent(s: string, r: string, open: char)
    requires FirstOpen(s) == Some(open) && Scanned(s, r)
    ensures LeftmostValue(s, open, r) <==> exists p: nat, q: nat :: ValueAt(s, p, q, open)
    ensures LeftmostValue(s, open, r) ==>
              exists p: nat, q: nat :: LeftmostAt(s, p, q, open) && r == s[p..q]
    ensures !LeftmostValue(s, open, r) ==> r == s
  {
    hide ScanEnd, IsJson;
    forall p: nat, q: nat | ValueAt(s, p, q, open) ensures Accepts(s, p, open) {
      ValueStarts(s, p, q, open);
    }
    if LeftmostValue(s, open, r) {
      var p :| Leftmost(s, open, r, p);
      assert LeftmostAt(s, p, ScanEnd(s, p, 0, false, open) + 1, open);
    }
  }

  /** When the first bracket is never closed by its own kind the input comes back whole,
      whatever values of the other kind it contains: only one kind is ever tried. */
  lemma OtherKindIsNotTried(s: string, open: char, r: string)
    requires FirstOpen(s) == Some(open) && Scanned(s, r)
    requires forall i :: 0 <= i < |s| ==> s[i] != CloseOf(open)
    ensures r == s
  {
    hide IsJson;
    forall p: nat ensures !Accepts(s, p, open) {
      ScanRange(s, p, 0, false, open);
    }
  }

  lemma BracesAreJson()
    ensures IsJson("{}")
  {
    var v := Obj("", NoMembers);
    assert Ok(v) && Depth(v) == 1;
    assert Print(v) == "{}";
    hide Ok, Depth, Print, IsJson;
    PrintIsJson(v);
  }

  lemma ObjectBehindBracketIsMissed()
    ensures IsJson("{}") && Occurs("[ {}", "{}")
    ensures forall r :: Scanned("[ {}", r) ==> r == "[ {}"
  {
    BracesAreJson();
    hide IsJson, Scanned;
    assert At("[ {}", 2, "{}");
    var s := "[ {}";
    assert OccursAt(s, "[", 0) && Index(s, "[") == 0;
    assert FirstOpen(s) == Some('[');
    forall r | Scanned(s, r) ensures r == s {
      OtherKindIsNotTried(s, '[', r);
    }
  }
}
