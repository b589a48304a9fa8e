/** The path filter of the experiment runner: a `**` matcher that tries every tail of the path,
    compared with the segment-wise meaning of `**`. Patterns use literals, `*`, `?` and `**`. */
module Doublestar {
  import opened Strings

  /** filepath.Match: `*` and `?` never cross a slash. */
  predicate FileMatch(pat: string, path: string)
    decreases |pat| + |path|
  {
    if pat == "" then path == ""
    else if pat[0] == '*' then FileMatch(pat[1..], path) || (path != "" && path[0] != '/' && FileMatch(pat, path[1..]))
    else path != "" && (pat[0] == path[0] || (pat[0] == '?' && path[0] != '/')) && FileMatch(pat[1..], path[1..])
  }

  /** What one character of a pattern may stand for. */
  predicate StandsFor(c: char, run: string) {
    if c == '*' then '/' !in run else if c == '?' then |run| == 1 && run[0] != '/' else run == [c]
  }

  function Glue(runs: seq<string>): string {
    if runs == [] then "" else runs[0] + Glue(runs[1..])
  }

  ghost predicate Divides(pat: string, path: string, runs: seq<string>) {
    |runs| == |pat| && Glue(runs) == path && forall i :: 0 <= i < |pat| ==> StandsFor(pat[i], runs[i])
  }

  /** A path matches exactly if it can be cut into one piece for each character of the pattern. */
  lemma {:induction false} FileMatchIff(pat: string, path: string)
    ensures FileMatch(pat, path) <==> exists runs :: Divides(pat, path, runs)
    decreases |pat| + |path|
  {
    if FileMatch(pat, path) {
      var runs := Runs(pat, path);
    }
    if runs: seq<string> :| Divides(pat, path, runs) {
      DividedMatches(pat, path, runs);
    }
  }

  lemma {:induction false} Runs(pat: string, path: string) returns (runs: seq<string>)
    requires FileMatch(pat, path)
    ensures Divides(pat, path, runs)
    decreases |pat| + |path|
  {
    if pat == "" {
      runs := [];
    } else if pat[0] == '*' && FileMatch(pat[1..], path) {
      var rest := Runs(pat[1..], path);
      runs := [""] + rest;
    } else if pat[0] == '*' {
      var rest := Runs(pat, path[1..]);
      runs := [[path[0]] + rest[0]] + rest[1..];
    } else {
      var rest := Runs(pat[1..], path[1..]);
      runs := [[path[0]]] + rest;
    }
  }

  lemma {:induction false} DividedMatches(pat: string, path: string, runs: seq<string>)
    requires Divides(pat, path, runs)
    ensures FileMatch(pat, path)
    decreases |pat| + |path|
  {
    if pat != "" {
      assert StandsFor(pat[0], runs[0]);
      var rest := Glue(runs[1..]);
      if runs[0] == "" {
        assert path == rest;
        DividedMatches(pat[1..], path, runs[1..]);
      } else if pat[0] == '*' {
        var fewer := [runs[0][1..]] + runs[1..];
        assert Glue(fewer) == runs[0][1..] + rest;
        DividedMatches(pat, path[1..], fewer);
      } else {
        DividedMatches(pat[1..], path[1..], runs[1..]);
      }
    }
  }

  const STARS := "**"

  // ----- The matcher -----

  /** The pattern before its first `**`, less a slash, and after it, less a slash. */
  function Before(pat: string): string
    requires Contains(pat, STARS)
  {
    TrimSuffix(pat[..Index(pat, STARS)], "/")
  }

  function After(pat: string): (s: string)
    requires Contains(pat, STARS)
    ensures |s| < |pat|
  {
    TrimPrefix(pat[Index(pat, STARS) + 2..], "/")
  }

  predicate Anchored(prefix: string, path: string) {
    prefix == "" || HasPrefix(path, prefix + "/") || path == prefix
  }

  function Rest(prefix: string, path: string): string {
    if prefix == "" then path else TrimPrefix(path, prefix + "/")
  }

  /** What the matcher decides. */
  ghost predicate Matches(pat: string, path: string)
    decreases |pat|, 0
  {
    if pat == "" then path == ""
    else if !Contains(pat, STARS) then FileMatch(pat, path)
    else Anchored(Before(pat), path) && SomeTail(After(pat), Rest(Before(pat), path))
  }

  ghost predicate SomeTail(suffix: string, rest: string)
    decreases |suffix|, 1
  {
    suffix == "" || exists i :: 0 <= i <= |rest| && Matches(suffix, rest[i..])
  }

  method IndexOf(s: string, sub: string) returns (r: int)
    ensures r == Index(s, sub)
  {
    var i := 0;
    while i + |sub| <= |s|
      invariant 0 <= i
      invariant forall j :: 0 <= j < i ==> !OccursAt(s, sub, j)
    {
      if s[i..i + |sub|] == sub {
        assert OccursAt(s, sub, i);
        return i;
      }
      i := i + 1;
    }
    r := -1;
  }

  method MatchDoublestar(pat: string, path: string) returns (ok: bool)
    ensures ok <==> Matches(pat, path)
    decreases |pat|
  {
    if pat == "" {
      return path == "";
    }
    var idx := IndexOf(pat, STARS);
    if idx < 0 {
      return FileMatch(pat, path);
    }
    var prefix := TrimSuffix(pat[..idx], "/");
    var suffix := TrimPrefix(pat[idx + |STARS|..], "/");
    if prefix != "" && !HasPrefix(path, prefix + "/") && path != prefix {
      return false;
    }
    var rest := path;
    if prefix != "" {
      rest := TrimPrefix(rest, prefix + "/");
    }
    var i := 0;
    while i <= |rest|
      invariant 0 <= i <= |rest| + 1
      invariant i > 0 ==> suffix != ""
      invariant forall j :: 0 <= j < i ==> !Matches(suffix, rest[j..])
    {
      var tail := rest[i..];
      if suffix == "" {
        return true;
      }
      ok := MatchDoublestar(suffix, tail);
      if ok {
        return;
      }
      i := i + 1;
    }
    ok := false;
  }

  // ----- The filter -----

  ghost predicate MatchesAny(patterns: seq<string>, path: string) {
    exists p :: p in patterns && (FileMatch(p, path) || Matches(p, path))
  }

  method MatchAny(patterns: seq<string>, path: string) returns (ok: bool)
    ensures ok <==> MatchesAny(patterns, path)
  {
    hide FileMatch, Matches;
    for i := 0 to |patterns|
      invariant forall j :: 0 <= j < i ==> !FileMatch(patterns[j], path) && !Matches(patterns[j], path)
    {
      ok := FileMatch(patterns[i], path);
      if !ok {
        ok := MatchDoublestar(patterns[i], path);
      }
      if ok {
        assert patterns[i] in patterns;
        return;
      }
    }
    ok := false;
  }

  datatype PathFilter = PathFilter(allow: seq<string>, deny: seq<string>) {
    ghost predicate Admits(path: string) {
      MatchesAny(allow, path) && !MatchesAny(deny, path)
    }

    /** The first path that is not allowed or is denied, if there is one. */
    method Check(paths: seq<string>) returns (offending: string, ok: bool)
      ensures ok <==> forall p :: p in paths ==> Admits(p)
      ensures ok ==> offending == ""
      ensures !ok ==> exists i :: 0 <= i < |paths| && offending == paths[i] && !Admits(paths[i])
                                  && forall j :: 0 <= j < i ==> Admits(paths[j])
    {
      hide MatchesAny;
      for i := 0 to |paths|
        invariant forall j :: 0 <= j < i ==> Admits(paths[j])
      {
        var allowed := MatchAny(allow, paths[i]);
        if !allowed {
          assert paths[i] in paths;
          return paths[i], false;
        }
        var denied := MatchAny(deny, paths[i]);
        if denied {
          assert paths[i] in paths;
          return paths[i], false;
        }
      }
      offending, ok := "", true;
    }
  }

  // ----- The segment-wise meaning of a pattern -----

  /** `**` stands for any number of whole segments. */
  predicate Segmentwise(ps: seq<string>, xs: seq<string>)
    decreases |ps| + |xs|
  {
    if ps == [] then xs == []
    else if ps[0] == STARS then Segmentwise(ps[1..], xs) || (xs != [] && Segmentwise(ps, xs[1..]))
    else xs != [] && FileMatch(ps[0], xs[0]) && Segmentwise(ps[1..], xs[1..])
  }

  predicate Literal(s: string) {
    '*' !in s && '?' !in s
  }

  predicate Literals(ps: seq<string>) {
    forall p :: p in ps ==> Literal(p)
  }

  /** No `**`, or literal segments, a `**` that is a segment of its own, and a well-formed rest. */
  ghost predicate WellFormed(ps: seq<string>)
    decreases |ps|
  {
    (forall p :: p in ps ==> !Contains(p, STARS)) || exists k :: IsHead(ps, k) && WellFormed(ps[k + 1..])
  }

  predicate IsHead(ps: seq<string>, k: int) {
    0 <= k < |ps| && ps[k] == STARS && Literals(ps[..k])
  }

  lemma {:induction false} FileMatchConcat(p: string, x: string, q: string, y: string)
    requires FileMatch(p, x) && FileMatch(q, y)
    ensures FileMatch(p + q, x + y)
    decreases |p| + |x|
  {
    if p == "" {
      assert p + q == q && x + y == y;
    } else if p[0] == '*' {
      assert (p + q)[1..] == p[1..] + q;
      if FileMatch(p[1..], x) {
        FileMatchConcat(p[1..], x, q, y);
      } else {
        FileMatchConcat(p, x[1..], q, y);
        assert (x + y)[1..] == x[1..] + y;
      }
    } else {
      FileMatchConcat(p[1..], x[1..], q, y);
      assert (p + q)[1..] == p[1..] + q && (x + y)[1..] == x[1..] + y;
    }
  }

  lemma {:induction false} LiteralMatch(p: string, x: string)
    requires Literal(p)
    ensures FileMatch(p, x) <==> p == x
  {
    if p != "" && x != "" {
      LiteralMatch(p[1..], x[1..]);
      assert p == [p[0]] + p[1..] && x == [x[0]] + x[1..];
    }
  }

  lemma SlashMatches()
    ensures FileMatch("/", "/")
  {
  }

  lemma NoStarsNoStar(p: string)
    requires !Contains(p, STARS)
    ensures p != STARS
  {
    assert OccursAt(STARS, STARS, 0);
  }

  lemma {:induction false} PlainSegments(ps: seq<string>, xs: seq<string>)
    requires ps != [] && Segmentwise(ps, xs) && forall p :: p in ps ==> !Contains(p, STARS)
    ensures FileMatch(Join(ps, '/'), Join(xs, '/'))
  {
    hide FileMatch, Contains;
    assert ps[0] in ps;
    NoStarsNoStar(ps[0]);
    if |ps| > 1 {
      assert ps[1] in ps;
      NoStarsNoStar(ps[1]);
      PlainSegments(ps[1..], xs[1..]);
      SlashMatches();
      FileMatchConcat("/", "/", Join(ps[1..], '/'), Join(xs[1..], '/'));
      FileMatchConcat(ps[0], xs[0], "/" + Join(ps[1..], '/'), "/" + Join(xs[1..], '/'));
      assert ps[0] + ("/" + Join(ps[1..], '/')) == Join(ps, '/');
      assert |xs| > 1;
      assert xs[0] + ("/" + Join(xs[1..], '/')) == Join(xs, '/');
    }
  }

  lemma NoStarsConcat(a: string, b: string)
    requires !Contains(a, STARS) && !Contains(b, STARS)
    ensures !Contains(a + "/" + b, STARS)
  {
    var c := a + "/" + b;
    forall j ensures !OccursAt(c, STARS, j) {
      if 0 <= j && j + 1 < |a| {
        assert c[j..j + 2] == a[j..j + 2];
        assert !OccursAt(a, STARS, j);
      } else if |a| < j <= |c| - 2 {
        assert c[j..j + 2] == b[j - |a| - 1..j - |a| + 1];
        assert !OccursAt(b, STARS, j - |a| - 1);
      } else if 0 <= j <= |c| - 2 {
        assert c[|a|] == '/' && STARS[0] == '*' && STARS[1] == '*';
        assert c[j..j + 2][0] == c[j] && c[j..j + 2][1] == c[j + 1];
      }
    }
  }

  lemma {:induction false} NoStarsInJoin(ps: seq<string>)
    requires forall p :: p in ps ==> !Contains(p, STARS)
    ensures !Contains(Join(ps, '/'), STARS)
  {
    if |ps| > 1 {
      NoStarsInJoin(ps[1..]);
      assert ps[0] in ps;
      NoStarsConcat(ps[0], Join(ps[1..], '/'));
    } else if |ps| == 1 {
      assert ps[0] in ps;
    }
  }

  // ----- Nothing the segment-wise meaning accepts is refused -----

  /** What literal segments put in front of the next one. */
  function Lead(lits: seq<string>): string {
    if lits == [] then "" else Join(lits, '/') + "/"
  }

  function Tail(ps: seq<string>): string {
    if ps == [] then "" else "/" + Join(ps, '/')
  }

  lemma LeadStep(lits: seq<string>)
    requires lits != []
    ensures Lead(lits) == lits[0] + "/" + Lead(lits[1..])
  {
    if |lits| > 1 {
      assert lits[0] + "/" + Join(lits[1..], '/') + "/" == lits[0] + "/" + (Join(lits[1..], '/') + "/");
    }
  }

  lemma JoinCons(p: string, rest: seq<string>)
    ensures Join([p] + rest, '/') == p + Tail(rest)
  {
    assert ([p] + rest)[1..] == rest;
  }

  lemma {:induction false} JoinLead(lits: seq<string>, ps: seq<string>)
    requires ps != []
    ensures Join(lits + ps, '/') == Lead(lits) + Join(ps, '/')
  {
    if lits == [] {
      assert lits + ps == ps;
    } else {
      JoinLead(lits[1..], ps);
      LeadStep(lits);
      var rest := lits[1..] + ps;
      assert lits + ps == [lits[0]] + rest;
      JoinCons(lits[0], rest);
      assert lits[0] + ("/" + (Lead(lits[1..]) + Join(ps, '/'))) == (lits[0] + "/" + Lead(lits[1..])) + Join(ps, '/');
    }
  }

  lemma {:induction false} JoinNoStar(lits: seq<string>)
    requires Literals(lits)
    ensures '*' !in Join(lits, '/')
  {
    if lits != [] {
      assert lits[0] in lits;
      JoinNoStar(lits[1..]);
    }
  }

  /** Where the pattern is cut. */
  lemma CutPattern(lits: seq<string>, rest: seq<string>)
    requires Literals(lits)
    ensures var pat := Lead(lits) + STARS + Tail(rest);
            Contains(pat, STARS) && Before(pat) == Join(lits, '/') && After(pat) == Join(rest, '/')
  {
    var lead := Lead(lits);
    var pat := lead + STARS + Tail(rest);
    JoinNoStar(lits);
    assert OccursAt(pat, STARS, |lead|);
    var i := Index(pat, STARS);
    assert pat[i..i + 2][0] == '*';
    assert pat[i] == '*';
    assert i == |lead|;
    assert pat[..i] == lead && pat[i + 2..] == Tail(rest);
    if lits != [] {
      assert lead[|lead| - 1..] == "/";
      assert lead[..|lead| - 1] == Join(lits, '/');
    }
    if rest != [] {
      assert Tail(rest)[1..] == Join(rest, '/');
    }
  }

  lemma {:induction false} LiteralHead(lits: seq<string>, ps: seq<string>, xs: seq<string>)
    requires Literals(lits) && Segmentwise(lits + ps, xs)
    ensures lits <= xs && Segmentwise(ps, xs[|lits|..])
  {
    if lits == [] {
      assert lits + ps == ps && xs[0..] == xs;
    } else {
      assert lits[0] in lits && '*' !in lits[0] && STARS[0] == '*';
      LiteralMatch(lits[0], xs[0]);
      assert (lits + ps)[1..] == lits[1..] + ps;
      LiteralHead(lits[1..], ps, xs[1..]);
      assert xs[1..][|lits| - 1..] == xs[|lits|..];
      assert lits == [lits[0]] + lits[1..] && xs == [xs[0]] + xs[1..];
    }
  }

  lemma {:induction false} StarsSkip(rest: seq<string>, ys: seq<string>) returns (j: nat)
    requires Segmentwise([STARS] + rest, ys)
    ensures j <= |ys| && Segmentwise(rest, ys[j..])
    decreases |ys|
  {
    assert ([STARS] + rest)[1..] == rest;
    if Segmentwise(rest, ys) {
      assert ys[0..] == ys;
      j := 0;
    } else {
      j := StarsSkip(rest, ys[1..]);
      assert ys[1..][j..] == ys[j + 1..];
      j := j + 1;
    }
  }

  lemma {:induction false} JoinTail(ys: seq<string>, j: nat) returns (i: nat)
    requires j <= |ys|
    ensures i <= |Join(ys, '/')| && Join(ys, '/')[i..] == Join(ys[j..], '/')
  {
    if j == 0 {
      assert ys[0..] == ys;
      i := 0;
    } else if j == |ys| {
      i := |Join(ys, '/')|;
    } else {
      i := JoinTail(ys[1..], j - 1);
      assert ys[1..][j - 1..] == ys[j..];
      assert Join(ys, '/') == ys[0] + "/" + Join(ys[1..], '/');
      assert Join(ys, '/')[|ys[0]| + 1 + i..] == Join(ys[1..], '/')[i..];
      i := |ys[0]| + 1 + i;
    }
  }

  /** The path after literal segments, as the matcher cuts it. */
  lemma CutPath(lits: seq<string>, ys: seq<string>)
    ensures var path := Join(lits + ys, '/');
            && Anchored(Join(lits, '/'), path)
            && exists i :: 0 <= i <= |Rest(Join(lits, '/'), path)| && Rest(Join(lits, '/'), path)[i..] == Join(ys, '/')
  {
    hide Join;
    var path, prefix := Join(lits + ys, '/'), Join(lits, '/');
    var rest := Rest(prefix, path);
    if ys == [] {
      assert lits + ys == lits && Join(ys, '/') == "" by { NothingToJoin(); }
      assert rest[|rest|..] == "";
    } else {
      JoinLead(lits, ys);
      var lead := Lead(lits);
      assert path == lead + Join(ys, '/');
      assert path[|lead|..] == Join(ys, '/');
      if prefix == "" {
        assert rest[|lead|..] == Join(ys, '/');
      } else {
        assert lits != [] by { NothingToJoin(); }
        assert path[..|lead|] == lead;
        assert rest[0..] == Join(ys, '/');
      }
    }
  }

  lemma NothingToJoin()
    ensures Join([], '/') == ""
  {
  }

  lemma SomeTailIntro(suffix: string, rest: string, i: int)
    requires 0 <= i <= |rest| && Matches(suffix, rest[i..])
    ensures SomeTail(suffix, rest)
  {
  }

  /** Every path the segment-wise meaning accepts is accepted. */
  lemma {:induction false} AcceptsSegmentwise(ps: seq<string>, xs: seq<string>)
    requires WellFormed(ps) && Segmentwise(ps, xs)
    ensures Matches(Join(ps, '/'), Join(xs, '/'))
    decreases |ps|
  {
    hide FileMatch, Segmentwise;
    if ps == [] {
      NothingMatches(xs);
    } else if forall p :: p in ps ==> !Contains(p, STARS) {
      Plain(ps, xs);
    } else {
      var k :| IsHead(ps, k) && WellFormed(ps[k + 1..]);
      var suffix, path, i := Peel(ps, k, xs);
      var lits, rest := ps[..k], ps[k + 1..];
      AcceptsSegmentwise(rest, suffix);
      SomeTailIntro(Join(rest, '/'), path, i);
      Unpeel(ps, k, Join(xs, '/'));
    }
  }

  lemma NothingMatches(xs: seq<string>)
    requires Segmentwise([], xs)
    ensures xs == []
  {
  }

  lemma Plain(ps: seq<string>, xs: seq<string>)
    requires ps != [] && Segmentwise(ps, xs) && forall p :: p in ps ==> !Contains(p, STARS)
    ensures Matches(Join(ps, '/'), Join(xs, '/'))
  {
    PlainSegments(ps, xs);
    NoStarsInJoin(ps);
  }

  lemma Peel(ps: seq<string>, k: int, xs: seq<string>) returns (ys: seq<string>, rest: string, i: int)
    requires IsHead(ps, k) && Segmentwise(ps, xs)
    ensures Segmentwise(ps[k + 1..], ys) && Anchored(Join(ps[..k], '/'), Join(xs, '/'))
    ensures rest == Rest(Join(ps[..k], '/'), Join(xs, '/')) && 0 <= i <= |rest| && rest[i..] == Join(ys, '/')
  {
    hide FileMatch, Segmentwise, Rest, Anchored, Join;
    var lits := ps[..k];
    assert ps == lits + ([STARS] + ps[k + 1..]);
    LiteralHead(lits, [STARS] + ps[k + 1..], xs);
    var tail := xs[k..];
    assert xs == lits + tail;
    CutPath(lits, tail);
    rest := Rest(Join(lits, '/'), Join(xs, '/'));
    var a :| 0 <= a <= |rest| && rest[a..] == Join(tail, '/');
    var j := StarsSkip(ps[k + 1..], tail);
    var b := JoinTail(tail, j);
    ys, i := tail[j..], a + b;
    assert rest[i..] == rest[a..][b..];
  }

  lemma Unpeel(ps: seq<string>, k: int, path: string)
    requires IsHead(ps, k) && Anchored(Join(ps[..k], '/'), path)
    requires SomeTail(Join(ps[k + 1..], '/'), Rest(Join(ps[..k], '/'), path))
    ensures Matches(Join(ps, '/'), path)
  {
    hide SomeTail, Rest, Anchored;
    var lits, rest := ps[..k], ps[k + 1..];
    assert ps == lits + ([STARS] + rest);
    JoinLead(lits, [STARS] + rest);
    JoinCons(STARS, rest);
    assert Lead(lits) + (STARS + Tail(rest)) == Lead(lits) + STARS + Tail(rest);
    CutPattern(lits, rest);
  }

  /** The same for whole strings. */
  lemma AcceptsDoublestar(pat: string, path: string)
    requires WellFormed(Split(pat, '/')) && Segmentwise(Split(pat, '/'), Split(path, '/'))
    ensures Matches(pat, path)
  {
    hide WellFormed, Segmentwise, Matches;
    AcceptsSegmentwise(Split(pat, '/'), Split(path, '/'));
    JoinSplit(pat, '/');
    JoinSplit(path, '/');
  }

  // ----- Patterns on which the matcher is understood exactly -----

  lemma StarsAtEnd(p: string)
    requires !Contains(p, STARS)
    ensures Index(p + "/**", STARS) == |p| + 1
  {
    hide Contains;
    var pat := p + "/**";
    assert pat[|p| + 1..|p| + 3] == STARS;
    assert OccursAt(pat, STARS, |p| + 1);
    forall j | 0 <= j <= |p| ensures !OccursAt(pat, STARS, j) {
      if j + 1 < |p| {
        assert pat[j..j + 2] == p[j..j + 2];
        NotContained(p, j);
      } else {
        assert pat[j..j + 2][0] == pat[j] && pat[j..j + 2][1] == pat[j + 1] && STARS[0] == '*' && STARS[1] == '*';
        assert pat[|p|] == '/';
      }
    }
  }

  lemma NotContained(p: string, j: int)
    requires !Contains(p, STARS)
    ensures !OccursAt(p, STARS, j)
  {
  }

  // `p/**` stands for `p` and everything below it.
  lemma UnderDirectory(p: string, path: string)
    requires p != "" && !Contains(p, STARS)
    ensures Matches(p + "/**", path) <==> path == p || HasPrefix(path, p + "/")
  {
    hide FileMatch, OccursAt;
    StarsAtEnd(p);
    var pat, i := p + "/**", |p| + 1;
    assert pat[..i] == p + "/" && (p + "/")[|p|..] == "/";
    assert Before(pat) == p;
    assert pat[i + 2..] == "";
    assert SomeTail("", Rest(p, path));
  }

  lemma {:induction false} LiteralPrefix(p: string, q: string, path: string)
    requires Literal(p) && FileMatch(p + q, path)
    ensures p <= path
  {
    if p != "" {
      assert (p + q)[1..] == p[1..] + q;
      LiteralPrefix(p[1..], q, path[1..]);
      assert p == [p[0]] + p[1..] && path == [path[0]] + path[1..];
    }
  }

  lemma LiteralHasNoStars(p: string)
    requires Literal(p)
    ensures !Contains(p, STARS)
  {
    forall i | 0 <= i <= |p| - 2 ensures !OccursAt(p, STARS, i) {
      assert p[i..i + 2][0] == p[i] && STARS[0] == '*';
    }
  }

  /** The filter on a literal directory, file match included. */
  lemma AllowsDirectory(p: string, path: string)
    requires p != "" && Literal(p)
    ensures MatchesAny([p + "/**"], path) <==> path == p || HasPrefix(path, p + "/")
  {
    LiteralHasNoStars(p);
    UnderDirectory(p, path);
    var pat := p + "/**";
    assert pat in [pat];
    if FileMatch(pat, path) {
      assert pat == (p + "/") + STARS;
      LiteralPrefix(p + "/", STARS, path);
    }
  }

  // ----- Tails after a `**` -----

  /** A tail may itself use `*` and `?`, but no `**`. */
  predicate Starless(s: string) {
    s != "" && !Contains(s, STARS)
  }

  /** The pattern matches an end of the path, wherever that starts. */
  ghost predicate EndsWithin(s: string, path: string) {
    exists i :: 0 <= i <= |path| && FileMatch(s, path[i..])
  }

  predicate SegmentStart(path: string, i: int) {
    0 <= i <= |path| && (i == 0 || path[i - 1] == '/')
  }

  /** The pattern matches an end of the path that starts a segment. */
  ghost predicate EndsAtSegment(s: string, path: string) {
    exists i :: SegmentStart(path, i) && FileMatch(s, path[i..])
  }

  lemma TailIsWithin(s: string, rest: string)
    requires Starless(s)
    ensures SomeTail(s, rest) <==> EndsWithin(s, rest)
  {
    hide Contains, FileMatch;
    forall i | 0 <= i <= |rest| ensures Matches(s, rest[i..]) <==> FileMatch(s, rest[i..]) {
    }
    if EndsWithin(s, rest) {
      var i :| 0 <= i <= |rest| && FileMatch(s, rest[i..]);
      SomeTailIntro(s, rest, i);
    }
  }

  /** After a leading `**` a tail is looked for at the end of the path, segment boundary or not. */
  lemma AnyTail(s: string, path: string)
    requires Starless(s)
    ensures Matches("**/" + s, path) <==> EndsWithin(s, path)
  {
    hide SomeTail, EndsWithin, FileMatch;
    var pat := "**/" + s;
    assert Lead([]) + STARS + Tail([s]) == pat;
    CutPattern([], [s]);
    assert Before(pat) == "" && After(pat) == s;
    TailIsWithin(s, path);
  }

  // ----- Matching a slash at a time -----

  lemma {:induction false} NoSlashMatched(p: string, x: string)
    requires '/' !in p && FileMatch(p, x)
    ensures '/' !in x
    decreases |p| + |x|
  {
    if p != "" {
      if p[0] == '*' && !FileMatch(p[1..], x) {
        NoSlashMatched(p, x[1..]);
        assert x == [x[0]] + x[1..];
      } else if p[0] == '*' {
        NoSlashMatched(p[1..], x);
      } else {
        NoSlashMatched(p[1..], x[1..]);
        assert x == [x[0]] + x[1..];
      }
    }
  }

  /** A slash of the pattern is matched by a slash of the path. */
  lemma {:induction false} MatchCut(p: string, q: string, x: string) returns (k: nat)
    requires '/' !in p && FileMatch(p + "/" + q, x)
    ensures k < |x| && x[k] == '/' && FileMatch(p, x[..k]) && FileMatch(q, x[k + 1..])
    decreases |p| + |x|
  {
    var pat := p + "/" + q;
    if p == "" {
      assert pat[1..] == q;
      k := 0;
    } else {
      assert pat[1..] == p[1..] + "/" + q;
      if p[0] == '*' && FileMatch(pat[1..], x) {
        k := MatchCut(p[1..], q, x);
      } else {
        k := MatchCut(if p[0] == '*' then p else p[1..], q, x[1..]);
        assert x[..k + 1][1..] == x[1..][..k] && x[1..][k + 1..] == x[k + 2..];
        k := k + 1;
      }
    }
  }

  lemma SlashInJoin(xs: seq<string>)
    requires |xs| > 1
    ensures Join(xs, '/')[|xs[0]|] == '/' && Join(xs, '/')[..|xs[0]|] == xs[0]
    ensures Join(xs, '/')[|xs[0]| + 1..] == Join(xs[1..], '/')
  {
  }

  lemma ManyHaveSlash(xs: seq<string>)
    requires |xs| > 1
    ensures '/' in Join(xs, '/')
  {
    SlashInJoin(xs);
  }

  /** Without `**`, matching whole strings is matching segment by segment. */
  lemma {:induction false} PlainSegmentsBack(ps: seq<string>, xs: seq<string>)
    requires ps != [] && xs != [] && NoneContain(ps, '/') && NoneContain(xs, '/')
    requires forall p :: p in ps ==> !Contains(p, STARS)
    requires FileMatch(Join(ps, '/'), Join(xs, '/'))
    ensures Segmentwise(ps, xs)
    decreases |ps|
  {
    hide Contains, Join;
    assert ps[0] in ps;
    NoStarsNoStar(ps[0]);
    if |ps| == 1 {
      JoinOne(ps[0]);
      assert ps == [ps[0]];
      NoSlashMatched(ps[0], Join(xs, '/'));
      if |xs| > 1 {
        ManyHaveSlash(xs);
        assert false;
      }
      assert xs == [xs[0]];
      JoinOne(xs[0]);
    } else {
      JoinCons(ps[0], ps[1..]);
      assert ps == [ps[0]] + ps[1..];
      var path := Join(xs, '/');
      assert Join(ps, '/') == ps[0] + "/" + Join(ps[1..], '/');
      var k := MatchCut(ps[0], Join(ps[1..], '/'), path);
      FirstSlash(xs, k, ps[0]);
      PlainSegmentsBack(ps[1..], xs[1..]);
    }
  }

  lemma OneHasNoSlash(xs: seq<string>)
    requires |xs| == 1 && NoneContain(xs, '/')
    ensures '/' !in Join(xs, '/')
  {
  }

  lemma InFront(s: string, n: nat, k: nat)
    requires n < |s| && k <= |s|
    ensures n < k ==> s[n] in s[..k]
  {
    if n < k {
      assert s[..k][n] == s[n];
    }
  }

  lemma FirstSlash(xs: seq<string>, k: nat, p: string)
    requires xs != [] && NoneContain(xs, '/') && '/' !in p
    requires k < |Join(xs, '/')| && Join(xs, '/')[k] == '/' && FileMatch(p, Join(xs, '/')[..k])
    ensures |xs| > 1 && k == |xs[0]| && Join(xs, '/')[..k] == xs[0] && Join(xs, '/')[k + 1..] == Join(xs[1..], '/')
  {
    var path := Join(xs, '/');
    NoSlashMatched(p, path[..k]);
    hide Join, FileMatch;
    if |xs| == 1 {
      OneHasNoSlash(xs);
      assert false;
    } else {
      SlashInJoin(xs);
      InFront(path, |xs[0]|, k);
      InFront(path, k, |xs[0]|);
    }
  }

  lemma SplitStarless(s: string)
    requires !Contains(s, STARS)
    ensures forall p :: p in Split(s, '/') ==> !Contains(p, STARS)
  {
    hide Split, Join;
    var parts := Split(s, '/');
    JoinSplit(s, '/');
    forall p | p in parts ensures !Contains(p, STARS) {
      var i :| 0 <= i < |parts| && parts[i] == p;
      assert parts == parts[..i] + parts[i..] && parts[i..] == [p] + parts[i + 1..];
      JoinLead(parts[..i], parts[i..]);
      JoinCons(p, parts[i + 1..]);
      StarsInside(Lead(parts[..i]), p, Tail(parts[i + 1..]), s);
    }
  }

  lemma StarsInside(a: string, p: string, b: string, s: string)
    requires s == a + (p + b) && !Contains(s, STARS)
    ensures !Contains(p, STARS)
  {
    var k := Index(p, STARS);
    if k >= 0 {
      assert s[|a| + k..|a| + k + 2] == p[k..k + 2];
      assert OccursAt(s, STARS, |a| + k);
    }
  }

  // ----- Ends that start a segment -----

  /** A segment start cuts the segments of the path in two. */
  lemma CutAtSegment(path: string, i: nat) returns (j: nat)
    requires SegmentStart(path, i)
    ensures j <= |Split(path, '/')| && Split(path, '/')[j..] == Split(path[i..], '/')
  {
    hide Split;
    if i == 0 {
      assert path[0..] == path;
      j := 0;
    } else {
      var a, b := path[..i - 1], path[i..];
      assert path == a + ['/'] + b;
      SplitConcat(a, b, '/');
      j := |Split(a, '/')|;
    }
  }

  lemma SegmentCut(path: string, j: nat) returns (i: nat)
    requires j < |Split(path, '/')|
    ensures SegmentStart(path, i) && path[i..] == Join(Split(path, '/')[j..], '/')
  {
    hide Split, Join;
    var xs := Split(path, '/');
    JoinSplit(path, '/');
    if j == 0 {
      assert xs[0..] == xs && path[0..] == path;
      i := 0;
    } else {
      JoinLead(xs[..j], xs[j..]);
      assert xs == xs[..j] + xs[j..];
      var lead := Lead(xs[..j]);
      i := |lead|;
      assert path[i - 1] == lead[i - 1] == '/';
    }
  }

  lemma {:induction false} StarsAbsorb(front: seq<string>, ps: seq<string>, ys: seq<string>)
    requires Segmentwise(ps, ys)
    ensures Segmentwise([STARS] + ps, front + ys)
  {
    assert ([STARS] + ps)[1..] == ps;
    if front == [] {
      assert front + ys == ys;
    } else {
      StarsAbsorb(front[1..], ps, ys);
      assert (front + ys)[1..] == front[1..] + ys;
    }
  }

  lemma {:induction false} SplitLiterals(s: string)
    requires Literal(s)
    ensures Literals(Split(s, '/'))
  {
    if s != "" {
      SplitLiterals(s[1..]);
      var rest := Split(s[1..], '/');
      assert rest[0] in rest;
      forall p | p in Split(s, '/') ensures Literal(p) {
        assert p == "" || p in rest || p == [s[0]] + rest[0];
      }
    }
  }

  /** Segment-wise, a tail after a leading `**` has to start a segment. */
  lemma WholeSegments(s: string, path: string)
    requires Starless(s)
    ensures Segmentwise([STARS] + Split(s, '/'), Split(path, '/')) <==> EndsAtSegment(s, path)
  {
    hide Segmentwise, Split, Contains, FileMatch, Join;
    var ps, xs := Split(s, '/'), Split(path, '/');
    SplitStarless(s);
    JoinSplit(s, '/');
    SplitNoneContain(s, '/');
    SplitNoneContain(path, '/');
    if Segmentwise([STARS] + ps, xs) {
      var j := StarsSkip(ps, xs);
      NotNothing(ps, xs[j..]);
      var i := SegmentCut(path, j);
      PlainSegments(ps, xs[j..]);
    }
    if EndsAtSegment(s, path) {
      var i :| SegmentStart(path, i) && FileMatch(s, path[i..]);
      var j := CutAtSegment(path, i);
      JoinSplit(path[i..], '/');
      PlainSegmentsBack(ps, xs[j..]);
      StarsAbsorb(xs[..j], ps, xs[j..]);
      assert xs[..j] + xs[j..] == xs;
    }
  }

  lemma NotNothing(ps: seq<string>, xs: seq<string>)
    requires ps != [] && Segmentwise(ps, xs) && forall p :: p in ps ==> !Contains(p, STARS)
    ensures xs != []
  {
    hide Contains;
    assert ps[0] in ps;
    NoStarsNoStar(ps[0]);
  }

  /** The tail matches an end of the path, but none that starts a segment. */
  ghost predicate MidSegment(s: string, path: string) {
    EndsWithin(s, path) && !EndsAtSegment(s, path)
  }

  /** Exactly what the matcher lets through beyond the segment-wise meaning of such a pattern. */
  lemma ExtraTails(s: string, path: string)
    requires Starless(s)
    ensures Matches("**/" + s, path) && !Segmentwise([STARS] + Split(s, '/'), Split(path, '/')) <==> MidSegment(s, path)
  {
    hide Segmentwise, Matches, Starless, EndsWithin, EndsAtSegment;
    AnyTail(s, path);
    WholeSegments(s, path);
  }

  lemma {:induction false} StarTakesMore(s: string, x: string, y: string)
    requires s != "" && s[0] == '*' && '/' !in x && FileMatch(s, y)
    ensures FileMatch(s, x + y)
    decreases |x|
  {
    if x == "" {
      assert x + y == y;
    } else {
      StarTakesMore(s, x[1..], y);
      assert (x + y)[1..] == x[1..] + y;
    }
  }

  lemma {:induction false} StartOfSegment(path: string, i: nat) returns (b: nat)
    requires i <= |path|
    ensures b <= i && SegmentStart(path, b) && '/' !in path[b..i]
  {
    if i == 0 || path[i - 1] == '/' {
      b := i;
    } else {
      b := StartOfSegment(path, i - 1);
      assert path[b..i] == path[b..i - 1] + [path[i - 1]];
    }
  }

  /** Nothing, when the tail starts with a star: it reaches back to the start of the segment. */
  lemma StarredTailHasNoExtra(s: string, path: string)
    requires Starless(s) && s[0] == '*'
    ensures !MidSegment(s, path)
  {
    hide FileMatch, Contains;
    if EndsWithin(s, path) {
      var i :| 0 <= i <= |path| && FileMatch(s, path[i..]);
      var b := StartOfSegment(path, i);
      StarTakesMore(s, path[b..i], path[i..]);
      assert path[b..i] + path[i..] == path[b..];
    }
  }

  // ----- A `**` between a literal and a tail -----

  // Below p a tail is looked for as after a leading `**`, and p itself matches when it ends in one.
  lemma BetweenTails(p: string, s: string, path: string)
    requires p != "" && Literal(p) && Starless(s)
    ensures Matches(p + "/**/" + s, path) <==>
            (path == p && EndsWithin(s, p)) || (HasPrefix(path, p + "/") && EndsWithin(s, path[|p| + 1..]))
  {
    hide Literal, SomeTail, EndsWithin, Contains, Before, After;
    var pat := p + "/**/" + s;
    assert Lead([p]) + STARS + Tail([s]) == pat;
    CutPattern([p], [s]);
    JoinOne(p);
    JoinOne(s);
    TailIsWithin(s, Rest(p, path));
  }

  lemma JoinOne(s: string)
    ensures Join([s], '/') == s
  {
  }

  lemma {:induction false} LiteralHeadBack(lits: seq<string>, ps: seq<string>, xs: seq<string>)
    requires Literals(lits) && lits <= xs && Segmentwise(ps, xs[|lits|..])
    ensures Segmentwise(lits + ps, xs)
  {
    if lits == [] {
      assert lits + ps == ps && xs[0..] == xs;
    } else {
      assert lits[0] in lits && '*' !in lits[0] && STARS[0] == '*';
      LiteralMatch(lits[0], xs[0]);
      assert (lits + ps)[1..] == lits[1..] + ps;
      assert xs[1..][|lits| - 1..] == xs[|lits|..];
      LiteralHeadBack(lits[1..], ps, xs[1..]);
    }
  }

  lemma SplitBetween(p: string, s: string)
    ensures Split(p + "/**/" + s, '/') == Split(p, '/') + ([STARS] + Split(s, '/'))
  {
    hide Split;
    assert p + "/**/" + s == p + ['/'] + (STARS + ['/'] + s);
    SplitConcat(p, STARS + ['/'] + s, '/');
    SplitConcat(STARS, s, '/');
    SplitJoin([STARS], '/');
    JoinOne(STARS);
  }

  lemma SegmentsBelow(p: string, s: string, path: string)
    requires Literal(p) && Starless(s)
    requires Segmentwise(Split(p, '/') + ([STARS] + Split(s, '/')), Split(path, '/'))
    ensures HasPrefix(path, p + "/") && EndsAtSegment(s, path[|p| + 1..])
  {
    hide Segmentwise, Literal, Literals, Starless, Split, Join, EndsAtSegment;
    var lits, xs := Split(p, '/'), Split(path, '/');
    SplitLiterals(p);
    LiteralHead(lits, [STARS] + Split(s, '/'), xs);
    var ys := xs[|lits|..];
    SomethingBelow(s, ys);
    JoinSplit(p, '/');
    JoinSplit(path, '/');
    assert xs == lits + ys;
    JoinLead(lits, ys);
    var rest := Join(ys, '/');
    assert path == (p + "/") + rest;
    assert path[|p| + 1..] == rest;
    SplitNoneContain(path, '/');
    SplitJoin(ys, '/');
    WholeSegments(s, rest);
  }

  lemma SomethingBelow(s: string, ys: seq<string>)
    requires Starless(s) && Segmentwise([STARS] + Split(s, '/'), ys)
    ensures ys != []
  {
    hide Segmentwise, Split, Contains;
    SplitStarless(s);
    var j := StarsSkip(Split(s, '/'), ys);
    NotNothing(Split(s, '/'), ys[j..]);
  }

  // Segment-wise, `p/**/s` asks for p, a slash, and a path of which s matches an end that starts a
  // segment.
  lemma SegmentsBetween(p: string, s: string, path: string)
    requires Literal(p) && Starless(s)
    ensures Segmentwise(Split(p + "/**/" + s, '/'), Split(path, '/')) <==>
            HasPrefix(path, p + "/") && EndsAtSegment(s, path[|p| + 1..])
  {
    hide Segmentwise, Literal, Literals, Starless, Split, EndsAtSegment;
    SplitBetween(p, s);
    if Segmentwise(Split(p + "/**/" + s, '/'), Split(path, '/')) {
      SegmentsBelow(p, s, path);
    }
    if HasPrefix(path, p + "/") && EndsAtSegment(s, path[|p| + 1..]) {
      var rest := path[|p| + 1..];
      assert path == p + ['/'] + rest;
      SplitConcat(p, rest, '/');
      WholeSegments(s, rest);
      SplitLiterals(p);
      assert Split(path, '/')[|Split(p, '/')|..] == Split(rest, '/');
      LiteralHeadBack(Split(p, '/'), [STARS] + Split(s, '/'), Split(path, '/'));
    }
  }

  // Exactly what is let through beyond that: p itself when it ends in s, and the paths below p that
  // end in s in the middle of a segment only.
  lemma ExtraBetween(p: string, s: string, path: string)
    requires p != "" && Literal(p) && Starless(s)
    ensures Matches(p + "/**/" + s, path) && !Segmentwise(Split(p + "/**/" + s, '/'), Split(path, '/'))
            <==> (path == p && EndsWithin(s, p)) || (HasPrefix(path, p + "/") && MidSegment(s, path[|p| + 1..]))
  {
    hide Segmentwise, Matches, Literal, Starless, Split, EndsWithin, EndsAtSegment;
    BetweenTails(p, s, path);
    SegmentsBetween(p, s, path);
  }

  // ----- Literal tails -----

  /** For a literal tail an end is a suffix. */
  lemma LiteralEnds(s: string, path: string)
    requires s != "" && Literal(s)
    ensures Starless(s)
    ensures EndsWithin(s, path) <==> HasSuffix(path, s)
    ensures EndsAtSegment(s, path) <==> path == s || HasSuffix(path, "/" + s)
    ensures MidSegment(s, path) <==> InsideSegment(path, s)
  {
    hide Literal, FileMatch, Contains;
    LiteralHasNoStars(s);
    forall i | 0 <= i <= |path| ensures FileMatch(s, path[i..]) <==> path[i..] == s {
      LiteralMatch(s, path[i..]);
    }
    SuffixWithSlash(path, s);
    if HasSuffix(path, s) {
      var i := |path| - |s|;
      assert path[i..] == s && FileMatch(s, path[i..]);
      assert path != s && HasSuffix(path, "/" + s) ==> path[|path| - |s| - 1..][0] == '/';
      assert SegmentStart(path, i) <==> path == s || HasSuffix(path, "/" + s);
    }
  }

  /** The path ends in s, and s starts in the middle of a segment. */
  predicate InsideSegment(path: string, s: string) {
    HasSuffix(path, s) && path != s && path[|path| - |s| - 1] != '/'
  }

  lemma SuffixWithSlash(path: string, s: string)
    ensures InsideSegment(path, s) <==> HasSuffix(path, s) && path != s && !HasSuffix(path, "/" + s)
  {
    if HasSuffix(path, s) && path != s {
      assert path[|path| - |s| - 1..] == [path[|path| - |s| - 1]] + s;
    }
  }

  lemma BetweenLiterals(p: string, s: string, path: string)
    requires p != "" && Literal(p) && s != "" && Literal(s)
    ensures Matches(p + "/**/" + s, path) <==>
            (path == p && HasSuffix(p, s)) || (HasPrefix(path, p + "/") && HasSuffix(path[|p| + 1..], s))
  {
    hide Matches, Literal, Starless, EndsWithin;
    LiteralEnds(s, p);
    BetweenTails(p, s, path);
    if HasPrefix(path, p + "/") {
      LiteralEnds(s, path[|p| + 1..]);
    }
  }

  // So `ab/**/b` matches `ab`, and `s/**/s` matches `s` for every literal s.
  lemma OverlapIsAccepted(p: string, s: string)
    requires p != "" && Literal(p) && s != "" && Literal(s) && HasSuffix(p, s)
    ensures Matches(p + "/**/" + s, p) && !Segmentwise(Split(p + "/**/" + s, '/'), Split(p, '/'))
  {
    hide Segmentwise, Matches, Literal, Starless, Split, EndsWithin, MidSegment;
    LiteralEnds(s, p);
    ExtraBetween(p, s, p);
  }
}
