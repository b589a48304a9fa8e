/** Acceptance criteria: cutting a text into items, printing the items, and reading them back. */
module Criteria {
  import opened Strings

  // ----- Sentences -----

  const ABBREVIATIONS: set<string> := {"e.g", "i.e", "etc", "vs", "cf", "al", "approx", "no", "inc", "ltd", "mr", "ms",
    "mrs", "dr", "fig", "st", "jr", "sr"}

  function LastWord(segment: string): string {
    if segment == "" || IsSpace(segment[|segment| - 1]) then ""
    else LastWord(segment[..|segment| - 1]) + [segment[|segment| - 1]]
  }

  predicate KnownAbbreviation(word: string) {
    ToLower(word) in ABBREVIATIONS
  }

  /** The text ends in a known abbreviation. */
  predicate Abbreviated(segment: string) {
    KnownAbbreviation(LastWord(segment))
  }

  predicate IsTerminal(c: char) {
    c == '.' || c == '!' || c == '?'
  }

  /** A sentence of `t` ends at `j`: terminal punctuation, then white space, and no abbreviation. */
  predicate IsBoundary(t: string, j: int) {
    0 <= j < |t| - 1 && IsTerminal(t[j]) && IsSpace(t[j + 1]) && !(t[j] == '.' && Abbreviated(t[..j]))
  }

  /** The first boundary at or after `from`, or -1. */
  function Boundary(t: string, from: nat): (b: int)
    ensures b == -1 || (from <= b && IsBoundary(t, b))
    ensures forall j :: from <= j && IsBoundary(t, j) ==> 0 <= b <= j
    decreases |t| - from
  {
    if from >= |t| then -1 else if IsBoundary(t, from) then from else Boundary(t, from + 1)
  }

  function Sentences(t: string): seq<string>
    decreases |t|
  {
    var b := Boundary(t, 0);
    if b == -1 then (if TrimSpace(t) == "" then [] else [TrimSpace(t)])
    else [TrimSpace(t[..b + 1])] + Sentences(TrimLeft(t[b + 1..]))
  }

  lemma LastWordGrows(segment: string, k: int)
    requires 0 < k <= |segment| && !IsSpace(segment[k - 1])
    ensures LastWord(segment[..k]) == LastWord(segment[..k - 1]) + [segment[k - 1]]
  {
    assert segment[..k][..k - 1] == segment[..k - 1];
  }

  lemma NoLastWord(segment: string, k: int)
    requires 0 <= k <= |segment| && (k > 0 ==> IsSpace(segment[k - 1]))
    ensures LastWord(segment[..k]) == ""
  {
  }

  const SPACES := " \t\n\r\U{0B}\U{0C}"

  ghost predicate InSpaces(c: char) {
    c in SPACES
  }

  lemma SpacesIff(c: char)
    ensures InSpaces(c) <==> IsSpace(c)
  {
  }

  /** `word` ends at `j`, with white space or nothing before it and none inside. */
  ghost predicate WordBefore(t: string, j: nat, word: string) {
    && |word| <= j <= |t| && t[j - |word|..j] == word
    && (|word| < j ==> InSpaces(t[j - |word| - 1]))
    && forall i :: 0 <= i < |word| ==> !InSpaces(word[i])
  }

  lemma {:induction false} LastWordIsBefore(t: string, j: nat)
    requires j <= |t|
    ensures WordBefore(t, j, LastWord(t[..j]))
  {
    hide LastWord, WordBefore, IsSpace, InSpaces;
    if j > 0 {
      SpacesIff(t[j - 1]);
    }
    if j > 0 && !IsSpace(t[j - 1]) {
      LastWordIsBefore(t, j - 1);
      LastWordGrows(t, j);
      WordGrows(t, j, LastWord(t[..j - 1]));
    } else {
      NoLastWord(t, j);
      NoWordBefore(t, j);
    }
  }

  lemma WordGrows(t: string, j: nat, word: string)
    requires 0 < j <= |t| && !InSpaces(t[j - 1]) && WordBefore(t, j - 1, word)
    ensures WordBefore(t, j, word + [t[j - 1]])
  {
    hide InSpaces;
    var longer := word + [t[j - 1]];
    assert t[j - |longer|..j] == longer;
  }

  lemma NoWordBefore(t: string, j: nat)
    requires j <= |t| && (j > 0 ==> InSpaces(t[j - 1]))
    ensures WordBefore(t, j, "")
  {
  }

  lemma NoSpaceInside(t: string, j: nat, word: string, p: nat)
    requires WordBefore(t, j, word) && j - |word| <= p < j
    ensures !InSpaces(t[p])
  {
    hide InSpaces;
    assert t[j - |word|..j][p - (j - |word|)] == word[p - (j - |word|)];
  }

  lemma SpaceOutside(t: string, j: nat, word: string)
    requires WordBefore(t, j, word)
    ensures |word| <= j <= |t| && (|word| < j ==> InSpaces(t[j - |word| - 1]))
  {
  }

  lemma NoLonger(t: string, j: nat, a: string, b: string)
    requires WordBefore(t, j, a) && WordBefore(t, j, b)
    ensures |b| <= |a|
  {
    hide InSpaces, WordBefore;
    SpaceOutside(t, j, a);
    SpaceOutside(t, j, b);
    if |a| < |b| {
      NoSpaceInside(t, j, b, j - |a| - 1);
    }
  }

  /** Only one word ends there. */
  lemma WordIsOne(t: string, j: nat, a: string, b: string)
    requires WordBefore(t, j, a) && WordBefore(t, j, b)
    ensures a == b
  {
    NoLonger(t, j, a, b);
    NoLonger(t, j, b, a);
  }

  lemma LastWordIff(t: string, j: nat, word: string)
    requires j <= |t|
    ensures WordBefore(t, j, word) <==> LastWord(t[..j]) == word
  {
    hide LastWord, WordBefore;
    LastWordIsBefore(t, j);
    if WordBefore(t, j, word) {
      WordIsOne(t, j, word, LastWord(t[..j]));
    }
  }

  /** A sentence ends at terminal punctuation with white space after it, unless it is the period of
      an abbreviation. */
  lemma SentenceEndsIff(t: string, j: int)
    ensures IsBoundary(t, j) <==>
            && 0 <= j < |t| - 1 && t[j] in ".!?" && InSpaces(t[j + 1])
            && (t[j] == '.' ==>
                  forall word :: WordBefore(t, j, word) ==>
                    ToLower(word) !in {"e.g", "i.e", "etc", "vs", "cf", "al", "approx", "no", "inc", "ltd", "mr",
                                       "ms", "mrs", "dr", "fig", "st", "jr", "sr"})
  {
    hide LastWord, WordBefore, ToLower;
    if 0 <= j < |t| - 1 {
      SpacesIff(t[j + 1]);
    }
    if 0 <= j < |t| {
      forall word ensures WordBefore(t, j, word) <==> LastWord(t[..j]) == word {
        LastWordIff(t, j, word);
      }
    }
  }

  method IsAbbreviation(segment: string) returns (found: bool)
    ensures found <==> Abbreviated(segment)
  {
    hide LastWord, IsSpace, KnownAbbreviation;
    var wordStart := |segment|;
    assert segment[..wordStart] == segment;
    while wordStart > 0 && !IsSpace(segment[wordStart - 1])
      invariant 0 <= wordStart <= |segment|
      invariant LastWord(segment) == LastWord(segment[..wordStart]) + segment[wordStart..]
    {
      LastWordGrows(segment, wordStart);
      ghost var front, c, back := LastWord(segment[..wordStart - 1]), [segment[wordStart - 1]], segment[wordStart..];
      assert c + back == segment[wordStart - 1..];
      assert (front + c) + back == front + (c + back);
      wordStart := wordStart - 1;
    }
    NoLastWord(segment, wordStart);
    assert LastWord(segment) == segment[wordStart..];
    found := KnownAbbreviation(segment[wordStart..]);
  }

  lemma BoundaryAt(s: string, start: nat, i: nat)
    requires start <= i < |s|
    ensures IsBoundary(s[start..], i - start) <==>
            IsTerminal(s[i]) && i + 1 < |s| && IsSpace(s[i + 1]) && !(s[i] == '.' && Abbreviated(s[start..i]))
  {
    hide Abbreviated, IsTerminal, IsSpace;
    assert s[start..][..i - start] == s[start..i];
  }

  lemma CutAt(s: string, start: nat, i: nat)
    requires start <= i < |s| && Boundary(s[start..], 0) == i - start
    ensures Sentences(s[start..]) == [TrimSpace(s[start..i + 1])] + Sentences(TrimLeft(s[i + 1..]))
  {
    hide IsBoundary, Boundary, TrimSpace, TrimLeft;
    var t := s[start..];
    assert t[..i - start + 1] == s[start..i + 1] && t[i - start + 1..] == s[i + 1..];
  }

  lemma NotHere(s: string, start: nat, i: nat)
    requires start <= i < |s| && !IsBoundary(s[start..], i - start)
    ensures Boundary(s[start..], i - start) == Boundary(s[start..], i + 1 - start)
  {
    hide IsBoundary;
  }

  lemma Here(s: string, start: nat, i: nat)
    requires start <= i < |s| && IsBoundary(s[start..], i - start)
    ensures Boundary(s[start..], i - start) == i - start
  {
    hide IsBoundary;
  }

  lemma NoCut(t: string)
    requires Boundary(t, 0) == -1
    ensures Sentences(t) == if TrimSpace(t) == "" then [] else [TrimSpace(t)]
  {
  }

  method SplitSentences(s: string) returns (out: seq<string>)
    ensures out == Sentences(s)
  {
    hide *;
    out := [];
    var start, i := 0, 0;
    assert s[0..] == s;
    while i < |s|
      invariant 0 <= start <= i <= |s|
      invariant out + Sentences(s[start..]) == Sentences(s)
      invariant Boundary(s[start..], 0) == Boundary(s[start..], i - start)
    {
      var c := s[i];
      BoundaryAt(s, start, i);
      if !IsTerminal(c) {
        NotHere(s, start, i);
        i := i + 1;
        continue;
      }
      if i + 1 >= |s| || !IsSpace(s[i + 1]) {
        NotHere(s, start, i);
        i := i + 1;
        continue;
      }
      if c == '.' {
        var abbreviated := IsAbbreviation(s[start..i]);
        if abbreviated {
          NotHere(s, start, i);
          i := i + 1;
          continue;
        }
      }
      Here(s, start, i);
      CutAt(s, start, i);
      var j := SkipSpace(s, i + 1);
      assert out + Sentences(s[start..]) == (out + [TrimSpace(s[start..i + 1])]) + Sentences(s[j..]);
      out := out + [TrimSpace(s[start..i + 1])];
      start := j;
      i := j;
    }
    NoMore(s[start..]);
    NoCut(s[start..]);
    if start < |s| {
      var tail := TrimSpace(s[start..]);
      if tail != "" {
        out := out + [tail];
      }
    } else {
      NothingToTrim();
    }
  }

  lemma NoMore(t: string)
    ensures Boundary(t, |t|) == -1
  {
  }

  lemma NothingToTrim()
    ensures TrimSpace("") == ""
  {
  }

  method SkipSpace(s: string, from: nat) returns (j: nat)
    requires from <= |s|
    ensures from <= j <= |s| && s[j..] == TrimLeft(s[from..])
  {
    j := from;
    while j < |s| && IsSpace(s[j])
      invariant from <= j <= |s|
      invariant TrimLeft(s[from..]) == TrimLeft(s[j..])
    {
      assert s[j..][1..] == s[j + 1..];
      j := j + 1;
    }
  }

  // ----- Nothing is lost -----

  function NonSpace(s: string): string {
    if s == "" then "" else (if IsSpace(s[0]) then "" else [s[0]]) + NonSpace(s[1..])
  }

  function AllNonSpace(parts: seq<string>): string {
    if parts == [] then "" else NonSpace(parts[0]) + AllNonSpace(parts[1..])
  }

  lemma {:induction false} NonSpaceConcat(a: string, b: string)
    ensures NonSpace(a + b) == NonSpace(a) + NonSpace(b)
  {
    hide IsSpace;
    if a == "" {
      assert a + b == b;
    } else {
      NonSpaceConcat(a[1..], b);
      var head := if IsSpace(a[0]) then "" else [a[0]];
      assert (a + b)[1..] == a[1..] + b && (a + b)[0] == a[0];
      assert (head + NonSpace(a[1..])) + NonSpace(b) == head + (NonSpace(a[1..]) + NonSpace(b));
    }
  }

  lemma {:induction false} OnlySpace(s: string)
    requires forall i :: 0 <= i < |s| ==> IsSpace(s[i])
    ensures NonSpace(s) == ""
  {
    if s != "" {
      OnlySpace(s[1..]);
    }
  }

  lemma TrimLeftKeepsNonSpace(s: string)
    ensures NonSpace(TrimLeft(s)) == NonSpace(s)
  {
    hide NonSpace;
    var l := TrimLeft(s);
    var lead := s[..|s| - |l|];
    OnlySpace(lead);
    NonSpaceConcat(lead, l);
    assert s == lead + l;
  }

  lemma TrimRightKeepsNonSpace(s: string)
    ensures NonSpace(TrimRight(s)) == NonSpace(s)
  {
    hide NonSpace;
    var r := TrimRight(s);
    var trail := s[|r|..];
    OnlySpace(trail);
    NonSpaceConcat(r, trail);
    assert s == r + trail;
  }

  lemma TrimKeepsNonSpace(s: string)
    ensures NonSpace(TrimSpace(s)) == NonSpace(s)
  {
    hide NonSpace, TrimLeft, TrimRight;
    TrimLeftKeepsNonSpace(s);
    TrimRightKeepsNonSpace(TrimLeft(s));
  }

  lemma AllNonSpaceCons(p: string, parts: seq<string>)
    ensures AllNonSpace([p] + parts) == NonSpace(p) + AllNonSpace(parts)
  {
    assert ([p] + parts)[1..] == parts;
  }

  /** Cutting into sentences loses, adds and reorders no character other than white space. */
  lemma {:induction false} SentencesKeepText(t: string)
    ensures AllNonSpace(Sentences(t)) == NonSpace(t)
    decreases |t|
  {
    hide NonSpace, AllNonSpace, TrimSpace, TrimLeft, Abbreviated, IsTerminal, IsSpace, Boundary;
    assert t[0..] == t;
    var b := Boundary(t, 0);
    if b == -1 {
      TrimKeepsNonSpace(t);
      OneOrNone(TrimSpace(t));
    } else {
      CutAt(t, 0, b);
      var rest := TrimLeft(t[b + 1..]);
      TrimKeepsNonSpace(t[..b + 1]);
      TrimLeftKeepsNonSpace(t[b + 1..]);
      SentencesKeepText(rest);
      NonSpaceConcat(t[..b + 1], t[b + 1..]);
      assert t == t[..b + 1] + t[b + 1..];
      AllNonSpaceCons(TrimSpace(t[..b + 1]), Sentences(rest));
    }
  }

  lemma OneOrNone(p: string)
    ensures AllNonSpace([p]) == NonSpace(p) && AllNonSpace([]) == "" && NonSpace("") == ""
  {
    assert [p][1..] == [];
  }

  // ----- Items -----

  const GLYPHS: set<char> := {'\U{2022}', '\U{2013}', '\U{2014}', '\U{2023}', '\U{B7}'}

  predicate IsDigit(c: char) {
    '0' <= c <= '9'
  }

  function Digits(s: string): (n: nat)
    ensures n <= |s| && (forall i :: 0 <= i < n ==> IsDigit(s[i])) && (n < |s| ==> !IsDigit(s[n]))
  {
    if s != "" && IsDigit(s[0]) then 1 + Digits(s[1..]) else 0
  }

  /** How long the list marker at the front of a trimmed line is; 0 when there is none. */
  function MarkerLength(s: string): (n: nat)
    ensures n <= |s|
  {
    if s == "" then 0
    else if s[0] == '-' || s[0] == '*' || s[0] in GLYPHS then 1
    else
      var d := Digits(s);
      if 0 < d < |s| && (s[d] == '.' || s[d] == ')') then d + 1 else 0
  }

  function StripMarker(line: string): string {
    var s := TrimSpace(line);
    TrimSpace(s[MarkerLength(s)..])
  }

  /** The first `n` characters are a list marker: a dash, a star or a bullet, or an ordinal with a
      period or a closing parenthesis. */
  ghost predicate HasMarker(s: string, n: nat) {
    n <= |s| && if n == 1 then s[0] in "-*\U{2022}\U{2013}\U{2014}\U{2023}\U{B7}"
                else n > 1 && s[n - 1] in ".)" && forall i :: 0 <= i < n - 1 ==> s[i] in "0123456789"
  }

  lemma {:induction false} MarkerLengthIff(s: string, n: nat)
    ensures HasMarker(s, n) <==> n > 0 && n == MarkerLength(s)
  {
    assert forall i :: 0 <= i < |s| ==> (IsDigit(s[i]) <==> s[i] in "0123456789");
    if HasMarker(s, n) && n > 1 {
      assert s[0] in "0123456789";
      assert Digits(s) == n - 1;
    }
  }

  /** The whole marker goes, an ordinal with its punctuation, and white space on both sides; nothing
      else does. */
  lemma MarkerIsStripped(line: string, n: nat)
    ensures HasMarker(TrimSpace(line), n) ==> StripMarker(line) == TrimSpace(TrimSpace(line)[n..])
    ensures (forall k :: !HasMarker(TrimSpace(line), k)) ==> StripMarker(line) == TrimSpace(line)
  {
    hide HasMarker, TrimSpace, MarkerLength;
    var s := TrimSpace(line);
    MarkerLengthIff(s, n);
    MarkerLengthIff(s, MarkerLength(s));
    TrimSpaceTrims(line);
    TrimSpaceTrims(s);
    assert s[0..] == s;
  }

  /** What one line contributes: its text, or nothing. */
  function Item(line: string): seq<string> {
    var item := TrimSpace(StripMarker(line));
    if item == "" then [] else [item]
  }

  function Clean(lines: seq<string>): seq<string> {
    if lines == [] then [] else Item(lines[0]) + Clean(lines[1..])
  }

  function Items(raw: string): seq<string> {
    var t := TrimSpace(raw);
    if t == "" then [] else Clean(if '\n' in t then Split(t, '\n') else Sentences(t))
  }

  function Bulleted(items: seq<string>): (r: seq<string>)
    ensures |r| == |items| && forall i :: 0 <= i < |r| ==> r[i] == "- " + items[i]
  {
    if items == [] then [] else ["- " + items[0]] + Bulleted(items[1..])
  }

  function Markdown(items: seq<string>): string {
    Join(Bulleted(items), '\n')
  }

  method CountDigits(s: string) returns (digits: nat)
    ensures digits == Digits(s)
  {
    digits := 0;
    while digits < |s| && IsDigit(s[digits])
      invariant digits <= |s| && Digits(s) == digits + Digits(s[digits..])
    {
      assert s[digits..][1..] == s[digits + 1..];
      digits := digits + 1;
    }
  }

  method StripListMarker(line: string) returns (r: string)
    ensures r == StripMarker(line)
  {
    hide TrimSpace;
    var s := TrimSpace(line);
    assert s[0..] == s && TrimSpace(s) == s by {
      TrimSpaceTrims(line);
      TrimSpaceTrims(s);
    }
    if s == "" {
      return s;
    }
    if s[0] == '-' || s[0] == '*' || s[0] in GLYPHS {
      return TrimSpace(s[1..]);
    }
    var digits := CountDigits(s);
    if digits > 0 && digits < |s| && (s[digits] == '.' || s[digits] == ')') {
      return TrimSpace(s[digits + 1..]);
    }
    r := s;
  }

  lemma {:induction false} CleanConcat(a: seq<string>, b: seq<string>)
    ensures Clean(a + b) == Clean(a) + Clean(b)
  {
    hide Item;
    if a == [] {
      assert a + b == b;
    } else {
      CleanConcat(a[1..], b);
      assert (a + b)[1..] == a[1..] + b && (a + b)[0] == a[0];
    }
  }

  method Format(raw: string) returns (items: seq<string>)
    ensures items == Items(raw)
  {
    hide StripMarker, TrimSpace, Sentences;
    var trimmed := TrimSpace(raw);
    if trimmed == "" {
      return [];
    }
    var lines;
    if '\n' in trimmed {
      lines := Split(trimmed, '\n');
    } else {
      lines := SplitSentences(trimmed);
    }
    items := [];
    ghost var seen: seq<string> := [];
    for i := 0 to |lines|
      invariant seen == lines[..i] && items == Clean(seen)
    {
      var stripped := StripListMarker(lines[i]);
      var item := TrimSpace(stripped);
      if item != "" {
        items := items + [item];
      }
      CleanConcat(seen, [lines[i]]);
      seen := seen + [lines[i]];
    }
    assert seen == lines;
  }

  lemma {:induction false} JoinSnoc(parts: seq<string>, p: string)
    requires parts != []
    ensures Join(parts + [p], '\n') == Join(parts, '\n') + "\n" + p
  {
    if |parts| > 1 {
      JoinSnoc(parts[1..], p);
      assert (parts + [p])[1..] == parts[1..] + [p];
    } else {
      assert (parts + [p])[1..] == [p];
    }
  }

  method FormatMarkdown(raw: string) returns (text: string)
    ensures text == Markdown(Items(raw))
  {
    hide Items;
    var items := Format(raw);
    text := "";
    ghost var bullets: seq<string> := [];
    for i := 0 to |items|
      invariant bullets == Bulleted(items)[..i] && text == Join(bullets, '\n')
    {
      if i > 0 {
        JoinSnoc(bullets, "- " + items[i]);
        text := text + "\n";
      }
      text := text + "- ";
      text := text + items[i];
      bullets := bullets + ["- " + items[i]];
    }
    assert bullets == Bulleted(items);
  }

  // ----- Reading back what was printed -----

  /** What an item looks like: text on one line with nothing to trim. */
  predicate IsItem(item: string) {
    item != "" && Trimmed(item) && '\n' !in item
  }

  predicate AreItems(items: seq<string>) {
    forall i :: 0 <= i < |items| ==> IsItem(items[i])
  }

  predicate NoNewline(lines: seq<string>) {
    NoneContain(lines, '\n')
  }

  lemma TrimSpaceCut(s: string)
    ensures exists a, b :: 0 <= a <= b <= |s| && TrimSpace(s) == s[a..b]
  {
    hide TrimLeft, TrimRight, IsSpace;
    var l := TrimLeft(s);
    var r := TrimRight(l);
    var a := |s| - |l|;
    assert r == s[a..a + |r|];
  }

  lemma TrimSpaceKeepsLine(s: string)
    requires '\n' !in s
    ensures '\n' !in TrimSpace(s)
  {
    hide TrimSpace;
    TrimSpaceCut(s);
  }

  lemma ItemFacts(line: string)
    requires '\n' !in line
    ensures AreItems(Item(line))
  {
    hide TrimSpace, Trimmed, MarkerLength;
    var s := TrimSpace(line);
    TrimSpaceKeepsLine(line);
    TrimSpaceKeepsLine(s[MarkerLength(s)..]);
    TrimSpaceKeepsLine(StripMarker(line));
    TrimSpaceTrims(StripMarker(line));
  }

  lemma {:induction false} CleanFacts(lines: seq<string>)
    requires NoNewline(lines)
    ensures AreItems(Clean(lines))
  {
    hide Item, IsItem;
    if lines != [] {
      ItemFacts(lines[0]);
      CleanFacts(lines[1..]);
    }
  }

  lemma {:induction false} SentencesStayOnLine(t: string)
    requires '\n' !in t
    ensures NoNewline(Sentences(t))
    decreases |t|
  {
    hide TrimSpace, TrimLeft, Abbreviated, IsTerminal, IsSpace, Boundary;
    assert t[0..] == t;
    var b := Boundary(t, 0);
    if b == -1 {
      TrimSpaceKeepsLine(t);
    } else {
      CutAt(t, 0, b);
      TrimSpaceKeepsLine(t[..b + 1]);
      SentencesStayOnLine(TrimLeft(t[b + 1..]));
    }
  }

  lemma ItemsAreItems(raw: string)
    ensures AreItems(Items(raw))
  {
    hide TrimSpace, Sentences, Clean, IsItem;
    var t := TrimSpace(raw);
    if t != "" {
      if '\n' in t {
        SplitNoneContain(t, '\n');
        CleanFacts(Split(t, '\n'));
      } else {
        SentencesStayOnLine(t);
        CleanFacts(Sentences(t));
      }
    }
  }

  /** A bullet is read back as its item. */
  lemma BulletIsRead(item: string)
    requires IsItem(item)
    ensures Item("- " + item) == [item] && Trimmed("- " + item) && '\n' !in "- " + item
  {
    hide TrimSpace;
    var line := "- " + item;
    TrimSpaceTrims(line);
    assert line[1..] == [' '] + item;
    LeadingSpace(item);
    TrimSpaceTrims(item);
  }

  lemma LeadingSpace(item: string)
    requires IsItem(item)
    ensures TrimSpace([' '] + item) == item
  {
    assert ([' '] + item)[1..] == item;
    TrimSpaceTrims(item);
  }

  lemma {:induction false} BulletsAreRead(items: seq<string>)
    requires AreItems(items)
    ensures Clean(Bulleted(items)) == items && NoNewline(Bulleted(items))
  {
    hide Item, IsItem;
    if items != [] {
      BulletIsRead(items[0]);
      BulletsAreRead(items[1..]);
      assert items == [items[0]] + items[1..];
    }
  }

  lemma {:induction false} JoinEnds(parts: seq<string>)
    requires parts != [] && forall i :: 0 <= i < |parts| ==> parts[i] != "" && Trimmed(parts[i])
    ensures Join(parts, '\n') != "" && Trimmed(Join(parts, '\n'))
  {
    if |parts| > 1 {
      JoinEnds(parts[1..]);
    }
  }

  lemma ManyAreReadBack(items: seq<string>)
    requires AreItems(items) && |items| >= 2
    ensures Items(Markdown(items)) == items
  {
    hide TrimSpace, Sentences, Clean, IsItem, Trimmed, Split;
    var bullets := Bulleted(items);
    BulletsAreRead(items);
    forall i | 0 <= i < |bullets| ensures bullets[i] != "" && Trimmed(bullets[i]) {
      BulletIsRead(items[i]);
    }
    JoinEnds(bullets);
    var text := Markdown(items);
    TrimSpaceTrims(text);
    assert text == bullets[0] + ['\n'] + Join(bullets[1..], '\n');
    assert text[|bullets[0]|] == '\n';
    SplitJoin(bullets, '\n');
  }

  // ----- A single item -----

  /** No sentence ends inside the text. */
  ghost predicate Whole(t: string) {
    forall j :: !IsBoundary(t, j)
  }

  lemma WholeHasNoCut(t: string)
    ensures Boundary(t, 0) == -1 <==> Whole(t)
  {
    hide IsBoundary;
    if Boundary(t, 0) != -1 {
      assert IsBoundary(t, Boundary(t, 0));
    }
    forall j | IsBoundary(t, j) ensures Boundary(t, 0) != -1 {
      InRange(t, j);
    }
  }

  lemma InRange(t: string, j: int)
    requires IsBoundary(t, j)
    ensures 0 <= j < |t| - 1 && IsTerminal(t[j]) && IsSpace(t[j + 1])
  {
  }

  lemma WholeIsOneSentence(t: string)
    requires Whole(t) && t != "" && Trimmed(t)
    ensures Sentences(t) == [t]
  {
    hide IsBoundary, Whole, TrimSpace;
    WholeHasNoCut(t);
    TrimSpaceTrims(t);
  }

  ghost predicate AtMost(parts: seq<string>, n: int) {
    forall i :: 0 <= i < |parts| ==> |parts[i]| <= n
  }

  lemma TrimLengths(s: string)
    ensures |TrimSpace(s)| <= |s| && |TrimLeft(s)| <= |s|
  {
  }

  lemma AtMostCons(p: string, parts: seq<string>, m: int, n: int)
    requires |p| <= n && AtMost(parts, m) && m <= n
    ensures AtMost([p] + parts, n)
  {
  }

  lemma {:induction false} SentencesAreShort(t: string)
    ensures AtMost(Sentences(t), |t|)
    decreases |t|
  {
    hide TrimSpace, TrimLeft, IsBoundary, IsSpace, Boundary, AtMost;
    assert t[0..] == t;
    var b := Boundary(t, 0);
    TrimLengths(t);
    assert AtMost([], |t|) by { NoneAtMost(|t|); }
    if b == -1 {
      AtMostCons(TrimSpace(t), [], |t|, |t|);
      assert [TrimSpace(t)] + [] == [TrimSpace(t)];
    } else {
      InRange(t, b);
      CutAt(t, 0, b);
      var rest := TrimLeft(t[b + 1..]);
      TrimLengths(t[..b + 1]);
      TrimLengths(t[b + 1..]);
      SentencesAreShort(rest);
      AtMostCons(TrimSpace(t[..b + 1]), Sentences(rest), |rest|, |t|);
    }
  }

  lemma NoneAtMost(n: int)
    ensures AtMost([], n)
  {
  }

  lemma ItemIsShort(line: string)
    ensures AtMost(Item(line), |line|)
  {
    hide TrimSpace, MarkerLength;
    var s := TrimSpace(line);
    TrimSpaceCut(line);
    TrimSpaceCut(s[MarkerLength(s)..]);
    TrimSpaceCut(StripMarker(line));
  }

  lemma {:induction false} ItemsAreShort(lines: seq<string>, n: int)
    requires AtMost(lines, n)
    ensures AtMost(Clean(lines), n)
  {
    hide Item;
    if lines != [] {
      ItemIsShort(lines[0]);
      ItemsAreShort(lines[1..], n);
    }
  }

  /** The first piece of a bullet loses the bullet and a space. */
  lemma BulletIsShort(piece: string)
    requires |piece| > 2 && piece[0] == '-' && piece[1] == ' ' && Trimmed(piece)
    ensures AtMost(Item(piece), |piece| - 2)
  {
    hide TrimSpace;
    TrimSpaceTrims(piece);
    DropSpace(piece[1..]);
    TrimSpaceCut(TrimSpace(piece[1..]));
  }

  lemma DropSpace(s: string)
    requires s != "" && IsSpace(s[0])
    ensures |TrimSpace(s)| < |s|
  {
  }

  lemma CutIsInside(item: string, b: int)
    requires IsItem(item) && IsBoundary("- " + item, b)
    ensures 2 <= b < |item| + 1 && !IsSpace(("- " + item)[b]) && !IsSpace(("- " + item)[0])
    ensures |TrimLeft(("- " + item)[b + 1..])| < |item| + 1 - b
  {
    hide Abbreviated, Trimmed;
    var text := "- " + item;
    assert text[0] == '-' && text[1] == ' ';
    InRange(text, b);
    var after := text[b + 1..];
    assert IsSpace(after[0]);
  }

  /** Where a bullet of more than one sentence is cut first. */
  lemma FirstCut(item: string) returns (piece: string, rest: string)
    requires IsItem(item) && !Whole("- " + item)
    ensures Sentences("- " + item) == [piece] + Sentences(rest)
    ensures 2 < |piece| < |item| + 2 && piece[0] == '-' && piece[1] == ' ' && Trimmed(piece) && |rest| < |item|
  {
    hide Whole, Sentences, IsBoundary, Trimmed, TrimSpace, TrimLeft, Boundary, IsSpace, IsItem;
    var text := "- " + item;
    assert text[0] == '-' && text[1] == ' ' && text[0..] == text;
    WholeHasNoCut(text);
    var b := Boundary(text, 0);
    CutIsInside(item, b);
    CutAt(text, 0, b);
    TrimmedPiece(text, b);
    piece, rest := text[..b + 1], TrimLeft(text[b + 1..]);
  }

  /** A bullet that holds more than one sentence is not read back as its item. */
  lemma CutBulletIsLost(item: string)
    requires IsItem(item) && !Whole("- " + item)
    ensures Clean(Sentences("- " + item)) != [item]
  {
    hide Whole, Sentences, Item, Trimmed, Clean, IsItem;
    var piece, rest := FirstCut(item);
    BulletIsShort(piece);
    SentencesAreShort(rest);
    ItemsAreShort(Sentences(rest), |item| - 1);
    ConsClean(piece, Sentences(rest));
    TooShort(Item(piece), Clean(Sentences(rest)), item);
  }

  lemma TooShort(a: seq<string>, b: seq<string>, item: string)
    requires AtMost(a, |item| - 1) && AtMost(b, |item| - 1)
    ensures a + b != [item]
  {
    if |a + b| == 1 {
      assert (a + b)[0] == if a != [] then a[0] else b[0];
    }
  }

  lemma TrimmedPiece(text: string, b: int)
    requires text != "" && !IsSpace(text[0]) && 0 <= b < |text| && !IsSpace(text[b])
    ensures Trimmed(text[..b + 1]) && TrimSpace(text[..b + 1]) == text[..b + 1]
  {
    TrimSpaceTrims(text[..b + 1]);
  }

  lemma ConsClean(piece: string, lines: seq<string>)
    ensures Clean([piece] + lines) == Item(piece) + Clean(lines)
  {
    assert ([piece] + lines)[1..] == lines;
  }

  /** One printed item is read back exactly when it is a single sentence. */
  lemma OneIsReadBackIff(item: string)
    requires IsItem(item)
    ensures Items(Markdown([item])) == [item] <==> Whole("- " + item)
  {
    hide TrimSpace, Whole, Sentences, Item, Trimmed, Clean, IsItem;
    var text := "- " + item;
    assert Bulleted([item]) == [text];
    BulletIsRead(item);
    TrimSpaceTrims(text);
    if Whole(text) {
      WholeIsOneSentence(text);
      ConsClean(text, []);
      assert [text] + [] == [text];
      NothingClean();
    } else {
      CutBulletIsLost(item);
    }
  }

  lemma NothingClean()
    ensures Clean([]) == []
  {
  }

  // ----- One paragraph -----

  predicate HasSpace(w: string) {
    exists i :: 0 <= i < |w| && IsSpace(w[i])
  }

  lemma LastWordSnoc(s: string, c: char)
    ensures LastWord(s + [c]) == if IsSpace(c) then "" else LastWord(s) + [c]
  {
    hide IsSpace;
    assert (s + [c])[..|s|] == s;
  }

  lemma NothingAdded(x: string)
    ensures x + "" == x && LastWord("") == ""
  {
  }

  lemma {:induction false} LastWordConcat(x: string, w: string)
    ensures LastWord(x + w) == if HasSpace(w) then LastWord(w) else LastWord(x) + w
  {
    hide IsSpace, HasSpace, LastWord;
    if w == "" {
      NothingAdded(x);
      NothingAdded(LastWord(x));
      NoSpace(w);
    } else {
      var c, front := w[|w| - 1], w[..|w| - 1];
      assert w == front + [c] && x + w == (x + front) + [c];
      LastWordSnoc(x + front, c);
      LastWordSnoc(front, c);
      SpaceBefore(w);
      LastWordConcat(x, front);
      assert (LastWord(x) + front) + [c] == LastWord(x) + w;
    }
  }

  lemma NoSpace(w: string)
    requires w == ""
    ensures !HasSpace(w)
  {
  }

  lemma SpaceBefore(w: string)
    requires w != ""
    ensures HasSpace(w) <==> IsSpace(w[|w| - 1]) || HasSpace(w[..|w| - 1])
  {
    hide IsSpace;
    if HasSpace(w) && !IsSpace(w[|w| - 1]) {
      var i :| 0 <= i < |w| && IsSpace(w[i]);
      assert w[..|w| - 1][i] == w[i];
    }
  }

  lemma {:induction false} WordOfItself(w: string)
    requires !HasSpace(w)
    ensures LastWord(w) == w
  {
    LastWordConcat("", w);
    assert "" + w == w && LastWord("") == "";
  }

  lemma AfterSpace(x: string, w: string)
    requires x == "" || IsSpace(x[|x| - 1])
    ensures LastWord(x + w) == LastWord(w)
  {
    LastWordConcat(x, w);
    if !HasSpace(w) {
      WordOfItself(w);
    }
  }

  predicate StartsWithLetter(w: string) {
    w != "" && ('a' <= w[0] <= 'z' || 'A' <= w[0] <= 'Z')
  }

  lemma AbbreviationsAreWords(w: string)
    requires KnownAbbreviation(w)
    ensures StartsWithLetter(w)
  {
    assert forall a :: a in ABBREVIATIONS ==> a != "" && 'a' <= a[0] <= 'z';
  }

  lemma MarkerIsNoWord(p: string)
    requires MarkerLength(p) > 0
    ensures !HasSpace(p[..MarkerLength(p)]) && !StartsWithLetter(p)
  {
  }

  /** The word before a full stop does not turn into an abbreviation by a marker in front of it. */
  lemma StrippingKeepsWord(p: string, k: int, w: string)
    requires 0 <= k <= |p| && (k == 0 || IsSpace(p[k - 1]) || k == MarkerLength(p))
    ensures Abbreviated(p[..k] + w) ==> KnownAbbreviation(LastWord(w))
  {
    hide KnownAbbreviation, MarkerLength, HasSpace, LastWord, StartsWithLetter;
    if k == 0 || IsSpace(p[k - 1]) {
      AfterSpace(p[..k], w);
    } else {
      LastWordConcat(p[..k], w);
      MarkerIsNoWord(p);
      WordOfItself(p[..k]);
      if KnownAbbreviation(p[..k] + w) {
        AbbreviationsAreWords(p[..k] + w);
        SameStart(p, k, w);
      }
    }
  }

  lemma SameStart(p: string, k: int, w: string)
    requires 0 < k <= |p|
    ensures StartsWithLetter(p[..k] + w) <==> StartsWithLetter(p)
  {
  }

  lemma BulletWord(w: string)
    ensures Abbreviated("- " + w) <==> KnownAbbreviation(LastWord(w))
  {
    AfterSpace("- ", w);
  }

  /** A boundary of the stripped and bulleted text was one of the text. */
  lemma BoundaryWasThere(p: string, k: int, j: int)
    requires 0 <= k <= |p| && (k == 0 || IsSpace(p[k - 1]) || k == MarkerLength(p))
    requires IsBoundary("- " + p[k..], j)
    ensures IsBoundary(p, j - 2 + k)
  {
    hide Abbreviated, MarkerLength;
    var text := "- " + p[k..];
    InRange(text, j);
    assert text[0] == '-' && text[1] == ' ';
    assert j >= 2;
    var w := p[k..j - 2 + k];
    assert text[..j] == "- " + w && p[..j - 2 + k] == p[..k] + w;
    BulletWord(w);
    StrippingKeepsWord(p, k, w);
  }

  lemma TrimOfTail(u: string) returns (a: int)
    requires u != "" ==> !IsSpace(u[|u| - 1])
    ensures 0 <= a <= |u| && TrimSpace(u) == u[a..] && (a > 0 ==> IsSpace(u[a - 1]))
  {
    var l := TrimLeft(u);
    a := |u| - |l|;
    if l != "" {
      assert l[|l| - 1] == u[|u| - 1];
    }
  }

  lemma StripIsSuffix(p: string) returns (k: int)
    requires Trimmed(p)
    ensures 0 <= k <= |p| && (k == 0 || IsSpace(p[k - 1]) || k == MarkerLength(p)) && StripMarker(p) == p[k..]
  {
    hide MarkerLength, TrimSpace;
    TrimSpaceTrims(p);
    var n := MarkerLength(p);
    var u := p[n..];
    var a := TrimOfTail(u);
    k := n + a;
    assert u[a..] == p[k..];
    if a > 0 {
      assert p[k - 1] == u[a - 1];
    }
  }

  lemma StrippingKeepsWhole(p: string)
    requires Trimmed(p) && Whole(p) && StripMarker(p) != ""
    ensures Whole("- " + StripMarker(p))
  {
    hide StripMarker, Trimmed, IsBoundary, MarkerLength;
    var k := StripIsSuffix(p);
    forall j ensures !IsBoundary("- " + StripMarker(p), j) {
      if IsBoundary("- " + p[k..], j) {
        BoundaryWasThere(p, k, j);
      }
    }
  }

  ghost predicate AllWhole(parts: seq<string>) {
    forall i :: 0 <= i < |parts| ==> Trimmed(parts[i]) && Whole(parts[i])
  }

  lemma PrefixBoundary(t: string, k: int, j: int)
    requires 0 <= k <= |t| && IsBoundary(t[..k], j)
    ensures IsBoundary(t, j) && j < k - 1
  {
    hide Abbreviated, IsTerminal, IsSpace;
    assert t[..k][..j] == t[..j];
  }

  lemma TrimmedTail(t: string)
    requires t == "" || !IsSpace(t[0])
    ensures exists k :: 0 <= k <= |t| && TrimSpace(t) == t[..k]
  {
    assert TrimSpace(t) == t[..|TrimRight(t)|];
  }

  lemma UncutIsWhole(t: string)
    requires (t == "" || !IsSpace(t[0])) && Boundary(t, 0) == -1
    ensures Trimmed(TrimSpace(t)) && Whole(TrimSpace(t))
  {
    hide TrimSpace, Trimmed, IsSpace, IsBoundary, Boundary;
    WholeHasNoCut(t);
    TrimmedTail(t);
    TrimSpaceTrims(t);
    var k :| 0 <= k <= |t| && TrimSpace(t) == t[..k];
    forall j ensures !IsBoundary(t[..k], j) {
      if IsBoundary(t[..k], j) {
        PrefixBoundary(t, k, j);
      }
    }
  }

  lemma PieceIsWhole(t: string, b: nat)
    requires (t == "" || !IsSpace(t[0])) && b < |t| && Boundary(t, 0) == b
    ensures Trimmed(TrimSpace(t[..b + 1])) && Whole(TrimSpace(t[..b + 1]))
  {
    hide TrimSpace, Trimmed, Abbreviated, IsTerminal, IsSpace, IsBoundary, Boundary;
    InRange(t, b);
    TerminalIsNoSpace(t[b]);
    TrimmedPiece(t, b);
    var p := t[..b + 1];
    forall j ensures !IsBoundary(p, j) {
      if IsBoundary(p, j) {
        PrefixBoundary(t, b + 1, j);
        InRange(t, j);
      }
    }
  }

  lemma {:induction false} SentencesAreWhole(t: string)
    requires t == "" || !IsSpace(t[0])
    ensures AllWhole(Sentences(t))
    decreases |t|
  {
    hide TrimSpace, Trimmed, IsSpace, IsBoundary, Whole, Boundary;
    assert t[0..] == t;
    var b := Boundary(t, 0);
    if b == -1 {
      UncutIsWhole(t);
    } else {
      InRange(t, b);
      CutAt(t, 0, b);
      PieceIsWhole(t, b);
      SentencesAreWhole(TrimLeft(t[b + 1..]));
    }
  }

  lemma TerminalIsNoSpace(c: char)
    requires IsTerminal(c)
    ensures !IsSpace(c)
  {
  }

  lemma {:induction false} ItemsOfWhole(lines: seq<string>)
    requires AllWhole(lines)
    ensures forall i :: 0 <= i < |Clean(lines)| ==> Whole("- " + Clean(lines)[i])
  {
    hide StripMarker, Trimmed, Whole, TrimSpace;
    if lines != [] {
      ItemsOfWhole(lines[1..]);
      var item := StripMarker(lines[0]);
      StripIsTrimmed(lines[0]);
      if item != "" {
        StrippingKeepsWhole(lines[0]);
      }
    }
  }

  lemma StripIsTrimmed(line: string)
    ensures TrimSpace(StripMarker(line)) == StripMarker(line)
  {
    hide TrimSpace, MarkerLength;
    var s := TrimSpace(line);
    TrimSpaceTrims(s[MarkerLength(s)..]);
    TrimSpaceTrims(StripMarker(line));
  }

  /** Every item of a one-paragraph text is a single sentence. */
  lemma ParagraphItemsAreWhole(raw: string)
    requires '\n' !in TrimSpace(raw)
    ensures forall i :: 0 <= i < |Items(raw)| ==> Whole("- " + Items(raw)[i])
  {
    hide TrimSpace, Trimmed, Whole, Sentences, Clean;
    var t := TrimSpace(raw);
    TrimSpaceTrims(raw);
    SentencesAreWhole(t);
    ItemsOfWhole(Sentences(t));
  }

  /** Printing the items and reading them back gives the same items, except exactly when a list of
      several lines has come down to one item that is more than one sentence. */
  lemma ReadsBackIff(raw: string)
    ensures Items(Markdown(Items(raw))) == Items(raw)
            <==> !('\n' in TrimSpace(raw) && |Items(raw)| == 1 && !Whole("- " + Items(raw)[0]))
  {
    hide TrimSpace, Whole, Sentences, Clean, Items, IsItem;
    var items := Items(raw);
    ItemsAreItems(raw);
    if |items| == 0 {
      assert items == [];
      NothingIsReadBack();
    } else if |items| == 1 {
      assert items == [items[0]];
      OneIsReadBackIff(items[0]);
      if '\n' !in TrimSpace(raw) {
        ParagraphItemsAreWhole(raw);
      }
    } else {
      ManyAreReadBack(items);
    }
  }

  lemma NothingIsReadBack()
    ensures Items(Markdown([])) == []
  {
    NothingToTrim();
  }

  lemma CollapsedLines(item: string)
    requires IsItem(item) && StripMarker(item) == item
    ensures Items(item + "\n-") == [item]
  {
    hide StripMarker, TrimSpace, Split;
    var raw := item + "\n-";
    TrimSpaceTrims(raw);
    var lines: seq<string> := [item, "-"];
    assert lines[1..] == ["-"];
    assert raw == item + ['\n'] + "-";
    assert raw[|item|] == '\n';
    SplitJoin(lines, '\n');
    TrimSpaceTrims(item);
    EmptyBullet();
    assert Item(item) == [item];
    ConsClean(item, ["-"]);
    ConsClean("-", []);
    assert ["-"] + [] == ["-"] && [item] + ["-"] == lines;
  }

  lemma EmptyBullet()
    ensures Item("-") == []
  {
    TrimSpaceTrims("-");
    NothingToTrim();
    assert "-"[1..] == "";
  }

  /** A text for which it fails: two lines, the second an empty bullet. */
  lemma CollapsedListIsCut()
    ensures Items("A. B\n-") == ["A. B"] && Items(Markdown(["A. B"])) != ["A. B"]
  {
    hide TrimSpace, Abbreviated, KnownAbbreviation, Items, Markdown, LastWord;
    var item := "A. B";
    NoMarker(item);
    CollapsedLines(item);
    assert item + "\n-" == "A. B\n-";
    OneIsReadBackIff(item);
    var text := "- " + item;
    assert text[..3] == "- " + "A";
    BulletWord("A");
    WordOfItself("A");
    NoAbbreviation();
    assert IsBoundary(text, 3);
  }

  lemma NoMarker(item: string)
    requires IsItem(item) && StartsWithLetter(item)
    ensures StripMarker(item) == item
  {
    hide TrimSpace;
    TrimSpaceTrims(item);
    assert item[0..] == item;
  }

  lemma NoAbbreviation()
    ensures !KnownAbbreviation("A")
  {
    assert forall a :: a in ABBREVIATIONS ==> |a| >= 2;
    assert |ToLower("A")| == 1;
  }
}
