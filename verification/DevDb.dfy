/** Names of development databases, and the recovery of databases left behind by crashed runs. */
module DevDb {
  import opened Strings

  const MAX_NAME_LEN := 63

  predicate IsAlnum(c: char) {
    'a' <= c <= 'z' || '0' <= c <= '9'
  }

  // ----- Names -----

  /** The regular expression of a valid name: a letter, then at most 62 letters, digits or hyphens. */
  predicate IsValid(name: string) {
    1 <= |name| <= MAX_NAME_LEN && 'a' <= name[0] <= 'z' && forall i :: 0 <= i < |name| ==> IsAlnum(name[i]) || name[i] == '-'
  }

  /** Every run of other characters becomes one hyphen; `inRun` says that the run has its hyphen already. */
  function Hyphenate(s: string, inRun: bool): string {
    if s == "" then ""
    else if IsAlnum(s[0]) then [s[0]] + Hyphenate(s[1..], false)
    else (if inRun then "" else "-") + Hyphenate(s[1..], true)
  }

  function TrimHyphensRight(s: string): (r: string)
    ensures |r| <= |s| && r == s[..|r|]
    ensures r != "" ==> r[|r| - 1] != '-'
    ensures forall i :: |r| <= i < |s| ==> s[i] == '-'
  {
    if s != "" && s[|s| - 1] == '-' then TrimHyphensRight(s[..|s| - 1]) else s
  }

  function TrimHyphensLeft(s: string): (r: string)
    ensures |r| <= |s| && r == s[|s| - |r|..]
    ensures r != "" ==> r[0] != '-'
  {
    if s != "" && s[0] == '-' then TrimHyphensLeft(s[1..]) else s
  }

  function SanitizeSegment(s: string): string {
    TrimHyphensRight(TrimHyphensLeft(Hyphenate(ToLower(s), false)))
  }

  /** The project segment of a name: sanitized, and cut to what the other segments leave. */
  function ProjectSegment(prefix: string, project: string, storyID: string): string {
    var clean := SanitizeSegment(project);
    var budget := MAX_NAME_LEN - (|prefix| + 1 + 1 + |storyID|);
    if |clean| > budget then TrimHyphensRight(clean[..if budget < 0 then 0 else budget]) else clean
  }

  function FormatDBName(prefix: string, project: string, storyID: string): string {
    var clean := ProjectSegment(prefix, project, storyID);
    prefix + "-" + (if clean == "" then "" else clean + "-") + ToLower(storyID)
  }

  /** The last two hyphen-separated segments after the prefix, or nothing. */
  function ParseStoryID(prefix: string, name: string): string {
    if !HasPrefix(name, prefix + "-") then ""
    else
      var segs := Split(name[|prefix| + 1..], '-');
      if |segs| < 2 then "" else segs[|segs| - 2] + "-" + segs[|segs| - 1]
  }

  /** The name fits a Postgres identifier exactly when prefix, a hyphen and the story ID do. */
  lemma NameFitsIff(prefix: string, project: string, storyID: string)
    ensures |FormatDBName(prefix, project, storyID)| <= 63 <==> |prefix| + 1 + |storyID| <= 63
  {
    hide SanitizeSegment;
  }

  predicate InCharset(s: string) {
    forall i :: 0 <= i < |s| ==> 'a' <= s[i] <= 'z' || '0' <= s[i] <= '9' || s[i] == '-'
  }

  lemma {:induction false} HyphenateCharset(s: string, inRun: bool)
    ensures InCharset(Hyphenate(s, inRun))
  {
    if s != "" {
      HyphenateCharset(s[1..], !IsAlnum(s[0]));
    }
  }

  lemma SliceCharset(s: string, a: nat, b: nat)
    requires InCharset(s) && a <= b <= |s|
    ensures InCharset(s[a..b])
  {
  }

  predicate HyphensInside(s: string) {
    InCharset(s) && (s != "" ==> s[0] != '-' && s[|s| - 1] != '-')
  }

  lemma CleanCharset(project: string)
    ensures HyphensInside(SanitizeSegment(project))
  {
    hide Hyphenate, TrimHyphensLeft, TrimHyphensRight, InCharset;
    HyphenateCharset(ToLower(project), false);
    var h := Hyphenate(ToLower(project), false);
    var l := TrimHyphensLeft(h);
    var clean := TrimHyphensRight(l);
    SliceCharset(h, |h| - |l|, |h|);
    SliceCharset(l, 0, |clean|);
    assert l == h[|h| - |l|..|h|] && clean == l[0..|clean|];
    assert clean != "" ==> clean[0] == l[0];
  }

  lemma CutCharset(clean: string, n: nat)
    requires n <= |clean| && HyphensInside(clean)
    ensures HyphensInside(TrimHyphensRight(clean[..n]))
  {
    hide TrimHyphensRight;
    var segment := TrimHyphensRight(clean[..n]);
    assert segment == clean[0..|segment|];
    assert segment != "" ==> segment[0] == clean[0];
  }

  lemma ProjectSegmentCharset(prefix: string, project: string, storyID: string)
    ensures HyphensInside(ProjectSegment(prefix, project, storyID))
  {
    hide SanitizeSegment, TrimHyphensRight, HyphensInside;
    CleanCharset(project);
    var clean := SanitizeSegment(project);
    var budget := MAX_NAME_LEN - (|prefix| + 1 + 1 + |storyID|);
    if |clean| > budget {
      CutCharset(clean, if budget < 0 then 0 else budget);
    }
  }

  lemma ValidNames(name: string)
    requires IsValid(name)
    ensures 1 <= |name| <= 63 && 'a' <= name[0] <= 'z' && InCharset(name)
  {
  }

  /** For a prefix and a story ID of the right characters the name is valid exactly when it fits. */
  lemma FormattedIsValidIff(prefix: string, project: string, storyID: string)
    requires prefix != "" && 'a' <= prefix[0] <= 'z' && InCharset(prefix)
    requires storyID != "" && InCharset(ToLower(storyID))
    ensures IsValid(FormatDBName(prefix, project, storyID)) <==> |prefix| + 1 + |storyID| <= 63
  {
    hide ProjectSegment, ToLower;
    NameFitsIff(prefix, project, storyID);
    ProjectSegmentCharset(prefix, project, storyID);
  }

  // ----- What the project segment says -----

  /** The number of letters and digits at the start. */
  function WordLength(s: string): (n: nat)
    ensures n <= |s|
    ensures forall i :: 0 <= i < n ==> 'a' <= s[i] <= 'z' || '0' <= s[i] <= '9'
    ensures n < |s| ==> !('a' <= s[n] <= 'z' || '0' <= s[n] <= '9')
  {
    if s != "" && ('a' <= s[0] <= 'z' || '0' <= s[0] <= '9') then 1 + WordLength(s[1..]) else 0
  }

  /** The longest runs of letters and digits, in order. */
  function Words(s: string): (words: seq<string>)
    ensures forall w :: w in words ==> w != "" && '-' !in w
    decreases |s|
  {
    if s == "" then []
    else
      var n := WordLength(s);
      if n == 0 then Words(s[1..]) else [s[..n]] + Words(s[n..])
  }

  /** The words with a hyphen between each two. */
  function Hyphenated(s: string): string {
    Join(Words(s), '-')
  }

  /** A hyphen is left over when something else follows the last word. */
  function Trail(s: string): string {
    if Words(s) != [] && WordLength(s[|s| - 1..]) == 0 then "-" else ""
  }

  lemma {:induction false} HyphenateWord(s: string, inRun: bool)
    requires WordLength(s) > 0
    ensures Hyphenate(s, inRun) == s[..WordLength(s)] + Hyphenate(s[WordLength(s)..], false)
  {
    hide Hyphenate, WordLength;
    var n := WordLength(s);
    HyphenateChar(s, inRun);
    if n == 1 {
      assert s[..1] == [s[0]];
    } else {
      HyphenateWord(s[1..], false);
      SplitTail(s, n);
      assert [s[0]] + (s[1..][..n - 1] + Hyphenate(s[n..], false)) == ([s[0]] + s[1..][..n - 1]) + Hyphenate(s[n..], false);
    }
  }

  lemma HyphenateChar(s: string, inRun: bool)
    requires WordLength(s) > 0
    ensures Hyphenate(s, inRun) == [s[0]] + Hyphenate(s[1..], false) && WordLength(s) == 1 + WordLength(s[1..])
  {
  }

  lemma SplitTail(s: string, n: nat)
    requires 0 < n <= |s|
    ensures s[1..][n - 1..] == s[n..] && [s[0]] + s[1..][..n - 1] == s[..n]
  {
  }

  lemma TrailOfTail(s: string, n: nat)
    requires 0 < n < |s| && Words(s[n..]) != [] && Words(s) != []
    ensures Trail(s) == Trail(s[n..])
  {
    hide Words, WordLength;
    assert s[n..][|s| - n - 1..] == s[|s| - 1..];
  }

  lemma {:induction false} HyphenatedTail(s: string)
    ensures Hyphenate(s, true) == Hyphenated(s) + Trail(s)
    decreases |s|
  {
    var n := WordLength(s);
    if s == "" {
    } else if n == 0 {
      HyphenatedTail(s[1..]);
      if Words(s) != [] {
        TrailOfTail(s, 1);
      }
    } else {
      HyphenateWord(s, true);
      HyphenatedRest(s);
    }
  }

  lemma FirstWord(s: string)
    requires WordLength(s) > 0
    ensures var n := WordLength(s);
            && Words(s) == [s[..n]] + Words(s[n..])
            && (n < |s| ==> && Words(s[n..]) == Words(s[n + 1..])
                            && Hyphenate(s[n..], false) == "-" + Hyphenate(s[n + 1..], true))
  {
    var n := WordLength(s);
    if n < |s| {
      assert s[n..][1..] == s[n + 1..];
      assert WordLength(s[n..]) == 0;
    }
  }

  lemma JoinFirst(w: string, rest: seq<string>)
    ensures Join([w] + rest, '-') == if rest == [] then w else w + "-" + Join(rest, '-')
  {
    assert ([w] + rest)[1..] == rest;
  }

  lemma LastIsWord(s: string)
    requires s != "" && WordLength(s) == |s|
    ensures Trail(s) == ""
  {
    assert s[|s| - 1..][0] == s[|s| - 1];
  }

  lemma {:induction false} NoWordsTrail(s: string, n: nat)
    requires n < |s| && Words(s) != [] && WordLength(s[n..]) == 0 && Words(s[n..]) == []
    ensures Trail(s) == "-"
  {
    NoWords(s[n..]);
    assert s[n..][|s| - 1 - n..] == s[|s| - 1..];
  }

  lemma HyphenatedRest(s: string)
    requires WordLength(s) > 0
    ensures s[..WordLength(s)] + Hyphenate(s[WordLength(s)..], false) == Hyphenated(s) + Trail(s)
    decreases |s|, 0
  {
    hide Words, Hyphenate, Join, Trail, WordLength;
    var n := WordLength(s);
    FirstWord(s);
    JoinFirst(s[..n], Words(s[n..]));
    if n == |s| {
      LastIsWord(s);
      NothingLeft(s[n..]);
    } else {
      HyphenatedTail(s[n + 1..]);
      RestTrail(s, n);
    }
  }

  lemma NothingLeft(s: string)
    requires s == ""
    ensures Words(s) == [] && Hyphenate(s, false) == ""
  {
  }

  lemma RestTrail(s: string, n: nat)
    requires n == WordLength(s) && 0 < n < |s| && Words(s) != [] && Words(s[n..]) == Words(s[n + 1..])
    ensures if Words(s[n..]) == [] then Trail(s) == "-" && Hyphenated(s[n + 1..]) + Trail(s[n + 1..]) == ""
            else Trail(s) == Trail(s[n + 1..])
  {
    hide Words;
    if Words(s[n..]) == [] {
      NoWordsTrail(s, n);
    } else if n + 1 < |s| {
      TrailOfTail(s, n + 1);
    } else {
      NothingLeft(s[n + 1..]);
    }
  }

  lemma {:induction false} NoWords(s: string)
    ensures Words(s) == [] ==> forall i :: 0 <= i < |s| ==> WordLength(s[i..]) == 0
  {
    if s != "" && Words(s) == [] {
      NoWords(s[1..]);
      forall i | 0 <= i < |s| ensures WordLength(s[i..]) == 0 {
        if i > 0 {
          assert s[1..][i - 1..] == s[i..];
        } else {
          assert s[0..] == s;
        }
      }
    }
  }

  lemma {:induction false} JoinEnds(words: seq<string>)
    requires forall w :: w in words ==> w != "" && '-' !in w
    ensures words != [] ==> Join(words, '-') != "" && Join(words, '-')[0] != '-'
                            && Join(words, '-')[|Join(words, '-')| - 1] != '-'
  {
    if words != [] {
      assert words[0] in words;
      if |words| > 1 {
        assert forall w :: w in words[1..] ==> w in words;
        JoinEnds(words[1..]);
      }
    }
  }

  lemma TrimsLeft(text: string, lead: string)
    requires (text != "" ==> text[0] != '-') && (lead == "" || lead == "-")
    ensures TrimHyphensLeft(lead + text) == text
  {
    if lead == "" {
      assert lead + text == text;
    } else {
      assert (lead + text)[1..] == text;
    }
  }

  lemma TrimsRight(text: string, trail: string)
    requires (text != "" ==> text[|text| - 1] != '-') && (trail == "" || trail == "-")
    ensures TrimHyphensRight(text + trail) == text
  {
    if trail == "" {
      assert text + trail == text;
    } else {
      assert (text + trail)[..|text|] == text;
    }
  }

  lemma Trims(lead: string, text: string, trail: string)
    requires (lead == "" || lead == "-") && (trail == "" || trail == "-") && (text == "" ==> trail == "")
    requires text != "" ==> text[0] != '-' && text[|text| - 1] != '-'
    ensures TrimHyphensRight(TrimHyphensLeft(lead + (text + trail))) == text
  {
    hide *;
    TrimsLeft(text + trail, lead);
    TrimsRight(text, trail);
  }

  /** The sanitized segment is the words of the lower-cased text with hyphens between them. */
  lemma SegmentIsWords(text: string)
    ensures SanitizeSegment(text) == Join(Words(ToLower(text)), '-')
  {
    hide Words, Join, Trail, WordLength, TrimHyphensLeft, TrimHyphensRight, ToLower;
    var s := ToLower(text);
    JoinEnds(Words(s));
    EmptyJoin();
    if s == "" {
      NothingLeft(s);
      Trims("", "", "");
    } else if WordLength(s) > 0 {
      HyphenateWord(s, false);
      HyphenatedRest(s);
      Trims("", Hyphenated(s), Trail(s));
      assert "" + (Hyphenated(s) + Trail(s)) == Hyphenated(s) + Trail(s);
    } else {
      HyphenatedTail(s[1..]);
      NoFirstWord(s);
      Trims("-", Hyphenated(s), Trail(s[1..]));
    }
  }

  lemma EmptyJoin()
    ensures Join([], '-') == ""
    ensures forall s :: (Trail(s) == "" || Trail(s) == "-") && (Words(s) == [] ==> Trail(s) == "")
  {
  }

  lemma NoFirstWord(s: string)
    requires s != "" && WordLength(s) == 0
    ensures Words(s) == Words(s[1..]) && Hyphenate(s, false) == "-" + Hyphenate(s[1..], true)
  {
  }

  /** The project segment is all of them, or as long a beginning as leaves room for the rest of the
      name, less hyphens at its end. */
  lemma ProjectIsWords(prefix: string, project: string, storyID: string)
    ensures var words, room := Join(Words(ToLower(project)), '-'), 63 - |prefix| - 2 - |storyID|;
            var segment := ProjectSegment(prefix, project, storyID);
            && segment <= words
            && (|words| <= room ==> segment == words)
            && (|words| > room ==> && |segment| <= (if room < 0 then 0 else room)
                                   && (segment != "" ==> segment[|segment| - 1] != '-')
                                   && forall i :: |segment| <= i < room ==> words[i] == '-')
  {
    hide SanitizeSegment, Words, Join, TrimHyphensRight, ToLower;
    SegmentIsWords(project);
  }

  // ----- Round trip -----

  function Hyphens(s: string): nat {
    if s == "" then 0 else Hyphens(s[1..]) + if s[0] == '-' then 1 else 0
  }

  lemma {:induction false} SegmentsCountHyphens(s: string)
    ensures |Split(s, '-')| == Hyphens(s) + 1
  {
    if s != "" {
      SegmentsCountHyphens(s[1..]);
    }
  }

  lemma {:induction false} HyphensConcat(a: string, b: string)
    ensures Hyphens(a + b) == Hyphens(a) + Hyphens(b)
  {
    if a == "" {
      assert a + b == b;
    } else {
      HyphensConcat(a[1..], b);
      assert (a + b)[1..] == a[1..] + b;
    }
  }

  lemma {:induction false} NoHyphens(s: string)
    requires '-' !in s
    ensures Hyphens(s) == 0
  {
    if s != "" {
      NoHyphens(s[1..]);
    }
  }

  lemma {:induction false} LowerKeepsHyphens(s: string)
    ensures Hyphens(ToLower(s)) == Hyphens(s)
  {
    if s != "" {
      LowerKeepsHyphens(s[1..]);
      assert ToLower(s)[1..] == ToLower(s[1..]);
    }
  }

  /** What is left of a formatted name once the prefix is gone. */
  function Remainder(clean: string, id: string): string {
    if clean == "" then id else clean + "-" + id
  }

  /** The last two hyphen-separated segments, or nothing if there is only one. */
  function LastTwo(rest: string): string {
    var segs := Split(rest, '-');
    if |segs| < 2 then "" else segs[|segs| - 2] + "-" + segs[|segs| - 1]
  }

  lemma ParseRemainder(prefix: string, project: string, storyID: string)
    ensures ParseStoryID(prefix, FormatDBName(prefix, project, storyID))
            == LastTwo(Remainder(ProjectSegment(prefix, project, storyID), ToLower(storyID)))
  {
    hide ProjectSegment, Split, ToLower;
    var clean := ProjectSegment(prefix, project, storyID);
    var name := FormatDBName(prefix, project, storyID);
    assert name == (prefix + "-") + Remainder(clean, ToLower(storyID));
    assert name[|prefix| + 1..] == Remainder(clean, ToLower(storyID));
  }

  lemma LastTwoHaveOneHyphen(s: string)
    requires |Split(s, '-')| >= 2
    ensures Hyphens(LastTwo(s)) == 1
  {
    hide Split;
    var segs := Split(s, '-');
    SplitNoneContain(s, '-');
    var a, b := segs[|segs| - 2], segs[|segs| - 1];
    NoHyphens(a);
    NoHyphens(b);
    HyphensConcat(a + "-", b);
    HyphensConcat(a, "-");
  }

  lemma TwoSegments(id: string)
    requires Hyphens(id) == 1
    ensures var segs := Split(id, '-'); |segs| == 2 && segs[0] + "-" + segs[1] == id
  {
    hide Hyphens;
    SegmentsCountHyphens(id);
    JoinSplit(id, '-');
    var segs := Split(id, '-');
    assert segs[1..] == [segs[1]];
  }

  predicate OneHyphenLower(id: string) {
    Hyphens(id) == 1 && ToLower(id) == id
  }

  lemma ShapedIsParsed(clean: string, id: string)
    requires Hyphens(id) == 1
    ensures LastTwo(Remainder(clean, id)) == id
  {
    hide Hyphens, Split;
    TwoSegments(id);
    if clean != "" {
      SplitConcat(clean, id, '-');
    }
  }

  /** Parsing gives the story ID back exactly when it is lower case with exactly one hyphen, or there
      is neither a story ID nor a project segment. */
  lemma ParsesBackIff(prefix: string, project: string, storyID: string)
    ensures ParseStoryID(prefix, FormatDBName(prefix, project, storyID)) == storyID
            <==> OneHyphenLower(storyID) || (storyID == "" && ProjectSegment(prefix, project, storyID) == "")
  {
    hide Split, ToLower, ProjectSegment, Hyphens, ParseStoryID, FormatDBName;
    var clean, id := ProjectSegment(prefix, project, storyID), ToLower(storyID);
    var rest := Remainder(clean, id);
    ParseRemainder(prefix, project, storyID);
    LowerKeepsHyphens(storyID);
    SegmentsCountHyphens(rest);
    if Hyphens(storyID) == 1 {
      ShapedIsParsed(clean, id);
    } else if |Split(rest, '-')| >= 2 {
      LastTwoHaveOneHyphen(rest);
      if clean == "" {
        LongIdIsNotEmpty(rest);
      }
    } else if clean != "" {
      SplitConcat(clean, id, '-');
    }
  }

  lemma LongIdIsNotEmpty(s: string)
    requires |Split(s, '-')| >= 2
    ensures s != ""
  {
  }

  // ----- Databases left behind -----

  datatype DB = DB(id: string, name: string, createdAt: int)

  predicate IsOrphan(db: DB, prefix: string, active: seq<string>) {
    HasPrefix(db.name, prefix + "-") && ParseStoryID(prefix, db.name) !in active
  }

  function Orphans(all: seq<DB>, prefix: string, active: seq<string>): (r: seq<DB>)
    ensures forall d :: d in r <==> d in all && IsOrphan(d, prefix, active)
  {
    if all == [] then []
    else
      var rest := Orphans(all[1..], prefix, active);
      if IsOrphan(all[0], prefix, active) then [all[0]] + rest else rest
  }

  lemma {:induction false} OrphansSnoc(all: seq<DB>, d: DB, prefix: string, active: seq<string>)
    ensures Orphans(all + [d], prefix, active)
            == Orphans(all, prefix, active) + if IsOrphan(d, prefix, active) then [d] else []
  {
    hide IsOrphan;
    if all == [] {
      assert all + [d] == [d];
    } else {
      OrphansSnoc(all[1..], d, prefix, active);
      assert (all + [d])[1..] == all[1..] + [d];
    }
  }

  /** No database of an active story with a well-shaped ID is an orphan, whatever its project. */
  lemma ActiveIsSpared(all: seq<DB>, prefix: string, active: seq<string>, id: string, project: string, d: DB)
    requires id in active && OneHyphenLower(id) && d.name == FormatDBName(prefix, project, id)
    ensures d !in Orphans(all, prefix, active)
  {
    hide OneHyphenLower, FormatDBName, ParseStoryID, ProjectSegment;
    ParsesBackIff(prefix, project, id);
  }

  /** The database of an active story is spared exactly when the story's ID is parsed back from its
      name, or what is parsed happens to be the ID of another active story. */
  lemma ActiveIsSparedIff(all: seq<DB>, prefix: string, active: seq<string>, id: string, project: string, d: DB)
    requires d in all && id in active && d.name == FormatDBName(prefix, project, id)
    ensures d !in Orphans(all, prefix, active) <==>
            || OneHyphenLower(id)
            || (id == "" && ProjectSegment(prefix, project, id) == "")
            || exists other :: other in active && other != id
                               && other == LastTwo(Remainder(ProjectSegment(prefix, project, id), ToLower(id)))
  {
    hide OneHyphenLower, ParseStoryID, ProjectSegment, LastTwo, Remainder;
    ParsesBackIff(prefix, project, id);
    ParseRemainder(prefix, project, id);
    StartsWithPrefix(prefix, project, id);
    hide FormatDBName;
  }

  lemma StartsWithPrefix(prefix: string, project: string, id: string)
    ensures HasPrefix(FormatDBName(prefix, project, id), prefix + "-")
  {
    hide ProjectSegment;
  }

  /** For a lone active story that leaves the shape of its ID. */
  lemma LoneStoryIsSparedIff(prefix: string, project: string, id: string, d: DB)
    requires d.name == FormatDBName(prefix, project, id)
    ensures Orphans([d], prefix, [id]) == [] <==>
            OneHyphenLower(id) || (id == "" && ProjectSegment(prefix, project, id) == "")
  {
    hide OneHyphenLower, ProjectSegment, IsOrphan, FormatDBName;
    ActiveIsSparedIff([d], prefix, [id], id, project, d);
    assert d in [d];
    assert [d][1..] == [];
  }

  /** The databases for which the flag is as given, in order. */
  function Pick(all: seq<DB>, gone: seq<bool>, which: bool): seq<DB>
    requires |all| == |gone|
  {
    if all == [] then []
    else
      var rest := Pick(all[1..], gone[1..], which);
      if gone[0] == which then [all[0]] + rest else rest
  }

  lemma {:induction false} PickSnoc(all: seq<DB>, gone: seq<bool>, d: DB, g: bool, which: bool)
    requires |all| == |gone|
    ensures Pick(all + [d], gone + [g], which) == Pick(all, gone, which) + if g == which then [d] else []
  {
    if all == [] {
      assert all + [d] == [d] && gone + [g] == [g];
    } else {
      PickSnoc(all[1..], gone[1..], d, g, which);
      assert (all + [d])[1..] == all[1..] + [d] && (gone + [g])[1..] == gone[1..] + [g];
    }
  }

  /** What is deleted and what is kept make up the whole. */
  lemma {:induction false} PicksPartition(all: seq<DB>, gone: seq<bool>)
    requires |all| == |gone|
    ensures multiset(Pick(all, gone, true)) + multiset(Pick(all, gone, false)) == multiset(all)
  {
    if all != [] {
      PicksPartition(all[1..], gone[1..]);
      assert all == [all[0]] + all[1..];
    }
  }

  lemma {:induction false} Picked(all: seq<DB>, gone: seq<bool>, which: bool)
    requires |all| == |gone|
    ensures forall d :: d in Pick(all, gone, which) <==> exists i :: 0 <= i < |all| && all[i] == d && gone[i] == which
  {
    if all != [] {
      Picked(all[1..], gone[1..], which);
      forall d | exists i :: 0 <= i < |all| && all[i] == d && gone[i] == which ensures d in Pick(all, gone, which) {
        var i :| 0 <= i < |all| && all[i] == d && gone[i] == which;
        if i > 0 {
          assert all[1..][i - 1] == d && gone[1..][i - 1] == which;
        }
      }
    }
  }

  /** The newer databases are kept, and an older one only if its deletion failed. */
  ghost predicate Justified(orphans: seq<DB>, gone: seq<bool>, cutoff: int, failed: bool) {
    && |gone| == |orphans|
    && (forall i :: 0 <= i < |orphans| && gone[i] ==> orphans[i].createdAt <= cutoff)
    && (failed <==> exists i :: 0 <= i < |orphans| && !gone[i] && orphans[i].createdAt <= cutoff)
  }

  lemma JustifiedSnoc(orphans: seq<DB>, gone: seq<bool>, cutoff: int, failed: bool, d: DB, g: bool)
    requires Justified(orphans, gone, cutoff, failed) && (g ==> d.createdAt <= cutoff)
    ensures Justified(orphans + [d], gone + [g], cutoff, failed || (!g && d.createdAt <= cutoff))
  {
    var all, flags := orphans + [d], gone + [g];
    if failed {
      var i :| 0 <= i < |orphans| && !gone[i] && orphans[i].createdAt <= cutoff;
      assert !flags[i] && all[i].createdAt <= cutoff;
    } else if !g && d.createdAt <= cutoff {
      assert !flags[|orphans|] && all[|orphans|].createdAt <= cutoff;
    } else {
      forall i | 0 <= i < |all| ensures !(!flags[i] && all[i].createdAt <= cutoff) {
        if i < |orphans| {
          assert all[i] == orphans[i] && flags[i] == gone[i];
        }
      }
    }
  }

  class Provider {
    var dbs: seq<DB>

    constructor (dbs: seq<DB>)
      ensures this.dbs == dbs
    {
      this.dbs := dbs;
    }

    method List() returns (all: Option<seq<DB>>)
      ensures all == None || all == Some(dbs)
    {
      var ok: bool := *;
      all := if ok then Some(dbs) else None;
    }

    method Delete(id: string) returns (ok: bool)
      modifies this
      ensures !ok ==> dbs == old(dbs)
      ensures ok ==> forall d :: d in dbs <==> d in old(dbs) && d.id != id
    {
      ok := *;
      if ok {
        var left: seq<DB> := [];
        for i := 0 to |dbs|
          invariant dbs == old(dbs)
          invariant forall d :: d in left <==> d in dbs[..i] && d.id != id
        {
          if dbs[i].id != id {
            left := left + [dbs[i]];
          }
        }
        dbs := left;
      }
    }

    method FindOrphans(prefix: string, activeStoryIDs: seq<string>) returns (orphans: Option<seq<DB>>)
      ensures orphans == None || orphans == Some(Orphans(dbs, prefix, activeStoryIDs))
    {
      hide IsOrphan;
      var all := List();
      if all == None {
        return None;
      }
      var active: set<string> := {};
      for i := 0 to |activeStoryIDs|
        invariant forall s :: s in active <==> s in activeStoryIDs[..i]
      {
        active := active + {activeStoryIDs[i]};
      }
      var found: seq<DB> := [];
      ghost var seen: seq<DB> := [];
      for i := 0 to |dbs|
        invariant seen == dbs[..i] && found == Orphans(seen, prefix, activeStoryIDs)
      {
        var db := dbs[i];
        OrphansSnoc(seen, db, prefix, activeStoryIDs);
        seen := seen + [db];
        OrphanIff(db, prefix, activeStoryIDs);
        if !HasPrefix(db.name, prefix + "-") {
          continue;
        }
        var story := ParseStoryID(prefix, db.name);
        if story in active {
          continue;
        }
        found := found + [db];
      }
      assert seen == dbs;
      orphans := Some(found);
    }

    /** Deletes the orphans that are not newer than the cutoff; a failed deletion keeps its database
        and is reported. */
    method ReleaseOrphans(orphans: seq<DB>, cutoff: int) returns (deleted: seq<DB>, kept: seq<DB>, failed: bool, ghost gone: seq<bool>)
      modifies this
      ensures Justified(orphans, gone, cutoff, failed)
      ensures deleted == Pick(orphans, gone, true) && kept == Pick(orphans, gone, false)
      ensures forall d :: d in dbs <==> d in old(dbs) && forall e :: e in deleted ==> e.id != d.id
    {
      hide Justified;
      deleted, kept, failed, gone := [], [], false, [];
      ghost var seen: seq<DB> := [];
      NothingReleased(cutoff);
      for i := 0 to |orphans|
        invariant seen == orphans[..i] && |gone| == i && Justified(seen, gone, cutoff, failed)
        invariant deleted == Pick(seen, gone, true) && kept == Pick(seen, gone, false)
        invariant forall d :: d in dbs <==> d in old(dbs) && forall e :: e in deleted ==> e.id != d.id
      {
        var db := orphans[i];
        var ok := false;
        if db.createdAt <= cutoff {
          ok := Delete(db.id);
        }
        JustifiedSnoc(seen, gone, cutoff, failed, db, ok);
        PickSnoc(seen, gone, db, ok, true);
        PickSnoc(seen, gone, db, ok, false);
        seen := seen + [db];
        gone := gone + [ok];
        if db.createdAt > cutoff {
          kept := kept + [db];
          continue;
        }
        if !ok {
          failed := true;
          kept := kept + [db];
          continue;
        }
        deleted := deleted + [db];
      }
      assert seen == orphans;
    }

    /** Recovery on resume: a database whose story is still active under a well-shaped ID survives,
        provided provider IDs identify databases, and so does every one newer than the cutoff. */
    method RecoverOrphans(prefix: string, active: seq<string>, cutoff: int) returns (deleted: seq<DB>)
      requires forall d, e :: d in dbs && e in dbs && d.id == e.id ==> d == e
      modifies this
      ensures forall d :: d in dbs <==> d in old(dbs) && d !in deleted
      ensures forall d :: d in deleted ==> d in old(dbs) && d.createdAt <= cutoff && IsOrphan(d, prefix, active)
      ensures forall d :: d in old(dbs) && InUse(d.name, prefix, active) ==> d in dbs
    {
      hide IsOrphan, InUse;
      ghost var all := dbs;
      deleted := [];
      var orphans := FindOrphans(prefix, active);
      if orphans == None || |orphans.value| == 0 {
        SparedAll(all, prefix, active);
        return;
      }
      var kept, failed;
      ghost var gone;
      deleted, kept, failed, gone := ReleaseOrphans(orphans.value, cutoff);
      Picked(orphans.value, gone, true);
      SparedAll(all, prefix, active);
    }
  }

  lemma OrphanIff(db: DB, prefix: string, active: seq<string>)
    ensures IsOrphan(db, prefix, active) <==> HasPrefix(db.name, prefix + "-") && ParseStoryID(prefix, db.name) !in active
  {
  }

  lemma NothingReleased(cutoff: int)
    ensures Justified([], [], cutoff, false)
  {
  }

  /** The name of a database that an active story with a well-shaped ID was given. */
  ghost predicate InUse(name: string, prefix: string, active: seq<string>) {
    exists id, project :: id in active && OneHyphenLower(id) && name == FormatDBName(prefix, project, id)
  }

  lemma SparedAll(all: seq<DB>, prefix: string, active: seq<string>)
    ensures forall d :: d in all && InUse(d.name, prefix, active) ==> !IsOrphan(d, prefix, active)
  {
    hide OneHyphenLower, FormatDBName, IsOrphan;
    forall d | d in all && InUse(d.name, prefix, active) ensures !IsOrphan(d, prefix, active) {
      var id, project :| id in active && OneHyphenLower(id) && d.name == FormatDBName(prefix, project, id);
      ActiveIsSpared(all, prefix, active, id, project, d);
    }
  }
}
