/** Line-oriented configuration files are merged by the union of their lines. */
module UnionMerge {
  import opened Strings

  /** Seven of the same character in a row at the front, as git writes its conflict markers. */
  predicate StartsWithSeven(t: string, c: char) {
    |t| >= 7 && forall i :: 0 <= i < 7 ==> t[i] == c
  }

  predicate IsMarker(line: string) {
    var t := TrimSpace(line);
    StartsWithSeven(t, '<') || StartsWithSeven(t, '=') || StartsWithSeven(t, '>') || StartsWithSeven(t, '|')
  }

  predicate IsBlank(line: string) {
    TrimSpace(line) == ""
  }

  /** The lines that are no markers, each at its first occurrence. */
  function Kept(lines: seq<string>): seq<string> {
    if lines == [] then []
    else
      var k, line := Kept(lines[..|lines| - 1]), lines[|lines| - 1];
      if IsMarker(line) || line in k then k else k + [line]
  }

  function DropBlankTail(lines: seq<string>): seq<string> {
    if lines != [] && IsBlank(lines[|lines| - 1]) then DropBlankTail(lines[..|lines| - 1]) else lines
  }

  function UnionOf(lines: seq<string>): seq<string> {
    DropBlankTail(Kept(lines))
  }

  function UnionLines(text: string): seq<string> {
    UnionOf(Split(text, '\n'))
  }

  method UnionResolveConflict(conflicted: string) returns (r: string)
    ensures r == Join(UnionLines(conflicted), '\n')
  {
    hide IsMarker, IsBlank;
    var seen: set<string>, out := {}, [];
    var lines := Split(conflicted, '\n');
    for i := 0 to |lines|
      invariant out == Kept(lines[..i])
      invariant forall x :: x in seen <==> x in out
    {
      var line := lines[i];
      assert lines[..i + 1][..i] == lines[..i];
      if IsMarker(line) {
        continue;
      }
      if line in seen {
        continue;
      }
      seen := seen + {line};
      out := out + [line];
    }
    assert lines[..|lines|] == lines;
    while |out| > 0 && IsBlank(out[|out| - 1])
      invariant DropBlankTail(out) == UnionLines(conflicted)
    {
      out := out[..|out| - 1];
    }
    r := Join(out, '\n');
  }

  // ----- What the union contains -----

  /** The four markers that git writes, as they start a line. */
  predicate OpensWithMarker(line: string) {
    var t := TrimSpace(line);
    HasPrefix(t, "<<<<<<<") || HasPrefix(t, "=======") || HasPrefix(t, ">>>>>>>") || HasPrefix(t, "|||||||")
  }

  lemma SevenIsPrefix(t: string, c: char)
    ensures StartsWithSeven(t, c) <==> HasPrefix(t, [c, c, c, c, c, c, c])
  {
    var p := [c, c, c, c, c, c, c];
    if |t| >= 7 && forall i :: 0 <= i < 7 ==> t[i] == c {
      assert t[..7] == p;
    }
    if HasPrefix(t, p) {
      forall i | 0 <= i < 7 ensures t[i] == c {
        assert t[i] == t[..7][i] == p[i];
      }
    }
  }

  lemma MarkerIffOpens(line: string)
    ensures IsMarker(line) <==> OpensWithMarker(line)
  {
    hide TrimSpace, StartsWithSeven, HasPrefix;
    var t := TrimSpace(line);
    SevenIsPrefix(t, '<');
    SevenIsPrefix(t, '=');
    SevenIsPrefix(t, '>');
    SevenIsPrefix(t, '|');
  }

  /** Something other than white space. */
  ghost predicate Visible(line: string) {
    exists c :: c in line && c !in {' ', '\t', '\n', '\U{0B}', '\U{0C}', '\r'}
  }

  predicate NoDup(lines: seq<string>) {
    forall i, j :: 0 <= i < j < |lines| ==> lines[i] != lines[j]
  }

  /** The first position of a line, or the length if it does not occur. */
  function FirstAt(lines: seq<string>, x: string): nat {
    if lines == [] then 0
    else if lines[0] == x then 0
    else 1 + FirstAt(lines[1..], x)
  }

  lemma {:induction false} FirstAtFacts(lines: seq<string>, x: string)
    ensures FirstAt(lines, x) <= |lines|
    ensures x in lines <==> FirstAt(lines, x) < |lines|
    ensures FirstAt(lines, x) < |lines| ==> lines[FirstAt(lines, x)] == x
  {
    if lines != [] {
      FirstAtFacts(lines[1..], x);
      assert lines == [lines[0]] + lines[1..];
    }
  }

  lemma {:induction false} FirstAtInit(lines: seq<string>, y: string, x: string)
    ensures FirstAt(lines + [y], x) == if x in lines then FirstAt(lines, x)
                                       else if x == y then |lines| else |lines| + 1
  {
    if lines == [] {
      assert lines + [y] == [y];
    } else {
      FirstAtInit(lines[1..], y, x);
      assert (lines + [y])[1..] == lines[1..] + [y];
      assert lines == [lines[0]] + lines[1..];
    }
  }

  /** The list holds its lines in the order in which they are first seen in the text. */
  ghost predicate FirstSeenOrder(out: seq<string>, lines: seq<string>) {
    forall i, j :: 0 <= i < j < |out| ==> FirstAt(lines, out[i]) < FirstAt(lines, out[j])
  }

  lemma {:induction false} KeptFacts(lines: seq<string>)
    ensures NoDup(Kept(lines)) && FirstSeenOrder(Kept(lines), lines)
    ensures forall x :: x in Kept(lines) <==> x in lines && !IsMarker(x)
  {
    hide IsMarker, FirstAt;
    if lines != [] {
      var init, y := lines[..|lines| - 1], lines[|lines| - 1];
      KeptFacts(init);
      assert lines == init + [y];
      forall x ensures FirstAt(lines, x) == if x in init then FirstAt(init, x)
                                            else if x == y then |init| else |init| + 1 {
        FirstAtInit(init, y, x);
      }
      forall x ensures x in init ==> FirstAt(init, x) < |init| {
        FirstAtFacts(init, x);
      }
    }
  }

  lemma {:induction false} DropBlankTailFacts(lines: seq<string>)
    ensures DropBlankTail(lines) <= lines
    ensures DropBlankTail(lines) != [] ==> !IsBlank(DropBlankTail(lines)[|DropBlankTail(lines)| - 1])
    ensures forall i :: |DropBlankTail(lines)| <= i < |lines| ==> IsBlank(lines[i])
  {
    hide IsBlank;
    if lines != [] && IsBlank(lines[|lines| - 1]) {
      var init := lines[..|lines| - 1];
      DropBlankTailFacts(init);
      assert DropBlankTail(init) <= init <= lines;
      forall i | |DropBlankTail(init)| <= i < |lines| ensures IsBlank(lines[i]) {
        assert i < |init| ==> init[i] == lines[i];
      }
    }
  }

  lemma BlankIffInvisible(line: string)
    ensures IsBlank(line) <==> !Visible(line)
  {
    var l := TrimLeft(line);
    if l == "" {
      assert forall i :: 0 <= i < |line| ==> IsSpace(line[i]);
    } else {
      TrimRightKeeps(l, 0);
      assert l[0] == line[|line| - |l|] && l[0] in line;
    }
  }

  lemma TrimRightKeeps(l: string, k: nat)
    requires k < |l| && !IsSpace(l[k])
    ensures |TrimRight(l)| > k
  {
  }

  /** The lines that open with no marker, and of a list of lines each one once, at its first place. */
  function Clean(lines: seq<string>): seq<string> {
    if lines == [] then []
    else Clean(lines[..|lines| - 1]) + if OpensWithMarker(lines[|lines| - 1]) then [] else [lines[|lines| - 1]]
  }

  function Distinct(lines: seq<string>): seq<string> {
    if lines == [] then []
    else Distinct(lines[..|lines| - 1]) + if lines[|lines| - 1] in lines[..|lines| - 1] then [] else [lines[|lines| - 1]]
  }

  lemma {:induction false} DistinctMembers(lines: seq<string>)
    ensures forall x :: x in Distinct(lines) <==> x in lines
  {
    if lines != [] {
      DistinctMembers(lines[..|lines| - 1]);
      assert lines == lines[..|lines| - 1] + [lines[|lines| - 1]];
    }
  }

  lemma {:induction false} KeptIsDistinctClean(lines: seq<string>)
    ensures Kept(lines) == Distinct(Clean(lines))
  {
    hide OpensWithMarker, IsMarker;
    if lines != [] {
      var init, x := lines[..|lines| - 1], lines[|lines| - 1];
      KeptIsDistinctClean(init);
      MarkerIffOpens(x);
      DistinctMembers(Clean(init));
      if OpensWithMarker(x) {
        assert Clean(lines) == Clean(init);
      } else {
        assert Clean(lines) == Clean(init) + [x];
        assert (Clean(init) + [x])[..|Clean(init)|] == Clean(init);
      }
    }
  }

  /** `out` is the list less some blank lines at its end, and does not end in one. */
  ghost predicate LessBlankTail(out: seq<string>, lines: seq<string>) {
    && out <= lines
    && (out != [] ==> Visible(out[|out| - 1]))
    && forall i :: |out| <= i < |lines| ==> !Visible(lines[i])
  }

  /** The union is the lines that open with no marker, each once at its first place, less the blank
      lines at the end. */
  lemma UnionIsDistinctClean(lines: seq<string>)
    ensures LessBlankTail(UnionOf(lines), Distinct(Clean(lines)))
  {
    hide IsBlank, Visible, Kept, Distinct, Clean, DropBlankTail;
    KeptIsDistinctClean(lines);
    DropBlankTailFacts(Kept(lines));
    forall x ensures IsBlank(x) <==> !Visible(x) {
      BlankIffInvisible(x);
    }
  }

  /** The union keeps every visible line that opens with no marker exactly once, in first-seen order,
      adds nothing, and emits no marker. */
  lemma {:induction false} UnionFacts(lines: seq<string>)
    ensures NoDup(UnionOf(lines)) && FirstSeenOrder(UnionOf(lines), lines)
    ensures forall x :: x in UnionOf(lines) ==> x in lines && !OpensWithMarker(x)
    ensures forall x :: x in lines && !OpensWithMarker(x) && Visible(x) ==> x in UnionOf(lines)
  {
    hide IsMarker, IsBlank, Kept, DropBlankTail, FirstAt, OpensWithMarker, Visible;
    KeptFacts(lines);
    DropBlankTailFacts(Kept(lines));
    var out := UnionOf(lines);
    forall x | x in out ensures x in lines && !OpensWithMarker(x) {
      assert x in Kept(lines);
      MarkerIffOpens(x);
    }
    forall x | x in lines && !OpensWithMarker(x) && Visible(x) ensures x in out {
      MarkerIffOpens(x);
      BlankIffInvisible(x);
      var i :| 0 <= i < |Kept(lines)| && Kept(lines)[i] == x;
      assert i < |out| && out[i] == x;
    }
  }

  /** A two-way conflict as git writes it. */
  function Conflict(before: seq<string>, ours: seq<string>, theirs: seq<string>, after: seq<string>,
                    oursName: string, theirsName: string): seq<string> {
    before + ["<<<<<<< " + oursName] + ours + ["======="] + theirs + [">>>>>>> " + theirsName] + after
  }

  lemma {:induction false} CleanConcat(a: seq<string>, b: seq<string>)
    ensures Clean(a + b) == Clean(a) + Clean(b)
  {
    hide OpensWithMarker;
    if b == [] {
      assert a + b == a;
    } else {
      CleanConcat(a, b[..|b| - 1]);
      assert (a + b)[..|a + b| - 1] == a + b[..|b| - 1];
    }
  }

  lemma {:induction false} CleanOfClean(lines: seq<string>)
    requires forall x :: x in lines ==> !OpensWithMarker(x)
    ensures Clean(lines) == lines
  {
    hide OpensWithMarker;
    if lines != [] {
      assert lines == lines[..|lines| - 1] + [lines[|lines| - 1]];
      CleanOfClean(lines[..|lines| - 1]);
    }
  }

  lemma MarkerOpens(marker: string, rest: string)
    requires marker in {"<<<<<<<", "=======", ">>>>>>>"}
    ensures OpensWithMarker(marker + rest) && Clean([marker + rest]) == []
  {
    var line := marker + rest;
    assert line[0] == marker[0] && !IsSpace(line[0]);
    var l := TrimLeft(line);
    assert l == line;
    assert line[6] == marker[6];
    TrimRightKeeps(line, 6);
    assert TrimRight(line)[..7] == line[..7] == marker;
    assert Clean([line][..0]) == [];
  }

  /** On a two-way conflict among lines without markers the result is what was before, ours, theirs and
      what came after, each line once at its first place, less the blank lines at the end. */
  lemma UnionOfConflict(before: seq<string>, ours: seq<string>, theirs: seq<string>, after: seq<string>,
                        oursName: string, theirsName: string)
    requires NoneContain(Conflict(before, ours, theirs, after, oursName, theirsName), '\n')
    requires forall x :: x in before + ours + theirs + after ==> !OpensWithMarker(x)
    ensures LessBlankTail(UnionLines(Join(Conflict(before, ours, theirs, after, oursName, theirsName), '\n')),
                          Distinct(before + ours + theirs + after))
  {
    hide *;
    var c := Conflict(before, ours, theirs, after, oursName, theirsName);
    ConflictHasLines(before, ours, theirs, after, oursName, theirsName);
    UnionOfLines(c);
    UnionIsDistinctClean(c);
    CleanConflict(before, ours, theirs, after, oursName, theirsName);
  }

  lemma ConflictHasLines(before: seq<string>, ours: seq<string>, theirs: seq<string>, after: seq<string>,
                         oursName: string, theirsName: string)
    ensures Conflict(before, ours, theirs, after, oursName, theirsName) != []
  {
  }

  lemma UnionOfLines(lines: seq<string>)
    requires lines != [] && NoneContain(lines, '\n')
    ensures UnionLines(Join(lines, '\n')) == UnionOf(lines)
  {
    SplitJoin(lines, '\n');
  }

  lemma CleanConflict(before: seq<string>, ours: seq<string>, theirs: seq<string>, after: seq<string>,
                      oursName: string, theirsName: string)
    requires forall x :: x in before + ours + theirs + after ==> !OpensWithMarker(x)
    ensures Clean(Conflict(before, ours, theirs, after, oursName, theirsName)) == before + ours + theirs + after
  {
    hide OpensWithMarker, Clean;
    MarkerOpens("<<<<<<<", " " + oursName);
    MarkerOpens("=======", "");
    MarkerOpens(">>>>>>>", " " + theirsName);
    assert "<<<<<<<" + (" " + oursName) == "<<<<<<< " + oursName && ">>>>>>>" + (" " + theirsName) == ">>>>>>> " + theirsName;
    assert "=======" + "" == "=======";
    var a, m, b, n, d, e := ["<<<<<<< " + oursName], ours, ["======="], theirs, [">>>>>>> " + theirsName], after;
    CleanConcat(before + a + m + b + n + d, e);
    CleanConcat(before + a + m + b + n, d);
    CleanConcat(before + a + m + b, n);
    CleanConcat(before + a + m, b);
    CleanConcat(before + a, m);
    CleanConcat(before, a);
    CleanOfClean(before);
    CleanOfClean(ours);
    CleanOfClean(theirs);
    CleanOfClean(after);
    assert before + [] + ours + [] + theirs + [] + after == before + ours + theirs + after;
  }

  /** Nothing either side wrote is lost. */
  lemma BothSidesSurvive(before: seq<string>, ours: seq<string>, theirs: seq<string>, after: seq<string>,
                         oursName: string, theirsName: string, x: string)
    requires var c := Conflict(before, ours, theirs, after, oursName, theirsName); NoneContain(c, '\n')
    requires x in before + ours + theirs + after && !OpensWithMarker(x) && Visible(x)
    ensures x in UnionLines(Join(Conflict(before, ours, theirs, after, oursName, theirsName), '\n'))
  {
    hide OpensWithMarker, Visible, UnionOf, FirstSeenOrder;
    var c := Conflict(before, ours, theirs, after, oursName, theirsName);
    SplitJoin(c, '\n');
    UnionFacts(c);
    assert x in c;
  }

  lemma {:induction false} KeptOfClean(lines: seq<string>)
    requires NoDup(lines) && forall x :: x in lines ==> !IsMarker(x)
    ensures Kept(lines) == lines
  {
    if lines != [] {
      var init, y := lines[..|lines| - 1], lines[|lines| - 1];
      assert lines == init + [y];
      KeptOfClean(init);
    }
  }

  /** Resolving a resolved text changes nothing. */
  lemma {:induction false} UnionIsIdempotent(text: string)
    ensures UnionLines(Join(UnionLines(text), '\n')) == UnionLines(text)
  {
    hide IsMarker, IsBlank, FirstSeenOrder, OpensWithMarker, Visible;
    var out := UnionLines(text);
    UnionFacts(Split(text, '\n'));
    forall x ensures IsMarker(x) <==> OpensWithMarker(x) {
      MarkerIffOpens(x);
    }
    DropBlankTailFacts(Kept(Split(text, '\n')));
    if out == [] {
      EmptyText();
    } else {
      SplitNoneContain(text, '\n');
      forall i | 0 <= i < |out| ensures '\n' !in out[i] {
        assert out[i] in Split(text, '\n');
      }
      SplitJoin(out, '\n');
      KeptOfClean(out);
    }
  }

  lemma EmptyText()
    ensures UnionLines("") == []
  {
    assert Split("", '\n') == [""];
    assert [""][..0] == [];
    assert Kept([""]) == [""] && IsBlank("");
    assert DropBlankTail([""]) == DropBlankTail([]);
  }
}
