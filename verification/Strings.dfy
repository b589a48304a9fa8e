/** ASCII versions of the Go `strings` helpers the modelled code relies on. */
module Strings {

  datatype Option<+T> = None | Some(value: T)

  predicate IsSpace(c: char) {
    c == ' ' || c == '\t' || c == '\n' || c == '\r' || c == '\U{0B}' || c == '\U{0C}'
  }

  predicate HasPrefix(s: string, p: string) {
    p <= s
  }

  predicate HasSuffix(s: string, p: string) {
    |p| <= |s| && s[|s| - |p|..] == p
  }

  function TrimPrefix(s: string, p: string): string {
    if HasPrefix(s, p) then s[|p|..] else s
  }

  function TrimSuffix(s: string, p: string): string {
    if HasSuffix(s, p) then s[..|s| - |p|] else s
  }

  /** `sub` occurs in `s` at position `i`. */
  predicate OccursAt(s: string, sub: string, i: int) {
    0 <= i <= |s| - |sub| && s[i..i + |sub|] == sub
  }

  /** First position at or after `from` where `sub` occurs, or -1. */
  function IndexFrom(s: string, sub: string, from: nat): (r: int)
    ensures r == -1 || (from <= r && OccursAt(s, sub, r))
    ensures forall j :: from <= j && OccursAt(s, sub, j) ==> 0 <= r <= j
    decreases |s| - from
  {
    if from + |sub| > |s| then -1
    else if s[from..from + |sub|] == sub then from
    else IndexFrom(s, sub, from + 1)
  }

  function Index(s: string, sub: string): (r: int)
    ensures r == -1 || OccursAt(s, sub, r)
    ensures forall j :: 0 <= j && OccursAt(s, sub, j) ==> 0 <= r <= j
  {
    IndexFrom(s, sub, 0)
  }

  predicate Contains(s: string, sub: string) {
    Index(s, sub) >= 0
  }

  function TrimLeft(s: string): (r: string)
    ensures r == [] || !IsSpace(r[0])
    ensures |r| <= |s| && r == s[|s| - |r|..]
    ensures forall i :: 0 <= i < |s| - |r| ==> IsSpace(s[i])
  {
    if s != [] && IsSpace(s[0]) then TrimLeft(s[1..]) else s
  }

  function TrimRight(s: string): (r: string)
    ensures r == [] || !IsSpace(r[|r| - 1])
    ensures |r| <= |s| && r == s[..|r|]
    ensures forall i :: |r| <= i < |s| ==> IsSpace(s[i])
  {
    if s != [] && IsSpace(s[|s| - 1]) then TrimRight(s[..|s| - 1]) else s
  }

  function TrimSpace(s: string): string {
    TrimRight(TrimLeft(s))
  }

  /** Text with no white space at either end is left alone by TrimSpace. */
  predicate Trimmed(s: string) {
    s == [] || (!IsSpace(s[0]) && !IsSpace(s[|s| - 1]))
  }

  lemma TrimSpaceTrims(s: string)
    ensures Trimmed(TrimSpace(s))
    ensures Trimmed(s) ==> TrimSpace(s) == s
  {
    var l := TrimLeft(s);
    var r := TrimRight(l);
    if r != [] {
      assert r[0] == l[0];
    }
  }

  /** TrimSpace is a slice, and what it cuts off is white space. */
  lemma TrimSlice(s: string) returns (i: nat, j: nat)
    ensures i <= j <= |s| && TrimSpace(s) == s[i..j]
    ensures forall k :: 0 <= k < i || j <= k < |s| ==> IsSpace(s[k])
  {
    hide TrimLeft, TrimRight;
    var l := TrimLeft(s);
    var r := TrimRight(l);
    i := |s| - |l|;
    j := i + |r|;
    assert l == s[i..] && r == l[..|r|] == s[i..j];
    forall k | j <= k < |s| ensures IsSpace(s[k]) {
      assert s[k] == l[k - i];
    }
  }

  /** Trimming cuts only what surrounds a trimmed piece. */
  lemma TrimKeeps(raw: string, pre: string, t: string, suf: string) returns (a: nat, b: nat)
    requires raw == pre + t + suf && t != "" && Trimmed(t)
    ensures a <= |pre| && b <= |suf| && TrimSpace(raw) == pre[a..] + t + suf[..b]
  {
    hide TrimSpace;
    var i, j := TrimSlice(raw);
    assert raw[|pre|] == t[0] && raw[|pre| + |t| - 1] == t[|t| - 1];
    a, b := i, j - |pre| - |t|;
    assert raw[i..j] == pre[a..] + t + suf[..b];
  }

  /** It cuts off all the white space around a trimmed piece. */
  lemma TrimExact(pre: string, t: string, suf: string)
    requires t != "" && Trimmed(t)
    requires (forall i :: 0 <= i < |pre| ==> IsSpace(pre[i])) && forall i :: 0 <= i < |suf| ==> IsSpace(suf[i])
    ensures TrimSpace(pre + t + suf) == t
  {
    hide TrimSpace, IsSpace;
    var raw := pre + t + suf;
    var i, j := TrimSlice(raw);
    assert raw[|pre|] == t[0] && raw[|pre| + |t| - 1] == t[|t| - 1];
    assert i < |pre| ==> raw[i] == pre[i];
    assert j > |pre| + |t| ==> raw[j - 1] == suf[j - 1 - |pre| - |t|];
    assert raw[|pre|..|pre| + |t|] == t;
    TrimSpaceTrims(raw);
  }

  /** strings.ToLower */
  function ToLower(s: string): (r: string)
    ensures |r| == |s|
  {
    seq(|s|, i requires 0 <= i < |s| => if 'A' <= s[i] <= 'Z' then s[i] - 'A' + 'a' else s[i])
  }

  /** No letter stays upper-case, and nothing else changes. */
  lemma LowerFacts(s: string)
    ensures forall i :: 0 <= i < |s| ==> !('A' <= ToLower(s)[i] <= 'Z')
    ensures forall i :: 0 <= i < |s| && ToLower(s)[i] != s[i] ==>
              'A' <= s[i] <= 'Z' && ToLower(s)[i] as int == s[i] as int + 32
  {
  }

  // ----- Splitting at a separator and joining -----

  /** strings.Split for a one-character separator: never empty. */
  function Split(s: string, sep: char): (r: seq<string>)
    ensures r != []
  {
    if s == "" then [""]
    else
      var rest := Split(s[1..], sep);
      if s[0] == sep then [""] + rest else [[s[0]] + rest[0]] + rest[1..]
  }

  function Join(parts: seq<string>, sep: char): string {
    if parts == [] then ""
    else if |parts| == 1 then parts[0]
    else parts[0] + [sep] + Join(parts[1..], sep)
  }

  predicate NoneContain(parts: seq<string>, sep: char) {
    forall i :: 0 <= i < |parts| ==> sep !in parts[i]
  }

  lemma {:induction false} SplitNoneContain(s: string, sep: char)
    ensures NoneContain(Split(s, sep), sep)
  {
    if s != "" {
      SplitNoneContain(s[1..], sep);
    }
  }

  lemma {:induction false} JoinSplit(s: string, sep: char)
    ensures Join(Split(s, sep), sep) == s
  {
    if s != "" {
      JoinSplit(s[1..], sep);
      var rest := Split(s[1..], sep);
      if s[0] == sep {
        assert ([""] + rest)[1..] == rest;
      } else {
        var parts := [[s[0]] + rest[0]] + rest[1..];
        assert parts[1..] == rest[1..];
        assert Join(parts, sep) == [s[0]] + Join(rest, sep);
      }
      assert s == [s[0]] + s[1..];
    }
  }

  lemma SplitEmpty(sep: char)
    ensures Split("", sep) == [""]
  {
  }

  lemma SplitCons(c: char, s: string, sep: char)
    ensures Split([c] + s, sep) ==
            if c == sep then [""] + Split(s, sep) else [[c] + Split(s, sep)[0]] + Split(s, sep)[1..]
  {
    assert ([c] + s)[1..] == s;
  }

  lemma Regroup(c: char, rest: string, head: string, tail: seq<string>)
    ensures var parts := [rest + head] + tail; [[c] + parts[0]] + parts[1..] == [([c] + rest) + head] + tail
  {
    assert [c] + (rest + head) == ([c] + rest) + head;
  }

  lemma {:induction false} SplitPrefix(a: string, s: string, sep: char)
    requires sep !in a
    ensures Split(a + s, sep) == [a + Split(s, sep)[0]] + Split(s, sep)[1..]
  {
    hide Split;
    var head, tail := Split(s, sep)[0], Split(s, sep)[1..];
    if a == "" {
      assert a + s == s && a + head == head;
      assert [head] + tail == Split(s, sep);
    } else {
      var c, rest := a[0], a[1..];
      SplitPrefix(rest, s, sep);
      SplitCons(c, rest + s, sep);
      Regroup(c, rest, head, tail);
      assert [c] + rest == a;
      assert [c] + (rest + s) == a + s;
    }
  }

  lemma {:induction false} SplitJoin(parts: seq<string>, sep: char)
    requires parts != [] && NoneContain(parts, sep)
    ensures Split(Join(parts, sep), sep) == parts
  {
    hide Split;
    SplitEmpty(sep);
    if |parts| == 1 {
      SplitPrefix(parts[0], "", sep);
      assert parts[0] + "" == parts[0] && [parts[0]] + [] == parts;
    } else {
      SplitJoin(parts[1..], sep);
      var rest := Join(parts[1..], sep);
      SplitCons(sep, rest, sep);
      SplitPrefix(parts[0], [sep] + rest, sep);
      assert parts[0] + ([sep] + rest) == Join(parts, sep);
      assert ([""] + parts[1..])[1..] == parts[1..] && parts[0] + "" == parts[0];
      assert [parts[0]] + parts[1..] == parts;
    }
  }

  lemma ConsBoth(c: char, a: string, b: string, d: string)
    ensures ([c] + a) + b + d == [c] + (a + b + d)
  {
  }

  lemma TailOfBoth(first: seq<string>, second: seq<string>)
    requires first != []
    ensures (first + second)[0] == first[0] && (first + second)[1..] == first[1..] + second
  {
  }

  lemma {:induction false} SplitConcat(q: string, s: string, sep: char)
    ensures Split(q + [sep] + s, sep) == Split(q, sep) + Split(s, sep)
  {
    hide Split;
    if q == "" {
      SplitEmpty(sep);
      SplitCons(sep, s, sep);
      assert q + [sep] + s == [sep] + s;
    } else {
      var c, rest := q[0], q[1..];
      assert q == [c] + rest;
      SplitConcat(rest, s, sep);
      SplitCons(c, rest, sep);
      SplitCons(c, rest + [sep] + s, sep);
      ConsBoth(c, rest, [sep], s);
      TailOfBoth(Split(rest, sep), Split(s, sep));
    }
  }
}
