/** The `go test -json` stream parser: a streaming fold over events of many packages that
    run in parallel, with per-package deduplication of failures. */
module GoTestStream {
  import opened Strings

  datatype Action = BuildOutput | BuildFail | Output | Pass | Fail | Skip | OtherAction

  /** One decoded line of the stream. */
  datatype Event = Event(action: Action, test: string, pkg: string, importPath: string,
                         output: string, failedBuild: string)

  /** "p [p.test]" and "p_test [p.test]" both name p; a plain path names itself. */
  function BuildFailPkg(importPath: string): string {
    var i := Index(importPath, " [");
    if i >= 0 then TrimSuffix(TrimSuffix(importPath[i + 2..], "]"), ".test")
    else TrimSpace(importPath)
  }

  function PkgOf(e: Event): string {
    if e.pkg != "" then e.pkg else BuildFailPkg(e.importPath)
  }

  lemma BracketIsFirst(a: string, b: string)
    requires !Contains(a, " [")
    ensures Index(a + " [" + b, " [") == |a|
  {
    var s := a + " [" + b;
    assert OccursAt(s, " [", |a|);
    var i := Index(s, " [");
    assert s[|a|] == ' ' && s[i + 1] == s[i..i + 2][1] == '[';
    if i + 2 <= |a| {
      OccursInPrefix(a, s, " [", i);
      assert false;
    }
  }

  lemma OccursInPrefix(a: string, s: string, sub: string, i: nat)
    requires a <= s && OccursAt(s, sub, i) && i + |sub| <= |a|
    ensures Contains(a, sub)
  {
    assert s[i..i + |sub|] == a[i..i + |sub|];
    assert OccursAt(a, sub, i);
  }

  /** A package and its external test package build one test binary: both map to the
      package, so a compile break in either is deduplicated against the other. */
  lemma TestBinaryNamesItsPackage(importPath: string, p: string)
    requires !Contains(importPath, " [")
    ensures BuildFailPkg(importPath + " [" + (p + ".test" + "]")) == p
  {
    var tail := p + ".test" + "]";
    BracketIsFirst(importPath, tail);
    assert (importPath + " [" + tail)[|importPath| + 2..] == tail;
    assert TrimSuffix(tail, "]") == p + ".test";
    assert TrimSuffix(p + ".test", ".test") == p;
  }

  /** Any other path names itself. */
  lemma PlainPathNamesItself(importPath: string)
    requires forall i :: !OccursAt(importPath, " [", i)
    ensures BuildFailPkg(importPath) == TrimSpace(importPath)
  {
    hide TrimSpace;
  }

  predicate IsBuildFailure(e: Event) {
    e.action == BuildFail || (e.action == Fail && e.failedBuild != "")
  }

  function TrimRightNewlines(s: string): string {
    if s != [] && s[|s| - 1] == '\n' then TrimRightNewlines(s[..|s| - 1]) else s
  }

  predicate IsLegacyBuildFailLine(e: Event) {
    e.action == Output && e.test == "" &&
    var t := TrimRightNewlines(e.output);
    HasPrefix(t, "FAIL\t") && (HasSuffix(t, "[build failed]") || HasSuffix(t, "[setup failed]"))
  }

  /** What the parser's switch makes of an event: the branch, and the package whose state
      that branch reads and writes. */
  datatype Item =
    | Broken(key: string, legacy: bool)
    | TestPass(key: string)
    | TestFail(key: string)
    | PkgFail(key: string)
    | Other(key: string)

  function Classify(e: Event): Item {
    if e.action == BuildOutput then Other(e.pkg)
    else if IsBuildFailure(e) then Broken(PkgOf(e), false)
    else if IsLegacyBuildFailLine(e) then Broken(PkgOf(e), true)
    else if e.test != "" then
      match e.action
      case Pass => TestPass(e.pkg)
      case Fail => TestFail(e.pkg)
      case _ => Other(e.pkg)
    else if e.action == Fail && e.pkg != "" then PkgFail(e.pkg)
    else Other(e.pkg)
  }

  function Items(es: seq<Event>): seq<Item> {
    seq(|es|, i requires 0 <= i < |es| => Classify(es[i]))
  }

  /** A package-level fail always names its package. */
  predicate WellFormed(e: Item) {
    e.PkgFail? ==> e.key != ""
  }

  /** An event that must never be lost in a green result. */
  predicate IsRed(e: Item) {
    e.Broken? || e.TestFail? || e.PkgFail?
  }

  datatype Counts = Counts(passing: int, failing: int, buildFailures: int, earlyExits: int,
                           events: int, legacyBuild: int)

  const ZERO := Counts(0, 0, 0, 0, 0, 0)

  function Add(a: Counts, b: Counts): Counts {
    Counts(a.passing + b.passing, a.failing + b.failing, a.buildFailures + b.buildFailures,
           a.earlyExits + b.earlyExits, a.events + b.events, a.legacyBuild + b.legacyBuild)
  }

  datatype State = State(counts: Counts, failed: set<string>, testFails: map<string, int>)

  const START := State(ZERO, {}, map[])

  function FailsOf(st: State, pkg: string): int {
    if pkg in st.testFails then st.testFails[pkg] else 0
  }

  function AfterBuildFailure(st: State, pkg: string, legacy: bool): State {
    if pkg != "" && pkg in st.failed then st
    else st.(failed := if pkg != "" then st.failed + {pkg} else st.failed,
             counts := st.counts.(failing := st.counts.failing + 1,
                                  buildFailures := st.counts.buildFailures + 1,
                                  legacyBuild := st.counts.legacyBuild + if legacy then 1 else 0))
  }

  function AfterTestPass(st: State): State {
    st.(counts := st.counts.(passing := st.counts.passing + 1))
  }

  function AfterTestFail(st: State, pkg: string): State {
    st.(counts := st.counts.(failing := st.counts.failing + 1),
        testFails := st.testFails[pkg := FailsOf(st, pkg) + 1])
  }

  function AfterPackageFail(st: State, pkg: string): State {
    if pkg in st.failed || FailsOf(st, pkg) > 0 then st
    else st.(failed := st.failed + {pkg},
             counts := st.counts.(failing := st.counts.failing + 1,
                                  earlyExits := st.counts.earlyExits + 1))
  }

  function Step(st: State, e: Item): State {
    var s := st.(counts := st.counts.(events := st.counts.events + 1));
    match e
    case Broken(pkg, legacy) => AfterBuildFailure(s, pkg, legacy)
    case TestPass(_) => AfterTestPass(s)
    case TestFail(pkg) => AfterTestFail(s, pkg)
    case PkgFail(pkg) => AfterPackageFail(s, pkg)
    case Other(_) => s
  }

  function Run(es: seq<Item>): State {
    if es == [] then START else Step(Run(es[..|es| - 1]), es[|es| - 1])
  }

  // ----- Decomposition by package -----

  /** The events of one package, in their own order. */
  function Only(es: seq<Item>, key: string): seq<Item> {
    if es == [] then []
    else if es[|es| - 1].key == key then Only(es[..|es| - 1], key) + [es[|es| - 1]]
    else Only(es[..|es| - 1], key)
  }

  function Without(es: seq<Item>, key: string): seq<Item> {
    if es == [] then []
    else if es[|es| - 1].key == key then Without(es[..|es| - 1], key)
    else Without(es[..|es| - 1], key) + [es[|es| - 1]]
  }

  ghost predicate SameAt(a: State, b: State, key: string) {
    (key in a.failed <==> key in b.failed) && FailsOf(a, key) == FailsOf(b, key)
  }

  lemma RunAppend(es: seq<Item>, e: Item)
    ensures Run(es + [e]) == Step(Run(es), e)
  {
    assert (es + [e])[..|es|] == es;
  }

  /** A step reads only what is kept for its own package ... */
  lemma StepIsLocal(all: State, one: State, rest: State, e: Item)
    requires SameAt(all, one, e.key) && all.counts == Add(one.counts, rest.counts)
    ensures SameAt(Step(all, e), Step(one, e), e.key)
    ensures Step(all, e).counts == Add(Step(one, e).counts, rest.counts)
    ensures Step(all, e).counts == Add(rest.counts, Step(one, e).counts)
  {
  }

  /** ... and leaves what is kept for every other package alone. */
  lemma StepFrames(st: State, e: Item, k: string)
    requires k != e.key
    ensures SameAt(Step(st, e), st, k)
  {
  }

  lemma AddCommutes(a: Counts, b: Counts)
    ensures Add(a, b) == Add(b, a)
  {
  }

  ghost predicate SplitsAt(all: State, one: State, rest: State, key: string, k: string) {
    && all.counts == Add(one.counts, rest.counts)
    && SameAt(all, if k == key then one else rest, k)
  }

  lemma SplitStep(all: State, one: State, rest: State, e: Item, key: string, k: string)
    requires SplitsAt(all, one, rest, key, k) && SplitsAt(all, one, rest, key, e.key)
    ensures e.key == key ==> SplitsAt(Step(all, e), Step(one, e), rest, key, k)
    ensures e.key != key ==> SplitsAt(Step(all, e), one, Step(rest, e), key, k)
  {
    AddCommutes(one.counts, rest.counts);
    if e.key == key {
      StepIsLocal(all, one, rest, e);
    } else {
      StepIsLocal(all, rest, one, e);
    }
    if k != e.key {
      StepFrames(all, e, k);
      StepFrames(one, e, k);
      StepFrames(rest, e, k);
    }
  }

  /** One package's events can be taken out of the stream: the counts are the sum of both
      parts, and the state kept for any package k is the state its own part leaves. */
  lemma {:induction false} TakeOut(es: seq<Item>, key: string, k: string)
    ensures SplitsAt(Run(es), Run(Only(es, key)), Run(Without(es, key)), key, k)
  {
    if es != [] {
      var init, e := es[..|es| - 1], es[|es| - 1];
      TakeOut(init, key, k);
      TakeOut(init, key, e.key);
      SplitStep(Run(init), Run(Only(init, key)), Run(Without(init, key)), e, key, k);
      if e.key == key {
        RunAppend(Only(init, key), e);
      } else {
        RunAppend(Without(init, key), e);
      }
    }
  }

  // ----- The counts are a sum over packages -----

  predicate Distinct(keys: seq<string>) {
    forall i, j :: 0 <= i < j < |keys| ==> keys[i] != keys[j]
  }

  predicate Covers(keys: seq<string>, es: seq<Item>) {
    forall e :: e in es ==> e.key in keys
  }

  /** The sum over the given packages of what each package's own events count. */
  function SumOver(keys: seq<string>, es: seq<Item>): Counts {
    if keys == [] then ZERO else Add(PackageCounts(Only(es, keys[0]), keys[0]), SumOver(keys[1..], es))
  }

  lemma {:induction false} WithoutMembers(es: seq<Item>, key: string)
    ensures forall e :: e in Without(es, key) <==> e in es && e.key != key
  {
    if es != [] {
      var init, e := es[..|es| - 1], es[|es| - 1];
      WithoutMembers(init, key);
      assert es == init + [e];
    }
  }

  lemma {:induction false} OnlyMembers(es: seq<Item>, key: string)
    ensures forall e :: e in Only(es, key) <==> e in es && e.key == key
  {
    if es != [] {
      var init, e := es[..|es| - 1], es[|es| - 1];
      OnlyMembers(init, key);
      assert es == init + [e];
    }
  }

  lemma {:induction false} OnlyWithout(es: seq<Item>, key: string, k: string)
    requires k != key
    ensures Only(Without(es, key), k) == Only(es, k)
  {
    if es != [] {
      var init, e := es[..|es| - 1], es[|es| - 1];
      OnlyWithout(init, key, k);
      if e.key != key {
        assert (Without(init, key) + [e])[..|Without(init, key)|] == Without(init, key);
      }
    }
  }

  lemma {:induction false} SumWithout(keys: seq<string>, es: seq<Item>, key: string)
    requires key !in keys
    ensures SumOver(keys, Without(es, key)) == SumOver(keys, es)
  {
    if keys != [] {
      OnlyWithout(es, key, keys[0]);
      SumWithout(keys[1..], es, key);
    }
  }

  /** What one package's events (all of the same key) count, without any running state:
      the first event that settles the package decides between a build failure and an early
      exit. Build failures that name no package cannot be told apart, so each counts. */
  function PackageCounts(es: seq<Item>, key: string): Counts {
    var builds := if key == "" then CountOf(es, (e: Item) => e.Broken?)
                  else if Settled(es).Broken? then 1 else 0;
    var legacy := if key == "" then CountOf(es, (e: Item) => e.Broken? && e.legacy)
                  else if Settled(es).Broken? && Settled(es).legacy then 1 else 0;
    var early := if Settled(es).PkgFail? then 1 else 0;
    var testFails := CountOf(es, (e: Item) => e.TestFail?);
    Counts(CountOf(es, (e: Item) => e.TestPass?), testFails + builds + early, builds, early, |es|, legacy)
  }

  function CountOf(es: seq<Item>, p: Item -> bool): nat {
    if es == [] then 0
    else CountOf(es[..|es| - 1], p) + if p(es[|es| - 1]) then 1 else 0
  }

  /** The first build failure, or package fail that no test failure explains; Other if none. */
  function Settled(es: seq<Item>): (r: Item)
    ensures r.Broken? || r.PkgFail? || r.Other?
  {
    if es == [] then Other("")
    else
      var before, e := Settled(es[..|es| - 1]), es[|es| - 1];
      if !before.Other? then before
      else if e.Broken? || (e.PkgFail? && CountOf(es[..|es| - 1], (x: Item) => x.TestFail?) == 0) then e
      else before
  }

  ghost predicate OfKey(es: seq<Item>, key: string) {
    forall e :: e in es ==> e.key == key && WellFormed(e)
  }

  /** The running parser agrees with the stateless account of a single package. */
  lemma {:induction false} SinglePackage(es: seq<Item>, key: string)
    requires OfKey(es, key)
    ensures Run(es).counts == PackageCounts(es, key)
    ensures FailsOf(Run(es), key) == CountOf(es, (e: Item) => e.TestFail?)
    ensures key in Run(es).failed <==> key != "" && !Settled(es).Other?
  {
    if es != [] {
      var init, e := es[..|es| - 1], es[|es| - 1];
      assert es == init + [e];
      SinglePackage(init, key);
    }
  }

  lemma FirstIsMember(es: seq<Item>)
    requires es != []
    ensures es[0] in es
  {
  }

  ghost predicate AllWellFormed(es: seq<Item>) {
    forall e :: e in es ==> WellFormed(e)
  }

  lemma Parts(es: seq<Item>, key: string)
    requires AllWellFormed(es)
    ensures OfKey(Only(es, key), key) && AllWellFormed(Without(es, key))
    ensures forall keys :: |keys| > 0 && keys[0] == key && Covers(keys, es) ==> Covers(keys[1..], Without(es, key))
  {
    WithoutMembers(es, key);
    OnlyMembers(es, key);
  }

  /** The counts of a whole stream are the sum, over its packages, of the stateless account
      of each package's own events. */
  lemma {:induction false} CountsAreSumOverPackages(es: seq<Item>, keys: seq<string>)
    requires Distinct(keys) && Covers(keys, es) && AllWellFormed(es)
    ensures Run(es).counts == SumOver(keys, es)
    decreases |keys|
  {
    if keys == [] {
      if es != [] {
        FirstIsMember(es);
        assert false;
      }
    } else {
      var key := keys[0];
      Parts(es, key);
      TakeOut(es, key, key);
      SinglePackage(Only(es, key), key);
      CountsAreSumOverPackages(Without(es, key), keys[1..]);
      SumWithout(keys[1..], es, key);
    }
  }

  function KeysOf(es: seq<Item>): (keys: seq<string>)
    ensures Distinct(keys) && Covers(keys, es)
  {
    if es == [] then []
    else
      var keys := KeysOf(es[..|es| - 1]);
      assert es == es[..|es| - 1] + [es[|es| - 1]];
      if es[|es| - 1].key in keys then keys else keys + [es[|es| - 1].key]
  }

  ghost predicate SamePerPackage(a: seq<Item>, b: seq<Item>) {
    forall key :: Only(a, key) == Only(b, key)
  }

  lemma {:induction false} SumsAgree(keys: seq<string>, a: seq<Item>, b: seq<Item>)
    requires SamePerPackage(a, b)
    ensures SumOver(keys, a) == SumOver(keys, b)
  {
    if keys != [] {
      SumsAgree(keys[1..], a, b);
    }
  }

  /** However the packages' events interleave, the counts are the same. */
  lemma InterleavingDoesNotMatter(x: seq<Event>, y: seq<Event>)
    requires SamePerPackage(Items(x), Items(y))
    ensures Run(Items(x)).counts == Run(Items(y)).counts
  {
    var a, b := Items(x), Items(y);
    var keys := KeysOf(a);
    forall e | e in b ensures e in a {
      OnlyMembers(a, e.key);
      OnlyMembers(b, e.key);
      assert e in Only(b, e.key);
    }
    CountsAreSumOverPackages(a, keys);
    CountsAreSumOverPackages(b, keys);
    SumsAgree(keys, a, b);
  }

  // ----- No red signal is lost -----

  ghost predicate Bookkeeping(st: State, testFailures: nat) {
    && st.counts.failing == testFailures + st.counts.buildFailures + st.counts.earlyExits
    && 0 <= st.counts.legacyBuild <= st.counts.buildFailures && 0 <= st.counts.earlyExits
    && (forall p :: p in st.testFails ==> 0 <= st.testFails[p] <= testFailures)
    && (st.failed != {} ==> st.counts.buildFailures + st.counts.earlyExits > 0)
  }

  lemma BookkeepingStep(st: State, testFailures: nat, e: Item)
    requires Bookkeeping(st, testFailures)
    ensures Bookkeeping(Step(st, e), testFailures + if e.TestFail? then 1 else 0)
    ensures Step(st, e).counts.failing == 0 <==> st.counts.failing == 0 && !IsRed(e)
  {
  }

  /** Every failure is a test failure, a build failure or an early exit, and the count is
      zero exactly when the stream holds no red event at all. */
  lemma {:induction false} NoRedIsLost(es: seq<Item>)
    ensures Bookkeeping(Run(es), CountOf(es, (e: Item) => e.TestFail?))
    ensures Run(es).counts.failing == 0 <==> forall e :: e in es ==> !IsRed(e)
  {
    if es != [] {
      var init, e := es[..|es| - 1], es[|es| - 1];
      assert es == init + [e];
      NoRedIsLost(init);
      BookkeepingStep(Run(init), CountOf(init, (e: Item) => e.TestFail?), e);
    }
  }

  // ----- The counts in terms of the events themselves -----

  /** Package output of the form FAIL, a tab, anything, [build failed] or [setup failed], and nothing but
      newlines after it. */
  ghost predicate SaysBuildFailed(text: string) {
    exists mid, rest, kind :: kind in {"build", "setup"} && AllNewlines(rest)
                              && text == "FAIL\t" + mid + ("[" + kind + " failed]") + rest
  }

  predicate AllNewlines(s: string) {
    forall i :: 0 <= i < |s| ==> s[i] == '\n'
  }

  /** The toolchain reports that a test binary did not build, or an older one prints so. */
  ghost predicate BuildBroke(e: Event) {
    || e.action == BuildFail
    || (e.action == Fail && e.failedBuild != "")
    || OnlyPrinted(e)
  }

  ghost predicate OnlyPrinted(e: Event) {
    e.action == Output && e.test == "" && SaysBuildFailed(e.output)
  }

  predicate TestFailed(e: Event) {
    e.action == Fail && e.failedBuild == "" && e.test != ""
  }

  predicate TestPassed(e: Event) {
    e.action == Pass && e.test != ""
  }

  predicate PackageFailed(e: Event) {
    e.action == Fail && e.failedBuild == "" && e.test == "" && e.pkg != ""
  }

  /** The package a failure is of. */
  ghost function Culprit(e: Event): string {
    if BuildBroke(e) && e.pkg == "" then BuildFailPkg(e.importPath) else e.pkg
  }

  ghost predicate BadNews(e: Event) {
    BuildBroke(e) || TestFailed(e) || PackageFailed(e)
  }

  /** Bad news of the package before. */
  ghost predicate KnownBad(before: seq<Event>, pkg: string) {
    exists i :: 0 <= i < |before| && BadNews(before[i]) && Culprit(before[i]) == pkg
  }

  /** A package-level failure is an early exit if it is the first bad news of its package. */
  ghost predicate CountsAsExit(before: seq<Event>, e: Event) {
    PackageFailed(e) && !KnownBad(before, e.pkg)
  }

  /** A named package's build breaks once, and not at all after an early exit. */
  ghost predicate CountsAsBuild(before: seq<Event>, e: Event) {
    BuildBroke(e) && (Culprit(e) == "" || !Closed(before, Culprit(e)))
  }

  ghost predicate Closed(before: seq<Event>, pkg: string) {
    exists i :: 0 <= i < |before| && ClosesAt(before, i, pkg)
  }

  ghost predicate ClosesAt(before: seq<Event>, i: nat, pkg: string)
    requires i < |before|
  {
    Culprit(before[i]) == pkg && (BuildBroke(before[i]) || CountsAsExit(before[..i], before[i]))
  }

  ghost function EventCounts(es: seq<Event>): Counts {
    if es == [] then ZERO
    else
      var before, e := es[..|es| - 1], es[|es| - 1];
      var c := EventCounts(before);
      var build, exits := CountsAsBuild(before, e), CountsAsExit(before, e);
      Counts(c.passing + if TestPassed(e) then 1 else 0,
             c.failing + if TestFailed(e) || build || exits then 1 else 0,
             c.buildFailures + if build then 1 else 0,
             c.earlyExits + if exits then 1 else 0,
             c.events + 1,
             c.legacyBuild + if build && e.action == Output then 1 else 0)
  }

  lemma {:induction false} NewlinesTrimmed(s: string)
    ensures TrimRightNewlines(s) <= s && AllNewlines(s[|TrimRightNewlines(s)|..])
    ensures TrimRightNewlines(s) == [] || TrimRightNewlines(s)[|TrimRightNewlines(s)| - 1] != '\n'
  {
    if s != [] && s[|s| - 1] == '\n' {
      NewlinesTrimmed(s[..|s| - 1]);
    }
  }

  lemma {:induction false} TrimUndoes(s: string, rest: string)
    requires AllNewlines(rest) && s != "" && s[|s| - 1] != '\n'
    ensures TrimRightNewlines(s + rest) == s
    decreases |rest|
  {
    if rest == "" {
      assert s + rest == s;
    } else {
      TrimUndoes(s, rest[..|rest| - 1]);
      assert (s + rest)[..|s + rest| - 1] == s + rest[..|rest| - 1];
    }
  }

  lemma PrintedTail(t: string, kind: string) returns (mid: string)
    requires HasPrefix(t, "FAIL\t") && HasSuffix(t, "[" + kind + " failed]") && kind in {"build", "setup"}
    ensures t == "FAIL\t" + mid + ("[" + kind + " failed]")
  {
    var tail := "[" + kind + " failed]";
    FrontAndBack(t, "FAIL\t", tail);
    mid := t[5..|t| - |tail|];
  }

  lemma TrimmedText(mid: string, rest: string, kind: string)
    requires AllNewlines(rest)
    ensures var s := "FAIL\t" + mid + ("[" + kind + " failed]");
            TrimRightNewlines(s + rest) == s && HasPrefix(s, "FAIL\t") && HasSuffix(s, "[" + kind + " failed]")
  {
    var tail := "[" + kind + " failed]";
    var s := "FAIL\t" + mid + tail;
    assert tail[|tail| - 1] == ']' && s[|s| - 1] == ']';
    TrimUndoes(s, rest);
    assert s[|s| - |tail|..] == tail;
    assert s == "FAIL\t" + (mid + tail);
  }

  lemma BothTails()
    ensures "[" + "build" + " failed]" == "[build failed]" && "[" + "setup" + " failed]" == "[setup failed]"
  {
  }

  lemma PrintedIff(e: Event)
    ensures IsLegacyBuildFailLine(e) <==> OnlyPrinted(e)
  {
    hide TrimRightNewlines, HasPrefix, HasSuffix, AllNewlines;
    var t := TrimRightNewlines(e.output);
    NewlinesTrimmed(e.output);
    BothTails();
    if IsLegacyBuildFailLine(e) {
      var kind := if HasSuffix(t, "[build failed]") then "build" else "setup";
      var mid := PrintedTail(t, kind);
      var rest := e.output[|t|..];
      assert e.output == "FAIL\t" + mid + ("[" + kind + " failed]") + rest;
    }
    if OnlyPrinted(e) {
      var mid, rest, kind :| kind in {"build", "setup"} && AllNewlines(rest)
                             && e.output == "FAIL\t" + mid + ("[" + kind + " failed]") + rest;
      TrimmedText(mid, rest, kind);
    }
  }

  /** A front that ends in a tab and a tail that has none do not overlap. */
  lemma FrontAndBack(t: string, front: string, tail: string)
    requires HasPrefix(t, front) && HasSuffix(t, tail) && front != "" && front[|front| - 1] == '\t' && '\t' !in tail
    ensures |front| + |tail| <= |t| && t == front + t[|front|..|t| - |tail|] + tail
  {
    assert t[|front| - 1] == '\t';
    InTheTail(t, tail, |front| - 1);
  }

  lemma InTheTail(t: string, tail: string, k: nat)
    requires HasSuffix(t, tail) && k < |t|
    ensures k >= |t| - |tail| ==> t[k] in tail
  {
    if k >= |t| - |tail| {
      assert t[|t| - |tail|..][k - (|t| - |tail|)] == t[k];
    }
  }

  /** What the parser makes of an event, by its fields. */
  lemma ClassifiedByFields(e: Event)
    ensures Classify(e) == if BuildBroke(e) then Broken(Culprit(e), e.action == Output)
                           else if TestFailed(e) then TestFail(e.pkg)
                           else if TestPassed(e) then TestPass(e.pkg)
                           else if PackageFailed(e) then PkgFail(e.pkg)
                           else Other(e.pkg)
  {
    PrintedIff(e);
    hide SaysBuildFailed;
  }

  /** The parser's state, in terms of the events: a package has settled exactly if it is marked, and has
      a failing test exactly if it is counted. */
  ghost predicate Describes(st: State, es: seq<Event>) {
    && st.counts == EventCounts(es)
    && (forall p :: p in st.failed <==> p != "" && Closed(es, p))
    && (forall p :: FailsOf(st, p) > 0 <==> HadTestFail(es, p))
    && forall p :: FailsOf(st, p) >= 0
  }

  ghost predicate HadTestFail(es: seq<Event>, pkg: string) {
    exists i :: 0 <= i < |es| && TestFailed(es[i]) && es[i].pkg == pkg
  }

  lemma HadTestFailGrows(es: seq<Event>, e: Event, pkg: string)
    ensures HadTestFail(es + [e], pkg) <==> HadTestFail(es, pkg) || (TestFailed(e) && e.pkg == pkg)
  {
    hide TestFailed;
    var longer := es + [e];
    if HadTestFail(es, pkg) {
      var i :| 0 <= i < |es| && TestFailed(es[i]) && es[i].pkg == pkg;
      assert longer[i] == es[i];
    }
    assert longer[|es|] == e;
  }

  lemma ClosedGrows(es: seq<Event>, e: Event, pkg: string)
    ensures Closed(es + [e], pkg) <==>
            Closed(es, pkg) || (Culprit(e) == pkg && (BuildBroke(e) || CountsAsExit(es, e)))
  {
    hide Culprit, BuildBroke, CountsAsExit;
    var longer := es + [e];
    assert longer[..|es|] == es;
    forall i | 0 <= i < |es| ensures ClosesAt(longer, i, pkg) <==> ClosesAt(es, i, pkg) {
      assert longer[..i] == es[..i];
    }
    if Closed(es, pkg) {
      var i :| 0 <= i < |es| && ClosesAt(es, i, pkg);
      assert ClosesAt(longer, i, pkg);
    }
    assert ClosesAt(longer, |es|, pkg) <==> (Culprit(e) == pkg && (BuildBroke(e) || CountsAsExit(es, e)));
  }

  lemma OneKindOfNews(e: Event)
    ensures TestFailed(e) || PackageFailed(e) || TestPassed(e) ==> !BuildBroke(e)
  {
  }

  /** The first bad news of a package settles it or is a failing test. */
  lemma {:induction false} KnownBadIff(es: seq<Event>, pkg: string)
    ensures KnownBad(es, pkg) <==> Closed(es, pkg) || HadTestFail(es, pkg)
  {
    hide BuildBroke;
    if es != [] {
      var init, e := es[..|es| - 1], es[|es| - 1];
      assert es == init + [e];
      KnownBadIff(init, pkg);
      OneKindOfNews(e);
      ClosedGrows(init, e, pkg);
      HadTestFailGrows(init, e, pkg);
      KnownBadGrows(init, e, pkg);
    }
  }

  lemma KnownBadGrows(es: seq<Event>, e: Event, pkg: string)
    ensures KnownBad(es + [e], pkg) <==> KnownBad(es, pkg) || (BadNews(e) && Culprit(e) == pkg)
  {
    hide BadNews, Culprit;
    var longer := es + [e];
    if KnownBad(es, pkg) {
      var i :| 0 <= i < |es| && BadNews(es[i]) && Culprit(es[i]) == pkg;
      assert longer[i] == es[i];
    }
    assert longer[|es|] == e;
  }

  lemma FailsStep(st: State, es: seq<Event>, e: Event, p: string)
    requires FailsOf(st, p) >= 0 && (FailsOf(st, p) > 0 <==> HadTestFail(es, p))
    ensures FailsOf(Step(st, Classify(e)), p) >= 0
    ensures FailsOf(Step(st, Classify(e)), p) > 0 <==> HadTestFail(es + [e], p)
  {
    hide Classify, BuildBroke, HadTestFail, PkgOf;
    ClassifiedByFields(e);
    OneKindOfNews(e);
    HadTestFailGrows(es, e, p);
  }

  lemma FailedStep(st: State, es: seq<Event>, e: Event, p: string)
    requires p in st.failed <==> p != "" && Closed(es, p)
    requires FailsOf(st, e.pkg) > 0 <==> HadTestFail(es, e.pkg)
    requires e.pkg in st.failed <==> e.pkg != "" && Closed(es, e.pkg)
    ensures p in Step(st, Classify(e)).failed <==> p != "" && Closed(es + [e], p)
  {
    hide Classify, BuildBroke, HadTestFail, PkgOf, Closed, KnownBad;
    ClassifiedByFields(e);
    OneKindOfNews(e);
    ClosedGrows(es, e, p);
    KnownBadIff(es, e.pkg);
  }

  lemma CountsStep(st: State, es: seq<Event>, e: Event)
    requires Describes(st, es)
    ensures Step(st, Classify(e)).counts == EventCounts(es + [e])
  {
    hide Classify, BuildBroke, HadTestFail, PkgOf, Closed, KnownBad;
    ClassifiedByFields(e);
    OneKindOfNews(e);
    KnownBadIff(es, e.pkg);
    assert (es + [e])[..|es|] == es && (es + [e])[|es|] == e;
  }

  lemma DescribesStep(st: State, es: seq<Event>, e: Event)
    requires Describes(st, es)
    ensures Describes(Step(st, Classify(e)), es + [e])
  {
    hide Classify, Step, Closed, HadTestFail, EventCounts;
    var s := Step(st, Classify(e));
    CountsStep(st, es, e);
    forall p ensures p in s.failed <==> p != "" && Closed(es + [e], p) {
      FailedStep(st, es, e, p);
    }
    forall p ensures (FailsOf(s, p) > 0 <==> HadTestFail(es + [e], p)) && FailsOf(s, p) >= 0 {
      FailsStep(st, es, e, p);
    }
  }

  /** What the parser counts, on any stream: every failing test, the first break of a named package's
      build and every break of an unnamed one, and a package-level failure that is the first bad news
      of its package. */
  lemma {:induction false} CountsEvents(es: seq<Event>)
    ensures Describes(Run(Items(es)), es)
  {
    if es == [] {
      assert Items(es) == [];
    } else {
      var init, e := es[..|es| - 1], es[|es| - 1];
      CountsEvents(init);
      assert es == init + [e] && Items(es) == Items(init) + [Classify(e)];
      RunAppend(Items(init), Classify(e));
      DescribesStep(Run(Items(init)), init, e);
    }
  }

  /** No red is lost, in terms of events: the failures are the failing tests, broken builds and early
      exits, and there are none exactly when no event brings bad news. */
  lemma {:induction false} NoBadNewsIsLost(es: seq<Event>)
    ensures var c := EventCounts(es);
            && c.failing >= c.buildFailures + c.earlyExits && c.buildFailures >= c.legacyBuild >= 0 && c.earlyExits >= 0
            && (c.failing == 0 <==> forall e :: e in es ==> !BadNews(e))
  {
    if es != [] {
      var init, e := es[..|es| - 1], es[|es| - 1];
      hide BuildBroke, PkgOf;
      assert es == init + [e];
      NoBadNewsIsLost(init);
      OneKindOfNews(e);
      if EventCounts(init).failing == 0 {
        NothingKnown(init);
        assert BadNews(e) ==> EventCounts(es).failing > 0;
      } else {
        var x :| x in init && BadNews(x);
        assert x in es;
      }
      assert e in es;
    }
  }

  lemma NothingKnown(es: seq<Event>)
    requires forall e :: e in es ==> !BadNews(e)
    ensures forall p :: !KnownBad(es, p) && !Closed(es, p)
  {
    forall i | 0 <= i < |es| ensures !BadNews(es[i]) {
      assert es[i] in es;
    }
  }

  /** An exit status of 0 vetoes legacy build failures when they are the only build failures. */
  function Veto(c: Counts, exitedZero: bool): Counts {
    if exitedZero && c.legacyBuild > 0 && c.legacyBuild == c.buildFailures then
      c.(failing := c.failing - c.legacyBuild, buildFailures := 0, legacyBuild := 0)
    else c
  }

  /** The veto never hides a test failure, an early exit or a build failure the toolchain
      reported itself, and never drives a count below zero. */
  lemma VetoIsSound(es: seq<Item>, exitedZero: bool)
    ensures var c, v := Run(es).counts, Veto(Run(es).counts, exitedZero);
            && v.passing == c.passing && v.earlyExits == c.earlyExits
            && v.failing == CountOf(es, (e: Item) => e.TestFail?) + v.buildFailures + v.earlyExits
            && v.failing >= 0 && v.buildFailures >= 0
            && (v != c ==> exitedZero && c.buildFailures == c.legacyBuild)
            && (!exitedZero || c.legacyBuild < c.buildFailures ==> v == c)
            && (exitedZero && c.buildFailures == c.legacyBuild ==> v.buildFailures == 0 && v.legacyBuild == 0)
  {
    NoRedIsLost(es);
  }

  // ----- The parser as it runs -----

  class GoTestParse {
    var passing: int
    var failing: int
    var buildFailures: int
    var earlyExits: int
    var events: int
    var legacyBuild: int

    constructor ()
      ensures View() == ZERO
    {
      passing, failing, buildFailures, earlyExits, events, legacyBuild := 0, 0, 0, 0, 0, 0;
    }

    function View(): Counts
      reads this
    {
      Counts(passing, failing, buildFailures, earlyExits, events, legacyBuild)
    }
  }

  class PkgTracker {
    var failed: set<string>
    var testFails: map<string, int>

    constructor ()
      ensures failed == {} && testFails == map[]
    {
      failed, testFails := {}, map[];
    }

    function View(r: GoTestParse): State
      reads this, r
    {
      State(r.View(), failed, testFails)
    }

    method BuildFailure(r: GoTestParse, pkg: string, legacy: bool)
      modifies this, r
      ensures View(r) == AfterBuildFailure(old(View(r)), pkg, legacy)
    {
      if pkg != "" && pkg in failed {
        return;
      }
      if pkg != "" {
        failed := failed + {pkg};
      }
      r.failing := r.failing + 1;
      r.buildFailures := r.buildFailures + 1;
      if legacy {
        r.legacyBuild := r.legacyBuild + 1;
      }
    }

    method TestEvent(r: GoTestParse, e: Event)
      modifies this, r
      ensures View(r) == match e.action
                         case Pass => AfterTestPass(old(View(r)))
                         case Fail => AfterTestFail(old(View(r)), e.pkg)
                         case _ => old(View(r))
    {
      match e.action
      case Pass =>
        r.passing := r.passing + 1;
      case Fail =>
        r.failing := r.failing + 1;
        testFails := testFails[e.pkg := (if e.pkg in testFails then testFails[e.pkg] else 0) + 1];
      case _ =>
    }

    method PackageFail(r: GoTestParse, pkg: string)
      modifies this, r
      ensures View(r) == AfterPackageFail(old(View(r)), pkg)
    {
      if pkg in failed || (pkg in testFails && testFails[pkg] > 0) {
        return;
      }
      failed := failed + {pkg};
      r.failing := r.failing + 1;
      r.earlyExits := r.earlyExits + 1;
    }
  }

  lemma ItemsAppend(es: seq<Event>, n: nat)
    requires n < |es|
    ensures Items(es[..n + 1]) == Items(es[..n]) + [Classify(es[n])]
  {
  }

  /** One turn of the parser's loop. */
  method Consume(tr: PkgTracker, r: GoTestParse, e: Event)
    modifies tr, r
    ensures tr.View(r) == Step(old(tr.View(r)), Classify(e))
  {
    r.events := r.events + 1;
    if e.action == BuildOutput {
    } else if IsBuildFailure(e) {
      tr.BuildFailure(r, PkgOf(e), false);
    } else if IsLegacyBuildFailLine(e) {
      tr.BuildFailure(r, PkgOf(e), true);
    } else if e.test != "" {
      tr.TestEvent(r, e);
    } else if e.action == Fail && e.pkg != "" {
      tr.PackageFail(r, e.pkg);
    }
  }

  method ParseGoTestOutput(es: seq<Event>) returns (c: Counts)
    ensures c == Run(Items(es)).counts && c == EventCounts(es)
  {
    CountsEvents(es);
    hide EventCounts;
    var r := new GoTestParse();
    var tr := new PkgTracker();
    for n := 0 to |es|
      invariant fresh(r) && fresh(tr)
      invariant tr.View(r) == Run(Items(es[..n]))
    {
      Consume(tr, r, es[n]);
      ItemsAppend(es, n);
      RunAppend(Items(es[..n]), Classify(es[n]));
    }
    assert es[..|es|] == es;
    c := r.View();
  }

  // ----- The Node runners: a scan over lines, without a view of packages -----

  predicate SaysPassed(line: string) {
    Contains(line, "\"numPassedTests\"") || Contains(line, "PASS:")
  }

  predicate SaysFailed(line: string) {
    Contains(line, "\"numFailedTests\"") || Contains(line, "FAIL:")
  }

  predicate IsSummary(line: string) {
    Contains(line, "Tests:") && Contains(line, "passed")
  }

  /** How many lines satisfy a predicate. */
  function Lines(lines: seq<string>, p: string -> bool): nat {
    if lines == [] then 0
    else Lines(lines[..|lines| - 1], p) + if p(lines[|lines| - 1]) then 1 else 0
  }

  /** The first summary line, if any, overrides the counts; `scan` is what formatted scanning makes
      of that line, given the counts it would overwrite. */
  function Summarised(lines: seq<string>, scan: (string, (int, int)) -> (int, int), counts: (int, int)): (int, int) {
    if lines == [] then counts
    else if IsSummary(lines[0]) then scan(lines[0], counts)
    else Summarised(lines[1..], scan, counts)
  }

  function NodeCounts(lines: seq<string>, scan: (string, (int, int)) -> (int, int)): (int, int) {
    Summarised(lines, scan, (Lines(lines, SaysPassed), Lines(lines, SaysFailed)))
  }

  ghost predicate Has(line: string, text: string) {
    exists k :: OccursAt(line, text, k)
  }

  ghost function Marked(lines: seq<string>, one: string, other: string): set<int> {
    set i | 0 <= i < |lines| && (Has(lines[i], one) || Has(lines[i], other))
  }

  ghost predicate Announces(line: string) {
    Has(line, "Tests:") && Has(line, "passed")
  }

  lemma {:induction false} LinesAreMarked(lines: seq<string>, p: string -> bool, one: string, other: string)
    requires forall line :: p(line) <==> Has(line, one) || Has(line, other)
    ensures Lines(lines, p) == |Marked(lines, one, other)|
  {
    hide Has;
    if lines != [] {
      var n := |lines| - 1;
      var init := lines[..n];
      LinesAreMarked(init, p, one, other);
      assert forall i :: 0 <= i < n ==> init[i] == lines[i];
      assert Marked(lines, one, other) == Marked(init, one, other) + if p(lines[n]) then {n} else {};
    }
  }

  lemma {:induction false} FirstSummary(lines: seq<string>, scan: (string, (int, int)) -> (int, int),
                                        counts: (int, int), i: nat)
    requires i <= |lines| && (forall j :: 0 <= j < i ==> !IsSummary(lines[j]))
    requires i < |lines| ==> IsSummary(lines[i])
    ensures Summarised(lines, scan, counts) == if i < |lines| then scan(lines[i], counts) else counts
  {
    hide IsSummary;
    if i > 0 {
      FirstSummary(lines[1..], scan, counts, i - 1);
    }
  }

  /** The lines that hold one of the two marks are counted, and the first line that announces a result,
      if there is one, overrides both counts. */
  lemma NodeCountsLines(lines: seq<string>, scan: (string, (int, int)) -> (int, int), i: nat)
    requires i <= |lines| && (forall j :: 0 <= j < i ==> !Announces(lines[j]))
    requires i < |lines| ==> Announces(lines[i])
    ensures var counts := (|Marked(lines, "\"numPassedTests\"", "PASS:")|, |Marked(lines, "\"numFailedTests\"", "FAIL:")|);
            NodeCounts(lines, scan) == if i < |lines| then scan(lines[i], counts) else counts
  {
    assert forall line, text :: Contains(line, text) <==> Has(line, text);
    assert forall line :: IsSummary(line) <==> Announces(line);
    assert forall line :: SaysPassed(line) <==> Has(line, "\"numPassedTests\"") || Has(line, "PASS:");
    assert forall line :: SaysFailed(line) <==> Has(line, "\"numFailedTests\"") || Has(line, "FAIL:");
    hide Contains, Has, IsSummary, Announces, SaysPassed, SaysFailed;
    LinesAreMarked(lines, SaysPassed, "\"numPassedTests\"", "PASS:");
    LinesAreMarked(lines, SaysFailed, "\"numFailedTests\"", "FAIL:");
    FirstSummary(lines, scan, (Lines(lines, SaysPassed), Lines(lines, SaysFailed)), i);
  }

  /** Passing and failing, by the lines that say so or by the summary line. */
  method ParseNodeTestOutput(lines: seq<string>, scan: (string, (int, int)) -> (int, int))
    returns (passing: int, failing: int)
    ensures (passing, failing) == NodeCounts(lines, scan)
  {
    hide SaysPassed, SaysFailed, IsSummary;
    passing, failing := 0, 0;
    for i := 0 to |lines|
      invariant passing == Lines(lines[..i], SaysPassed) && failing == Lines(lines[..i], SaysFailed)
    {
      assert lines[..i + 1][..i] == lines[..i];
      if SaysPassed(lines[i]) {
        passing := passing + 1;
      }
      if SaysFailed(lines[i]) {
        failing := failing + 1;
      }
    }
    assert lines[..|lines|] == lines;
    assert lines[0..] == lines;
    for i := 0 to |lines|
      invariant NodeCounts(lines, scan) == Summarised(lines[i..], scan, (passing, failing))
    {
      assert lines[i..][0] == lines[i] && lines[i..][1..] == lines[i + 1..];
      if IsSummary(lines[i]) {
        var counts := scan(lines[i], (passing, failing));
        passing, failing := counts.0, counts.1;
        break;
      }
    }
  }

  // ----- Either of them, with the runner's exit status -----

  /** The runner's output: decoded events of `go test -json`, or plain lines. */
  datatype Output = Go(events: seq<Event>) | Node(lines: seq<string>)

  /** An exit status of 0 vetoes what the output alone seems to say: legacy build failures in Go,
      every failure in Node. */
  method ParseTestOutput(output: Output, scan: (string, (int, int)) -> (int, int), exitedZero: bool)
    returns (res: Counts, passing: int, failing: int)
    ensures output.Go? ==> res == Veto(Run(Items(output.events)).counts, exitedZero)
                           && res == Veto(EventCounts(output.events), exitedZero)
                           && passing == res.passing && failing == res.failing
    ensures output.Node? ==> res == ZERO && passing == NodeCounts(output.lines, scan).0
                             && failing == if exitedZero then 0 else NodeCounts(output.lines, scan).1
  {
    match output
    case Go(es) =>
      res := ParseGoTestOutput(es);
      if exitedZero && res.legacyBuild > 0 && res.legacyBuild == res.buildFailures {
        res := res.(failing := res.failing - res.legacyBuild);
        res := res.(buildFailures := 0, legacyBuild := 0);
      }
      passing, failing := res.passing, res.failing;
    case Node(lines) =>
      res := ZERO;
      passing, failing := ParseNodeTestOutput(lines, scan);
      if exitedZero {
        failing := 0;
      }
  }
}
