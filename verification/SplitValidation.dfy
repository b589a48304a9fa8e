/** The checks a proposed story split must pass before it may rewrite the graph. */
module SplitValidation {
  import opened Strings
  import opened Graph

  const MAX_SPLIT_DEPTH := 2

  datatype SplitChild = SplitChild(id: string, suffix: string, complexity: int, ownedFiles: seq<string>)

  datatype SplitError =
    | DepthReached
    | UnsafeSuffix(suffix: string)
    | DuplicateSuffix(suffix: string)
    | BadEdge(size: nat)
    | UnknownSuffix(edge: seq<string>)
    | Overlap(file: string)
    | TooComplex(complexity: int)

  predicate SafeChar(c: char) {
    'a' <= c <= 'z' || 'A' <= c <= 'Z' || '0' <= c <= '9' || c == '.' || c == '_' || c == '-'
  }

  predicate SafeId(s: string) {
    s != "" && forall i :: 0 <= i < |s| ==> SafeChar(s[i])
  }

  const UPPER := "ABCDEFGHIJKLMNOPQRSTUVWXYZ"
  const LOWER := "abcdefghijklmnopqrstuvwxyz"

  /** Letters, digits, periods, underscores and hyphens, and at least one of them. */
  lemma SafeIdIff(s: string)
    ensures SafeId(s) <==>
            s != "" && forall c :: c in s ==> c in UPPER || c in LOWER || c in "0123456789" || c in "._-"
  {
    forall c ensures SafeChar(c) <==> c in UPPER || c in LOWER || c in "0123456789" || c in "._-" {
      UpperIff(c);
      LowerIff(c);
    }
  }

  lemma UpperIff(c: char)
    ensures 'A' <= c <= 'Z' <==> c in UPPER
  {
    if 'A' <= c <= 'Z' {
      assert UPPER[c as int - 'A' as int] == c;
    }
  }

  lemma LowerIff(c: char)
    ensures 'a' <= c <= 'z' <==> c in LOWER
  {
    if 'a' <= c <= 'z' {
      assert LOWER[c as int - 'a' as int] == c;
    }
  }

  function Suffixes(children: seq<SplitChild>): (r: set<string>) {
    set c | c in children :: c.suffix
  }

  /** The graph of the pairs among the given edges: [after, before]. */
  function PairGraph(edges: seq<seq<string>>): Deps {
    if edges == [] then EMPTY
    else
      var g, e := PairGraph(edges[..|edges| - 1]), edges[|edges| - 1];
      if |e| == 2 then AfterAddEdge(g, e[0], e[1]) else g
  }

  lemma {:induction false} PairGraphEdges(edges: seq<seq<string>>, a: string, b: string)
    ensures Edge(PairGraph(edges), a, b) <==> [a, b] in edges
  {
    if edges != [] {
      var init, e := edges[..|edges| - 1], edges[|edges| - 1];
      PairGraphEdges(init, a, b);
      assert edges == init + [e];
      assert |e| == 2 ==> e == [e[0], e[1]];
    }
  }

  // ----- What a valid split is -----

  ghost predicate SuffixesOk(children: seq<SplitChild>) {
    && (forall i :: 0 <= i < |children| ==> SafeId(children[i].suffix))
    && forall i, j :: 0 <= i < j < |children| ==> children[i].suffix != children[j].suffix
  }

  ghost predicate EdgeOk(children: seq<SplitChild>, edge: seq<string>) {
    |edge| == 2 && edge[0] in Suffixes(children) && edge[1] in Suffixes(children)
  }

  ghost predicate EdgesOk(children: seq<SplitChild>, edges: seq<seq<string>>) {
    forall i :: 0 <= i < |edges| ==> EdgeOk(children, edges[i])
  }

  /** One of the two runs strictly after the other. */
  ghost predicate Ordered(g: Deps, x: string, y: string) {
    x == y || Reaches(g, x, y) || Reaches(g, y, x)
  }

  ghost predicate PairOk(g: Deps, a: SplitChild, b: SplitChild) {
    (exists f :: f in a.ownedFiles && f in b.ownedFiles) ==> Ordered(g, a.suffix, b.suffix)
  }

  ghost predicate FilesOk(g: Deps, children: seq<SplitChild>) {
    forall i, j :: 0 <= i < j < |children| ==> PairOk(g, children[i], children[j])
  }

  ghost predicate ComplexityOk(children: seq<SplitChild>, max: int) {
    forall i :: 0 <= i < |children| ==> children[i].complexity <= max
  }

  ghost predicate SplitOk(depth: int, children: seq<SplitChild>, max: int, edges: seq<seq<string>>) {
    && depth < MAX_SPLIT_DEPTH
    && SuffixesOk(children)
    && EdgesOk(children, edges)
    && ComplexityOk(children, max)
    && FilesOk(PairGraph(edges), children)
  }

  // ----- The stack search for a dependency chain -----

  /** Everything taken off the stack has had all its successors looked at. */
  ghost predicate Explored(g: Deps, to: string, seen: set<string>, stack: seq<string>) {
    forall n, m :: n in seen && n !in stack && Edge(g, n, m) ==> m != to && m in seen
  }

  ghost predicate Found(g: Deps, from: string, seen: set<string>) {
    forall n :: n in seen ==> n == from || Reaches(g, from, n)
  }

  lemma LastStep(g: Deps, a: string, c: string) returns (b: string)
    requires Reaches(g, a, c)
    ensures (b == a || Reaches(g, a, b)) && Edge(g, b, c)
  {
    var p :| PathFromTo(g, p, a, c);
    b := p[|p| - 2];
    assert Link(g, p, |p| - 2);
    WalkTail(g, p, |p| - 1);
    if |p| > 2 {
      assert PathFromTo(g, p[..|p| - 1], a, b);
    }
  }

  lemma ExploredEverything(g: Deps, from: string, to: string, seen: set<string>)
    requires from in seen && Explored(g, to, seen, [])
    ensures !Reaches(g, from, to)
  {
    if Reaches(g, from, to) {
      assert Closed(g, seen);
      var b := LastStep(g, from, to);
      if b != from {
        ClosedUnderReach(g, seen, from, b);
      }
      assert false;
    }
  }

  lemma OneFurther(g: Deps, from: string, n: string, m: string)
    requires (n == from || Reaches(g, from, n)) && Edge(g, n, m)
    ensures Reaches(g, from, m)
  {
    EdgeReaches(g, n, m);
    if n != from {
      ReachesTransitive(g, from, n, m);
    }
  }

  ghost function Targets(g: Deps): set<string> {
    set n, m | n in g.edges && m in g.edges[n] :: m
  }

  /** Looks at the successors of the node just taken off the stack. */
  method Expand(g: Deps, ghost from: string, to: string, n: string, seen0: set<string>, stack0: seq<string>)
    returns (hit: bool, seen: set<string>, stack: seq<string>)
    requires n in seen0 && Found(g, from, seen0) && Explored(g, to, seen0, stack0 + [n])
    requires forall x :: x in stack0 ==> x in seen0
    requires seen0 <= Targets(g) + {from}
    ensures hit ==> Reaches(g, from, to)
    ensures seen0 <= seen <= Targets(g) + {from}
    ensures !hit ==> Found(g, from, seen) && Explored(g, to, seen, stack) && forall x :: x in stack ==> x in seen
    ensures seen == seen0 ==> stack == stack0
  {
    hit, seen, stack := false, seen0, stack0;
    var next := if n in g.edges then g.edges[n] else [];
    for i := 0 to |next|
      invariant seen0 <= seen <= Targets(g) + {from} && Found(g, from, seen)
      invariant forall x :: x in stack ==> x in seen
      invariant forall j :: 0 <= j < i ==> next[j] != to && next[j] in seen
      invariant Explored(g, to, seen, stack + [n])
      invariant seen == seen0 ==> stack == stack0
    {
      var m := next[i];
      assert Edge(g, n, m);
      OneFurther(g, from, n, m);
      if m == to {
        hit := true;
        return;
      }
      if m !in seen {
        seen, stack := seen + {m}, stack + [m];
      }
    }
  }

  method SearchReaches(g: Deps, from: string, to: string) returns (r: bool)
    ensures r <==> Reaches(g, from, to)
  {
    var seen, stack := {from}, [from];
    while stack != []
      invariant from in seen && seen <= Targets(g) + {from}
      invariant Found(g, from, seen) && Explored(g, to, seen, stack)
      invariant forall x :: x in stack ==> x in seen
      decreases |Targets(g) + {from} - seen|, |stack|
    {
      var n := stack[|stack| - 1];
      ghost var before, whole := seen, stack;
      stack := stack[..|stack| - 1];
      assert stack + [n] == whole;
      r, seen, stack := Expand(g, from, to, n, seen, stack);
      if r {
        return;
      }
      Shrinks(Targets(g) + {from}, before, seen);
    }
    ExploredEverything(g, from, to, seen);
    r := false;
  }

  lemma Shrinks(all: set<string>, before: set<string>, after: set<string>)
    requires before <= after <= all
    ensures after == before || |all - after| < |all - before|
  {
    if after != before {
      assert all - after < all - before;
      StrictSubsetSize(all - after, all - before);
    }
  }

  lemma StrictSubsetSize(a: set<string>, b: set<string>)
    requires a < b
    ensures |a| < |b|
  {
    assert b == a + (b - a);
  }

  method OrderedByEdges(g: Deps, x: string, y: string) returns (r: bool)
    ensures r <==> Ordered(g, x, y)
  {
    r := x == y;
    if !r {
      r := SearchReaches(g, x, y);
    }
    if !r {
      r := SearchReaches(g, y, x);
    }
  }

  // ----- The validator -----

  /** The violation an error reports is really there. */
  ghost predicate Real(err: SplitError, depth: int, children: seq<SplitChild>, max: int, edges: seq<seq<string>>) {
    match err
    case DepthReached => depth >= MAX_SPLIT_DEPTH
    case UnsafeSuffix(s) => s in Suffixes(children) && !SafeId(s)
    case DuplicateSuffix(s) =>
      exists i, j :: 0 <= i < j < |children| && children[i].suffix == s && children[j].suffix == s
    case BadEdge(n) => n != 2 && exists e :: e in edges && |e| == n
    case UnknownSuffix(e) => e in edges && !EdgeOk(children, e)
    case Overlap(f) =>
      exists i, j :: 0 <= i < j < |children| && f in children[i].ownedFiles && f in children[j].ownedFiles
                     && !Ordered(PairGraph(edges), children[i].suffix, children[j].suffix)
    case TooComplex(c) => c > max && exists i :: 0 <= i < |children| && children[i].complexity == c
  }

  method CheckSuffixes(children: seq<SplitChild>) returns (err: Option<SplitError>, suffixSet: set<string>)
    ensures err.None? <==> SuffixesOk(children)
    ensures err.None? ==> suffixSet == Suffixes(children)
    ensures err.Some? ==> (err.value.UnsafeSuffix? || err.value.DuplicateSuffix?)
                          && Real(err.value, 0, children, 0, [])
  {
    suffixSet := {};
    for i := 0 to |children|
      invariant suffixSet == Suffixes(children[..i]) && SuffixesOk(children[..i])
    {
      var s := children[i].suffix;
      assert children[..i + 1] == children[..i] + [children[i]];
      if !SafeId(s) {
        assert children[i] in children;
        return Some(UnsafeSuffix(s)), suffixSet;
      }
      if s in suffixSet {
        assert exists j :: 0 <= j < i && children[..i][j].suffix == s;
        return Some(DuplicateSuffix(s)), suffixSet;
      }
      suffixSet := suffixSet + {s};
    }
    assert children[..|children|] == children;
    err := None;
  }

  method BuildGraph(ghost children: seq<SplitChild>, suffixSet: set<string>, edges: seq<seq<string>>)
    returns (err: Option<SplitError>, g: Deps)
    requires suffixSet == Suffixes(children)
    ensures err.None? <==> EdgesOk(children, edges)
    ensures err.None? ==> g == PairGraph(edges)
    ensures err.Some? ==> (err.value.BadEdge? || err.value.UnknownSuffix?)
                          && Real(err.value, 0, children, 0, edges)
  {
    g := EMPTY;
    for i := 0 to |edges|
      invariant EdgesOk(children, edges[..i]) && g == PairGraph(edges[..i])
    {
      var e := edges[i];
      assert edges[..i + 1] == edges[..i] + [e];
      if |e| != 2 {
        assert !EdgeOk(children, edges[i]) && e in edges;
        return Some(BadEdge(|e|)), g;
      }
      if e[0] !in suffixSet || e[1] !in suffixSet {
        assert !EdgeOk(children, edges[i]) && e in edges;
        return Some(UnknownSuffix(e)), g;
      }
      g := AfterAddEdge(g, e[0], e[1]);
    }
    assert edges[..|edges|] == edges;
    err := None;
  }

  /** Which of the first k children claim a file. */
  ghost predicate OwnersOk(children: seq<SplitChild>, k: nat, owners: map<string, seq<string>>)
    requires k <= |children|
  {
    forall f, x :: x in Lookup(owners, f) <==> ClaimedBy(children, k, f, x)
  }

  ghost predicate ClaimedBy(children: seq<SplitChild>, k: nat, f: string, x: string)
    requires k <= |children|
  {
    exists i :: 0 <= i < k && children[i].suffix == x && f in children[i].ownedFiles
  }

  ghost predicate ClashWithEarlier(g: Deps, children: seq<SplitChild>, k: nat, f: string)
    requires k < |children|
  {
    f in children[k].ownedFiles &&
    exists i :: 0 <= i < k && f in children[i].ownedFiles && !Ordered(g, children[i].suffix, children[k].suffix)
  }

  /** `suffix` has been entered as a claimant of the listed files. */
  ghost predicate Entered(owners0: map<string, seq<string>>, owners: map<string, seq<string>>,
                          suffix: string, files: seq<string>) {
    forall f, x :: x in Lookup(owners, f) <==> x in Lookup(owners0, f) || (x == suffix && f in files)
  }

  lemma EnterNone(owners: map<string, seq<string>>, suffix: string)
    ensures Entered(owners, owners, suffix, [])
  {
  }

  lemma EnterOne(owners0: map<string, seq<string>>, owners: map<string, seq<string>>,
                 suffix: string, files: seq<string>, f: string)
    requires Entered(owners0, owners, suffix, files)
    ensures Entered(owners0, owners[f := Lookup(owners, f) + [suffix]], suffix, files + [f])
  {
    var after := owners[f := Lookup(owners, f) + [suffix]];
    forall h, x ensures x in Lookup(after, h) <==> x in Lookup(owners, h) || (x == suffix && h == f) {
      assert h == f ==> Lookup(after, h) == Lookup(owners, h) + [suffix];
    }
  }

  /** Every earlier claimant of the listed files is ordered with `suffix`. */
  ghost predicate OrderedWithClaimants(g: Deps, owners0: map<string, seq<string>>, suffix: string, files: seq<string>) {
    forall f, x :: f in files && x in Lookup(owners0, f) ==> Ordered(g, suffix, x)
  }

  lemma OrderedOneMore(g: Deps, owners0: map<string, seq<string>>, owners: map<string, seq<string>>,
                       suffix: string, files: seq<string>, f: string)
    requires Entered(owners0, owners, suffix, files) && OrderedWithClaimants(g, owners0, suffix, files)
    requires forall x :: x in Lookup(owners, f) ==> Ordered(g, suffix, x)
    ensures OrderedWithClaimants(g, owners0, suffix, files + [f])
  {
    hide Ordered;
  }

  /** Somebody the child is not ordered with is somebody else, and claimed the file earlier. */
  lemma ClashFound(g: Deps, children: seq<SplitChild>, k: nat, owners0: map<string, seq<string>>,
                   owners: map<string, seq<string>>, files: seq<string>, f: string, x: string)
    requires k < |children| && OwnersOk(children, k, owners0)
    requires Entered(owners0, owners, children[k].suffix, files)
    requires f in children[k].ownedFiles && x in Lookup(owners, f) && !Ordered(g, children[k].suffix, x)
    ensures ClashWithEarlier(g, children, k, f)
  {
    assert x in Lookup(owners0, f);
    assert ClaimedBy(children, k, f, x);
  }

  method CheckClaimants(g: Deps, suffix: string, claimants: seq<string>) returns (clash: Option<string>)
    ensures clash.None? ==> forall x :: x in claimants ==> Ordered(g, suffix, x)
    ensures clash.Some? ==> clash.value in claimants && !Ordered(g, suffix, clash.value)
  {
    hide Ordered;
    for j := 0 to |claimants|
      invariant forall l :: 0 <= l < j ==> Ordered(g, suffix, claimants[l])
    {
      var ordered := OrderedByEdges(g, suffix, claimants[j]);
      if !ordered {
        return Some(claimants[j]);
      }
    }
    clash := None;
  }

  /** Compares one child's claims with those made before it, and adds them. */
  method ClaimFiles(g: Deps, children: seq<SplitChild>, k: nat, owners0: map<string, seq<string>>)
    returns (clash: Option<string>, owners: map<string, seq<string>>)
    requires k < |children| && OwnersOk(children, k, owners0)
    ensures clash.None? ==> OwnersOk(children, k + 1, owners)
    ensures clash.None? ==> forall i :: 0 <= i < k ==> PairOk(g, children[i], children[k])
    ensures clash.Some? ==> ClashWithEarlier(g, children, k, clash.value)
  {
    hide Entered, OrderedWithClaimants, OwnersOk, Ordered, PairOk, ClashWithEarlier;
    var files, suffix := children[k].ownedFiles, children[k].suffix;
    owners := owners0;
    ghost var seen: seq<string> := [];
    EnterNone(owners0, suffix);
    NothingToOrder(g, owners0, suffix);
    for n := 0 to |files|
      invariant seen == files[..n]
      invariant Entered(owners0, owners, suffix, seen)
      invariant OrderedWithClaimants(g, owners0, suffix, seen)
    {
      var f := files[n];
      var claimants := if f in owners then owners[f] else [];
      var other := CheckClaimants(g, suffix, claimants);
      if other.Some? {
        ClashFound(g, children, k, owners0, owners, seen, f, other.value);
        return Some(f), owners;
      }
      OrderedOneMore(g, owners0, owners, suffix, seen, f);
      EnterOne(owners0, owners, suffix, seen, f);
      seen := seen + [f];
      owners := owners[f := claimants + [suffix]];
    }
    assert seen == files;
    Claimed(g, children, k, owners0, owners);
    clash := None;
  }

  lemma NothingToOrder(g: Deps, owners: map<string, seq<string>>, suffix: string)
    ensures OrderedWithClaimants(g, owners, suffix, [])
  {
  }

  lemma Claimed(g: Deps, children: seq<SplitChild>, k: nat, owners0: map<string, seq<string>>,
                owners: map<string, seq<string>>)
    requires k < |children| && OwnersOk(children, k, owners0)
    requires Entered(owners0, owners, children[k].suffix, children[k].ownedFiles)
    requires OrderedWithClaimants(g, owners0, children[k].suffix, children[k].ownedFiles)
    ensures OwnersOk(children, k + 1, owners)
    ensures forall i :: 0 <= i < k ==> PairOk(g, children[i], children[k])
  {
    forall f, x ensures x in Lookup(owners, f) <==> ClaimedBy(children, k + 1, f, x) {
      assert x in Lookup(owners0, f) <==> ClaimedBy(children, k, f, x);
    }
    forall i | 0 <= i < k ensures PairOk(g, children[i], children[k]) {
      forall f | f in children[i].ownedFiles && f in children[k].ownedFiles
        ensures Ordered(g, children[i].suffix, children[k].suffix)
      {
        assert ClaimedBy(children, k, f, children[i].suffix);
        assert children[i].suffix in Lookup(owners0, f);
        assert Ordered(g, children[k].suffix, children[i].suffix);
      }
    }
  }

  method CheckChildren(g: Deps, children: seq<SplitChild>, max: int, ghost edges: seq<seq<string>>)
    returns (err: Option<SplitError>)
    requires g == PairGraph(edges)
    ensures err.None? <==> ComplexityOk(children, max) && FilesOk(g, children)
    ensures err.Some? ==> (err.value.Overlap? || err.value.TooComplex?)
                          && Real(err.value, 0, children, max, edges)
  {
    var owners: map<string, seq<string>> := map[];
    for k := 0 to |children|
      invariant OwnersOk(children, k, owners)
      invariant forall i :: 0 <= i < k ==> children[i].complexity <= max
      invariant forall i, j :: 0 <= i < j < k ==> PairOk(g, children[i], children[j])
    {
      var clash;
      clash, owners := ClaimFiles(g, children, k, owners);
      if clash.Some? {
        return Some(Overlap(clash.value));
      }
      if children[k].complexity > max {
        return Some(TooComplex(children[k].complexity));
      }
    }
    err := None;
  }

  /** Accepts exactly the splits that meet every constraint, and an error is never made up. */
  method ValidateSplitWithEdges(depth: int, children: seq<SplitChild>, max: int, edges: seq<seq<string>>)
    returns (err: Option<SplitError>)
    ensures err.None? <==> SplitOk(depth, children, max, edges)
    ensures err.Some? ==> Real(err.value, depth, children, max, edges)
  {
    if depth >= MAX_SPLIT_DEPTH {
      return Some(DepthReached);
    }
    var suffixSet, g;
    err, suffixSet := CheckSuffixes(children);
    if err.None? {
      err, g := BuildGraph(children, suffixSet, edges);
      if err.None? {
        err := CheckChildren(g, children, max, edges);
      }
    }
  }
}
