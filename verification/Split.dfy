/** A split rewrites the dependency graph in the middle of a run: the children inherit the
    parent's dependencies, and what depended on the parent depends on all children. */
module Split {
  import opened Graph
  import opened SplitValidation

  datatype PlannedStory = PlannedStory(id: string, complexity: int, dependsOn: seq<string>,
                                       ownedFiles: seq<string>, waveHint: string)

  class RunContext {
    var plannedStories: seq<PlannedStory>

    constructor (stories: seq<PlannedStory>)
      ensures plannedStories == stories
    {
      plannedStories := stories;
    }
  }

  function Ids(children: seq<SplitChild>): seq<string> {
    seq(|children|, i requires 0 <= i < |children| => children[i].id)
  }

  function Plan(children: seq<SplitChild>): seq<PlannedStory> {
    seq(|children|, i requires 0 <= i < |children| =>
      PlannedStory(children[i].id, children[i].complexity, [], children[i].ownedFiles, ""))
  }

  /** The edges a split adds. */
  predicate Added(a: string, b: string, kids: seq<string>, parentDeps: seq<string>,
                  depEdges: seq<seq<string>>, dependents: seq<string>) {
    (a in kids && b in parentDeps) || [a, b] in depEdges || (a in dependents && b in kids)
  }

  ghost predicate SplitResult(g: Deps, g': Deps, kids: seq<string>, parentDeps: seq<string>,
                              depEdges: seq<seq<string>>, dependents: seq<string>) {
    && g'.nodes == g.nodes + Elements(kids)
    && forall a, b :: Edge(g', a, b) <==> Edge(g, a, b) || Added(a, b, kids, parentDeps, depEdges, dependents)
  }

  method AddEdgesFrom(dag: DAG, from: string, tos: seq<string>)
    modifies dag
    ensures dag.nodes == old(dag.nodes)
    ensures forall a, b :: Edge(dag.View(), a, b) <==> old(Edge(dag.View(), a, b)) || (a == from && b in tos)
  {
    for i := 0 to |tos|
      invariant dag.nodes == old(dag.nodes)
      invariant forall a, b :: Edge(dag.View(), a, b) <==> old(Edge(dag.View(), a, b)) || (a == from && b in tos[..i])
    {
      dag.AddEdge(from, tos[i]);
      assert tos[..i + 1] == tos[..i] + [tos[i]];
    }
    assert tos[..|tos|] == tos;
  }

  method AddChildren(dag: DAG, rc: RunContext, children: seq<SplitChild>, parentDeps: seq<string>)
    modifies dag, rc
    ensures dag.nodes == old(dag.nodes) + Elements(Ids(children))
    ensures forall a, b :: Edge(dag.View(), a, b) <==>
                             old(Edge(dag.View(), a, b)) || (a in Ids(children) && b in parentDeps)
    ensures rc.plannedStories == old(rc.plannedStories) + Plan(children)
  {
    for i := 0 to |children|
      invariant dag.nodes == old(dag.nodes) + Elements(Ids(children[..i]))
      invariant forall a, b :: Edge(dag.View(), a, b) <==>
                                 old(Edge(dag.View(), a, b)) || (a in Ids(children[..i]) && b in parentDeps)
      invariant rc.plannedStories == old(rc.plannedStories) + Plan(children[..i])
    {
      var c := children[i];
      dag.AddNode(c.id);
      AddEdgesFrom(dag, c.id, parentDeps);
      rc.plannedStories := rc.plannedStories + [PlannedStory(c.id, c.complexity, [], c.ownedFiles, "")];
      assert Ids(children[..i + 1]) == Ids(children[..i]) + [c.id];
      assert Plan(children[..i + 1]) == Plan(children[..i]) + Plan([c]);
    }
    assert children[..|children|] == children;
  }

  method AddPairs(dag: DAG, depEdges: seq<seq<string>>)
    modifies dag
    ensures dag.nodes == old(dag.nodes)
    ensures forall a, b :: Edge(dag.View(), a, b) <==> old(Edge(dag.View(), a, b)) || [a, b] in depEdges
  {
    for i := 0 to |depEdges|
      invariant dag.nodes == old(dag.nodes)
      invariant forall a, b :: Edge(dag.View(), a, b) <==> old(Edge(dag.View(), a, b)) || [a, b] in depEdges[..i]
    {
      var e := depEdges[i];
      if |e| == 2 {
        dag.AddEdge(e[0], e[1]);
        assert e == [e[0], e[1]];
      }
      assert depEdges[..i + 1] == depEdges[..i] + [e];
    }
    assert depEdges[..|depEdges|] == depEdges;
  }

  method ApplySplit(dag: DAG, rc: RunContext, children: seq<SplitChild>, depEdges: seq<seq<string>>,
                    parentDeps: seq<string>, dependents: seq<string>)
    modifies dag, rc
    ensures SplitResult(old(dag.View()), dag.View(), Ids(children), parentDeps, depEdges, dependents)
    ensures rc.plannedStories == old(rc.plannedStories) + Plan(children)
  {
    AddChildren(dag, rc, children, parentDeps);
    AddPairs(dag, depEdges);
    ghost var g := dag.View();
    for i := 0 to |dependents|
      invariant dag.nodes == g.nodes && rc.plannedStories == old(rc.plannedStories) + Plan(children)
      invariant forall a, b :: Edge(dag.View(), a, b) <==> Edge(g, a, b) || (a in dependents[..i] && b in Ids(children))
    {
      AddEdgesFrom(dag, dependents[i], Ids(children));
      assert dependents[..i + 1] == dependents[..i] + [dependents[i]];
    }
    assert dependents[..|dependents|] == dependents;
  }

  // ----- What a split preserves -----

  /** Identifiers the graph has never seen. */
  ghost predicate Fresh(g: Deps, kids: seq<string>) {
    forall k :: k in kids ==> k !in g.nodes && forall x :: !Edge(g, k, x) && !Edge(g, x, k)
  }

  /** The arguments the split is meant to get: the parent's own dependencies, stories that
      depend on the parent, and edges between children only. */
  ghost predicate SplitOf(g: Deps, parent: string, kids: seq<string>, parentDeps: seq<string>,
                          depEdges: seq<seq<string>>, dependents: seq<string>) {
    && Fresh(g, kids) && parent !in kids
    && (forall d :: d in parentDeps ==> Edge(g, parent, d))
    && (forall x :: x in dependents ==> Edge(g, x, parent))
    && forall a, b :: [a, b] in depEdges ==> a in kids && b in kids
  }

  /** Reads a node of the new graph in the old one: a child stands for its parent. */
  function Home(n: string, kids: seq<string>, parent: string): string {
    if n in kids then parent else n
  }

  /** A new edge either stays among the children or is an old edge between homes. */
  lemma EdgeHome(g: Deps, g': Deps, parent: string, kids: seq<string>, parentDeps: seq<string>,
                 depEdges: seq<seq<string>>, dependents: seq<string>, a: string, b: string)
    requires SplitOf(g, parent, kids, parentDeps, depEdges, dependents)
    requires SplitResult(g, g', kids, parentDeps, depEdges, dependents)
    requires Edge(g', a, b)
    ensures Edge(g, Home(a, kids, parent), Home(b, kids, parent))
            || (a in kids && b in kids && Edge(PairGraph(depEdges), a, b))
  {
    PairGraphEdges(depEdges, a, b);
  }

  /** So a chain in the new graph stays among the children or is an old chain between homes. */
  lemma {:induction false} PathHome(g: Deps, g': Deps, parent: string, kids: seq<string>, parentDeps: seq<string>,
                                    depEdges: seq<seq<string>>, dependents: seq<string>, p: seq<string>)
    requires SplitOf(g, parent, kids, parentDeps, depEdges, dependents)
    requires SplitResult(g, g', kids, parentDeps, depEdges, dependents)
    requires IsPath(g', p)
    ensures Reaches(g, Home(p[0], kids, parent), Home(p[|p| - 1], kids, parent))
            || (p[0] in kids && p[|p| - 1] in kids && Reaches(PairGraph(depEdges), p[0], p[|p| - 1]))
  {
    assert Link(g', p, 0);
    EdgeHome(g, g', parent, kids, parentDeps, depEdges, dependents, p[0], p[1]);
    var a, b, c := p[0], p[1], p[|p| - 1];
    var ha, hb, hc := Home(a, kids, parent), Home(b, kids, parent), Home(c, kids, parent);
    var inner := PairGraph(depEdges);
    if Edge(g, ha, hb) {
      EdgeReaches(g, ha, hb);
    } else {
      EdgeReaches(inner, a, b);
    }
    if |p| > 2 {
      WalkTail(g', p, 1);
      PathHome(g, g', parent, kids, parentDeps, depEdges, dependents, p[1..]);
      if Reaches(g, ha, hb) && Reaches(g, hb, hc) {
        ReachesTransitive(g, ha, hb, hc);
      }
      if Reaches(inner, a, b) && Reaches(inner, b, c) {
        ReachesTransitive(inner, a, b, c);
      }
    }
  }

  lemma {:induction false} PathSurvives(g: Deps, g': Deps, p: seq<string>)
    requires forall a, b :: Edge(g, a, b) ==> Edge(g', a, b)
    requires IsPath(g, p)
    ensures IsPath(g', p)
  {
    forall i | 0 <= i < |p| - 1 ensures Link(g', p, i) {
      assert Link(g, p, i);
    }
  }

  lemma ReachSurvives(g: Deps, g': Deps, a: string, b: string)
    requires forall x, y :: Edge(g, x, y) ==> Edge(g', x, y)
    requires Reaches(g, a, b)
    ensures Reaches(g', a, b)
  {
    var p :| PathFromTo(g, p, a, b);
    PathSurvives(g, g', p);
    assert PathFromTo(g', p, a, b);
  }

  /** A split with the arguments it is meant to get keeps the graph acyclic exactly when the edges
      between the children are. */
  lemma SplitKeepsAcyclic(g: Deps, g': Deps, parent: string, kids: seq<string>, parentDeps: seq<string>,
                          depEdges: seq<seq<string>>, dependents: seq<string>)
    requires SplitOf(g, parent, kids, parentDeps, depEdges, dependents)
    requires SplitResult(g, g', kids, parentDeps, depEdges, dependents)
    requires Acyclic(g)
    ensures Acyclic(g') <==> Acyclic(PairGraph(depEdges))
  {
    var inner := PairGraph(depEdges);
    if Acyclic(inner) {
      forall a | Reaches(g', a, a) ensures false {
        var p :| PathFromTo(g', p, a, a);
        PathHome(g, g', parent, kids, parentDeps, depEdges, dependents, p);
      }
    } else {
      var a :| Reaches(inner, a, a);
      forall x, y | Edge(inner, x, y) ensures Edge(g', x, y) {
        PairGraphEdges(depEdges, x, y);
      }
      ReachSurvives(inner, g', a, a);
    }
  }

  // ----- Any arguments whatever -----

  /** One added edge, and then old dependencies, if any, up to the next place. */
  ghost predicate Hop(g: Deps, kids: seq<string>, parentDeps: seq<string>, depEdges: seq<seq<string>>,
                      dependents: seq<string>, a: string, c: string) {
    exists b :: Added(a, b, kids, parentDeps, depEdges, dependents) && (b == c || Reaches(g, b, c))
  }

  ghost predicate Hops(g: Deps, kids: seq<string>, parentDeps: seq<string>, depEdges: seq<seq<string>>,
                       dependents: seq<string>, p: seq<string>)
    requires |p| >= 2
  {
    forall i :: 0 <= i < |p| - 1 ==> Hop(g, kids, parentDeps, depEdges, dependents, p[i], p[i + 1])
  }

  ghost predicate HopsFromTo(g: Deps, kids: seq<string>, parentDeps: seq<string>, depEdges: seq<seq<string>>,
                             dependents: seq<string>, p: seq<string>, a: string, c: string) {
    |p| >= 2 && p[0] == a && p[|p| - 1] == c && Hops(g, kids, parentDeps, depEdges, dependents, p)
  }

  /** The added edges lead around: each starts where the old graph gets to from the one before. */
  ghost predicate AddsLoop(g: Deps, kids: seq<string>, parentDeps: seq<string>, depEdges: seq<seq<string>>,
                           dependents: seq<string>) {
    exists a, p :: HopsFromTo(g, kids, parentDeps, depEdges, dependents, p, a, a)
  }

  lemma HopReaches(g: Deps, g': Deps, kids: seq<string>, parentDeps: seq<string>, depEdges: seq<seq<string>>,
                   dependents: seq<string>, a: string, c: string)
    requires SplitResult(g, g', kids, parentDeps, depEdges, dependents)
    requires Hop(g, kids, parentDeps, depEdges, dependents, a, c)
    ensures Reaches(g', a, c)
  {
    hide Added;
    var b :| Added(a, b, kids, parentDeps, depEdges, dependents) && (b == c || Reaches(g, b, c));
    assert Edge(g', a, b);
    EdgeReaches(g', a, b);
    if b != c {
      ReachSurvives(g, g', b, c);
      ReachesTransitive(g', a, b, c);
    }
  }

  lemma {:induction false} HopsReach(g: Deps, g': Deps, kids: seq<string>, parentDeps: seq<string>,
                                     depEdges: seq<seq<string>>, dependents: seq<string>, p: seq<string>)
    requires SplitResult(g, g', kids, parentDeps, depEdges, dependents)
    requires |p| >= 2 && Hops(g, kids, parentDeps, depEdges, dependents, p)
    ensures Reaches(g', p[0], p[|p| - 1])
    decreases |p|
  {
    hide SplitResult, Hop;
    HopReaches(g, g', kids, parentDeps, depEdges, dependents, p[0], p[1]);
    if |p| > 2 {
      HopsReach(g, g', kids, parentDeps, depEdges, dependents, p[1..]);
      ReachesTransitive(g', p[0], p[1], p[|p| - 1]);
    }
  }

  /** From a to c along old edges up to a place x, and from there by hops. */
  ghost predicate OldThenHops(g: Deps, kids: seq<string>, parentDeps: seq<string>, depEdges: seq<seq<string>>,
                              dependents: seq<string>, a: string, c: string) {
    exists x, p :: (x == a || Reaches(g, a, x)) && HopsFromTo(g, kids, parentDeps, depEdges, dependents, p, x, c)
  }

  lemma OldStepBefore(g: Deps, kids: seq<string>, parentDeps: seq<string>, depEdges: seq<seq<string>>,
                      dependents: seq<string>, a: string, b: string, c: string)
    requires Edge(g, a, b) && OldThenHops(g, kids, parentDeps, depEdges, dependents, b, c)
    ensures OldThenHops(g, kids, parentDeps, depEdges, dependents, a, c)
  {
    hide HopsFromTo;
    var x, p :| (x == b || Reaches(g, b, x)) && HopsFromTo(g, kids, parentDeps, depEdges, dependents, p, x, c);
    EdgeReaches(g, a, b);
    if x != b {
      ReachesTransitive(g, a, b, x);
    }
  }

  lemma AddedStepBefore(g: Deps, kids: seq<string>, parentDeps: seq<string>, depEdges: seq<seq<string>>,
                        dependents: seq<string>, a: string, b: string, c: string)
    requires Added(a, b, kids, parentDeps, depEdges, dependents)
    requires b == c || Reaches(g, b, c) || OldThenHops(g, kids, parentDeps, depEdges, dependents, b, c)
    ensures OldThenHops(g, kids, parentDeps, depEdges, dependents, a, c)
  {
    hide Added;
    if b == c || Reaches(g, b, c) {
      assert Hop(g, kids, parentDeps, depEdges, dependents, a, c);
      assert HopsFromTo(g, kids, parentDeps, depEdges, dependents, [a, c], a, c);
    } else {
      var x, p :| (x == b || Reaches(g, b, x)) && HopsFromTo(g, kids, parentDeps, depEdges, dependents, p, x, c);
      assert Hop(g, kids, parentDeps, depEdges, dependents, a, x);
      HopBefore(g, kids, parentDeps, depEdges, dependents, a, p);
      assert HopsFromTo(g, kids, parentDeps, depEdges, dependents, [a] + p, a, c);
    }
  }

  lemma HopBefore(g: Deps, kids: seq<string>, parentDeps: seq<string>, depEdges: seq<seq<string>>,
                  dependents: seq<string>, a: string, p: seq<string>)
    requires |p| >= 2 && Hops(g, kids, parentDeps, depEdges, dependents, p)
    requires Hop(g, kids, parentDeps, depEdges, dependents, a, p[0])
    ensures Hops(g, kids, parentDeps, depEdges, dependents, [a] + p)
  {
    hide Hop;
    var q := [a] + p;
    forall i | 0 <= i < |q| - 1 ensures Hop(g, kids, parentDeps, depEdges, dependents, q[i], q[i + 1]) {
      if i > 0 {
        assert Hop(g, kids, parentDeps, depEdges, dependents, p[i - 1], p[i - 1 + 1]);
      }
    }
  }

  /** Every new chain is an old one or takes hops. */
  lemma {:induction false} PathTakesHops(g: Deps, g': Deps, kids: seq<string>, parentDeps: seq<string>,
                                         depEdges: seq<seq<string>>, dependents: seq<string>, p: seq<string>)
    requires SplitResult(g, g', kids, parentDeps, depEdges, dependents) && IsPath(g', p)
    ensures Reaches(g, p[0], p[|p| - 1]) || OldThenHops(g, kids, parentDeps, depEdges, dependents, p[0], p[|p| - 1])
    decreases |p|
  {
    hide Added, OldThenHops, Reaches;
    var a, b, c := p[0], p[1], p[|p| - 1];
    assert Link(g', p, 0);
    assert Edge(g', a, b);
    if |p| > 2 {
      WalkTail(g', p, 1);
      PathTakesHops(g, g', kids, parentDeps, depEdges, dependents, p[1..]);
    }
    if Edge(g, a, b) {
      EdgeReaches(g, a, b);
      if |p| > 2 {
        if Reaches(g, b, c) {
          ReachesTransitive(g, a, b, c);
        } else {
          OldStepBefore(g, kids, parentDeps, depEdges, dependents, a, b, c);
        }
      }
    } else {
      AddedStepBefore(g, kids, parentDeps, depEdges, dependents, a, b, c);
    }
  }

  /** A way back to its start by old edges and then hops closes up into hops alone. */
  lemma LoopOfHops(g: Deps, kids: seq<string>, parentDeps: seq<string>, depEdges: seq<seq<string>>,
                   dependents: seq<string>, a: string)
    requires OldThenHops(g, kids, parentDeps, depEdges, dependents, a, a)
    ensures AddsLoop(g, kids, parentDeps, depEdges, dependents)
  {
    hide Added;
    var x, p :| (x == a || Reaches(g, a, x)) && HopsFromTo(g, kids, parentDeps, depEdges, dependents, p, x, a);
    var n := |p| - 1;
    var y := p[n - 1];
    assert p[n - 1 + 1] == a && Hop(g, kids, parentDeps, depEdges, dependents, p[n - 1], p[n - 1 + 1]);
    HopFurther(g, kids, parentDeps, depEdges, dependents, y, a, x);
    var q := p[..n] + [x];
    assert Hops(g, kids, parentDeps, depEdges, dependents, q) by {
      hide Hop;
      forall i | 0 <= i < |q| - 1 ensures Hop(g, kids, parentDeps, depEdges, dependents, q[i], q[i + 1]) {
        if i < n - 1 {
          assert q[i] == p[i] && q[i + 1] == p[i + 1];
        }
      }
    }
    assert HopsFromTo(g, kids, parentDeps, depEdges, dependents, q, x, x);
  }

  lemma HopFurther(g: Deps, kids: seq<string>, parentDeps: seq<string>, depEdges: seq<seq<string>>,
                   dependents: seq<string>, y: string, a: string, x: string)
    requires Hop(g, kids, parentDeps, depEdges, dependents, y, a) && (x == a || Reaches(g, a, x))
    ensures Hop(g, kids, parentDeps, depEdges, dependents, y, x)
  {
    hide Added;
    var b :| Added(y, b, kids, parentDeps, depEdges, dependents) && (b == a || Reaches(g, b, a));
    if x != a && b != a {
      ReachesTransitive(g, b, a, x);
    }
  }

  /** Whatever identifiers, edges, dependencies and dependents are passed: an acyclic graph stays
      acyclic exactly when the added edges lead around nowhere, old dependencies in between. */
  lemma AnySplitKeepsAcyclicIff(g: Deps, g': Deps, kids: seq<string>, parentDeps: seq<string>,
                                depEdges: seq<seq<string>>, dependents: seq<string>)
    requires SplitResult(g, g', kids, parentDeps, depEdges, dependents) && Acyclic(g)
    ensures Acyclic(g') <==> !AddsLoop(g, kids, parentDeps, depEdges, dependents)
  {
    hide SplitResult, OldThenHops, Hops;
    if AddsLoop(g, kids, parentDeps, depEdges, dependents) {
      var a, p :| HopsFromTo(g, kids, parentDeps, depEdges, dependents, p, a, a);
      HopsReach(g, g', kids, parentDeps, depEdges, dependents, p);
    } else {
      forall a ensures !Reaches(g', a, a) {
        if Reaches(g', a, a) {
          var p :| PathFromTo(g', p, a, a);
          PathTakesHops(g, g', kids, parentDeps, depEdges, dependents, p);
          LoopOfHops(g, kids, parentDeps, depEdges, dependents, a);
        }
      }
    }
  }

  /** An edge between a child and a story outside closes a cycle although the given edges have none
      among themselves: here the child is to wait for a dependent of its parent. */
  lemma OutsideEdgeClosesCycle(g: Deps, g': Deps)
    requires g == Deps({"p", "d"}, map["d" := ["p"]])
    requires SplitResult(g, g', ["p-a"], [], [["p-a", "d"]], ["d"])
    ensures Acyclic(g) && Acyclic(PairGraph([["p-a", "d"]])) && !Acyclic(g')
  {
    var edges: seq<seq<string>> := [["p-a", "d"]];
    OneEdgeIsAcyclic(g, "d", "p");
    forall a, b | Edge(PairGraph(edges), a, b) ensures a == "p-a" && b == "d" {
      PairGraphEdges(edges, a, b);
    }
    OneEdgeIsAcyclic(PairGraph(edges), "p-a", "d");
    assert edges[0] in edges && ["d"][0] in ["d"] && ["p-a"][0] in ["p-a"];
    assert Edge(g', "p-a", "d") && Edge(g', "d", "p-a");
    EdgeReaches(g', "p-a", "d");
    EdgeReaches(g', "d", "p-a");
    ReachesTransitive(g', "d", "p-a", "d");
  }

  lemma OneEdgeIsAcyclic(g: Deps, a: string, b: string)
    requires a != b && forall x, y :: Edge(g, x, y) ==> x == a && y == b
    ensures Acyclic(g)
  {
    forall x ensures !Reaches(g, x, x) {
      if Reaches(g, x, x) {
        var y := ReachesSplits(g, x, x);
        if y != x {
          var z := ReachesSplits(g, y, x);
        }
      }
    }
  }

  /** Old chains survive the split. */
  lemma OldChainsSurvive(g: Deps, g': Deps, kids: seq<string>, parentDeps: seq<string>,
                         depEdges: seq<seq<string>>, dependents: seq<string>, a: string, b: string)
    requires SplitResult(g, g', kids, parentDeps, depEdges, dependents)
    requires Reaches(g, a, b)
    ensures Reaches(g', a, b)
  {
    ReachSurvives(g, g', a, b);
  }

  /** A listed dependent's dependencies are met exactly when they were before and every child is
      complete; a story the split has no edge for is not affected. */
  lemma DependentWaitsForAll(g: Deps, g': Deps, kids: seq<string>, parentDeps: seq<string>,
                             depEdges: seq<seq<string>>, dependents: seq<string>, x: string, done: set<string>)
    requires SplitResult(g, g', kids, parentDeps, depEdges, dependents)
    requires x !in kids && forall b :: [x, b] !in depEdges
    ensures x in dependents ==> (DepsMet(g', x, done) <==> DepsMet(g, x, done) && forall k :: k in kids ==> k in done)
    ensures x !in dependents ==> (DepsMet(g', x, done) <==> DepsMet(g, x, done))
  {
    assert forall d :: d in DepsOf(g', x) <==> Edge(g', x, d);
    assert forall d :: d in DepsOf(g, x) <==> Edge(g, x, d);
  }

  // ----- Which dependents the monitor actually lists -----

  function DependentsOf(stories: seq<PlannedStory>, storyID: string): seq<string> {
    if stories == [] then []
    else
      var rest, s := DependentsOf(stories[..|stories| - 1], storyID), stories[|stories| - 1];
      if storyID in s.dependsOn then rest + [s.id] else rest
  }

  lemma {:induction false} DependentsMembers(stories: seq<PlannedStory>, storyID: string, x: string)
    ensures x in DependentsOf(stories, storyID) <==>
              exists s :: s in stories && s.id == x && storyID in s.dependsOn
  {
    if stories != [] {
      var init, s := stories[..|stories| - 1], stories[|stories| - 1];
      DependentsMembers(init, storyID, x);
      assert stories == init + [s];
    }
  }

  method FindDependents(stories: seq<PlannedStory>, storyID: string) returns (deps: seq<string>)
    ensures deps == DependentsOf(stories, storyID)
  {
    deps := [];
    for i := 0 to |stories|
      invariant deps == DependentsOf(stories[..i], storyID)
    {
      var s := stories[i];
      assert stories[..i + 1] == stories[..i] + [s];
      for j := 0 to |s.dependsOn|
        invariant storyID !in s.dependsOn[..j]
        invariant deps == DependentsOf(stories[..i], storyID)
      {
        if s.dependsOn[j] == storyID {
          deps := deps + [s.id];
          break;
        }
        assert s.dependsOn[..j + 1] == s.dependsOn[..j] + [s.dependsOn[j]];
      }
      assert s.dependsOn[..|s.dependsOn|] == s.dependsOn;
    }
    assert stories[..|stories|] == stories;
  }

  /** A story that depends on the split parent waits for the children exactly when its
      planned entry lists the parent: the graph edge alone is not enough. */
  lemma WaitsIffListed(g: Deps, g': Deps, parent: string, kids: seq<string>, parentDeps: seq<string>,
                       depEdges: seq<seq<string>>, stories: seq<PlannedStory>, x: string)
    requires Fresh(g, kids) && kids != [] && Acyclic(g)
    requires SplitResult(g, g', kids, parentDeps, depEdges, DependentsOf(stories, parent))
    requires x in g.nodes && forall b :: [x, b] !in depEdges
    ensures (forall done :: x in ReadySet(g', done) ==> Elements(kids) <= done)
            <==> exists s :: s in stories && s.id == x && parent in s.dependsOn
  {
    var dependents := DependentsOf(stories, parent);
    DependentsMembers(stories, parent, x);
    assert x !in kids;
    if x in dependents {
      forall done | x in ReadySet(g', done) ensures Elements(kids) <= done {
        DependentWaitsForAll(g, g', kids, parentDeps, depEdges, dependents, x, done);
      }
    } else {
      var done := Elements(DepsOf(g, x));
      DependentWaitsForAll(g, g', kids, parentDeps, depEdges, dependents, x, done);
      if x in done {
        EdgeReaches(g, x, x);
        assert false;
      }
      assert x in ReadySet(g', done);
      assert Edge(g, x, kids[0]) <==> kids[0] in done;
      assert kids[0] in Elements(kids);
    }
  }

  /** A planned story as the store gives it back: its dependency list is gone and an empty hint has
      been filled in. Where the owned files cannot be read they are unknown. */
  function Rebuilt(s: PlannedStory, corrupt: bool): PlannedStory {
    if corrupt then s.(dependsOn := [], ownedFiles := [], waveHint := "sequential")
    else s.(dependsOn := [], waveHint := if s.waveHint == "" then "parallel" else s.waveHint)
  }

  /** `vxd resume` rebuilds the plan without dependency lists ... */
  function RebuildPlan(stories: seq<PlannedStory>, corrupt: string -> bool): seq<PlannedStory> {
    seq(|stories|, i requires 0 <= i < |stories| => Rebuilt(stories[i], corrupt(stories[i].id)))
  }

  lemma NothingListed(stories: seq<PlannedStory>, corrupt: string -> bool)
    ensures forall s :: s in RebuildPlan(stories, corrupt) ==> s.dependsOn == []
  {
    var plan := RebuildPlan(stories, corrupt);
    forall s | s in plan ensures s.dependsOn == [] {
      var i :| 0 <= i < |plan| && plan[i] == s;
      assert plan[i] == Rebuilt(stories[i], corrupt(stories[i].id));
    }
  }

  /** ... so on a resumed run no story waits for the children of a split parent. */
  lemma ResumedSplitFreesDependents(g: Deps, g': Deps, parent: string, kids: seq<string>, parentDeps: seq<string>,
                                    depEdges: seq<seq<string>>, stories: seq<PlannedStory>, corrupt: string -> bool,
                                    x: string)
    requires Fresh(g, kids) && kids != [] && Acyclic(g)
    requires SplitResult(g, g', kids, parentDeps, depEdges, DependentsOf(RebuildPlan(stories, corrupt), parent))
    requires x in g.nodes && forall b :: [x, b] !in depEdges
    ensures exists done :: x in ReadySet(g', done) && !(Elements(kids) <= done)
  {
    var plan := RebuildPlan(stories, corrupt);
    NothingListed(stories, corrupt);
    WaitsIffListed(g, g', parent, kids, parentDeps, depEdges, plan, x);
  }

  // ----- The edges the two callers pass -----

  /** The tech lead chains the children: each depends on the one before. */
  function Chain(ids: seq<string>): seq<seq<string>> {
    if |ids| < 2 then [] else Chain(ids[..|ids| - 1]) + [[ids[|ids| - 1], ids[|ids| - 2]]]
  }

  lemma {:induction false} ChainEdges(ids: seq<string>, a: string, b: string)
    ensures [a, b] in Chain(ids) <==> exists i :: 0 <= i < |ids| - 1 && Rung(ids, i, a, b)
  {
    if |ids| >= 2 {
      var init := ids[..|ids| - 1];
      ChainEdges(init, a, b);
      var last := [ids[|ids| - 1], ids[|ids| - 2]];
      assert [a, b] == last <==> Rung(ids, |ids| - 2, a, b);
      assert forall i :: 0 <= i < |init| - 1 ==> (Rung(init, i, a, b) <==> Rung(ids, i, a, b));
    }
  }

  predicate Rung(ids: seq<string>, i: nat, a: string, b: string)
    requires i < |ids| - 1
  {
    a == ids[i + 1] && b == ids[i]
  }

  /** A tech-lead split never adds a cycle. */
  lemma TechLeadChainIsAcyclic(ids: seq<string>)
    requires NoDup(ids)
    ensures Acyclic(PairGraph(Chain(ids)))
  {
    var g := PairGraph(Chain(ids));
    forall i, d | 0 <= i < |ids| && Edge(g, ids[i], d) ensures d in ids[..i] {
      PairGraphEdges(Chain(ids), ids[i], d);
      ChainEdges(ids, ids[i], d);
      var j :| 0 <= j < |ids| - 1 && Rung(ids, j, ids[i], d);
      assert j + 1 == i && ids[..i][j] == d;
    }
    forall a | Reaches(g, a, a) ensures false {
      var p :| PathFromTo(g, p, a, a);
      assert Link(g, p, 0);
      PairGraphEdges(Chain(ids), a, p[1]);
      ChainEdges(ids, a, p[1]);
      var i :| 0 <= i < |ids| - 1 && Rung(ids, i, a, p[1]);
      var j := OrderDescends(g, ids, p, i + 1);
    }
  }

  /** In a tech-lead split every two children are ordered, so any of them may share files. */
  lemma {:induction false} ChainOrdersAll(ids: seq<string>, i: nat, j: nat)
    requires i < j < |ids|
    ensures Reaches(PairGraph(Chain(ids)), ids[j], ids[i])
    decreases j - i
  {
    var g := PairGraph(Chain(ids));
    PairGraphEdges(Chain(ids), ids[j], ids[j - 1]);
    ChainEdges(ids, ids[j], ids[j - 1]);
    assert Rung(ids, j - 1, ids[j], ids[j - 1]);
    EdgeReaches(g, ids[j], ids[j - 1]);
    if i < j - 1 {
      ChainOrdersAll(ids, i, j - 1);
      ReachesTransitive(g, ids[j], ids[j - 1], ids[i]);
    }
  }

  /** The manager's edges are applied without having been validated: a split the validator
      accepts can leave two children waiting for each other. */
  lemma ManagerSplitCanDeadlock(g: Deps, g': Deps)
    requires g == Deps({"s"}, map[])
    requires SplitResult(g, g', ["s-a", "s-b"], [], [["s-a", "s-b"], ["s-b", "s-a"]], [])
    ensures SplitOk(0, [SplitChild("s-a", "a", 1, []), SplitChild("s-b", "b", 1, [])], 5, [])
    ensures forall done :: "s-a" !in done && "s-b" !in done ==> "s-a" !in ReadySet(g', done) && "s-b" !in ReadySet(g', done)
    ensures Acyclic(g) && !Acyclic(g')
  {
    var depEdges := [["s-a", "s-b"], ["s-b", "s-a"]];
    assert depEdges[0] in depEdges && depEdges[1] in depEdges;
    assert Edge(g', "s-a", "s-b") && Edge(g', "s-b", "s-a");
    EdgeReaches(g', "s-a", "s-b");
    EdgeReaches(g', "s-b", "s-a");
    ReachesTransitive(g', "s-a", "s-b", "s-a");
    forall a ensures !Reaches(g, a, a) {
      if Reaches(g, a, a) {
        var b := ReachesSplits(g, a, a);
        assert false;
      }
    }
  }
}
