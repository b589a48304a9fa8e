/** The dependency graph: an edge from a to b means "a depends on b". */
module Graph {
  import opened Strings

  datatype Deps = Deps(nodes: set<string>, edges: map<string, seq<string>>)

  const EMPTY := Deps({}, map[])

  function DepsOf(g: Deps, n: string): seq<string> {
    if n in g.edges then g.edges[n] else []
  }

  predicate Edge(g: Deps, a: string, b: string) {
    b in DepsOf(g, a)
  }

  function AfterAddEdge(g: Deps, from: string, to: string): Deps {
    g.(edges := g.edges[from := DepsOf(g, from) + [to]])
  }

  // ----- Paths and cycles -----

  ghost predicate Link(g: Deps, p: seq<string>, i: nat)
    requires i < |p| - 1
  {
    Edge(g, p[i], p[i + 1])
  }

  ghost predicate IsWalk(g: Deps, p: seq<string>) {
    forall i :: 0 <= i < |p| - 1 ==> Link(g, p, i)
  }

  ghost predicate IsPath(g: Deps, p: seq<string>) {
    |p| >= 2 && IsWalk(g, p)
  }

  lemma WalkTail(g: Deps, p: seq<string>, k: nat)
    requires IsWalk(g, p) && k <= |p|
    ensures IsWalk(g, p[k..]) && IsWalk(g, p[..k])
  {
    forall i | 0 <= i < |p[k..]| - 1 ensures Link(g, p[k..], i) {
      assert Link(g, p, k + i);
    }
    forall i | 0 <= i < |p[..k]| - 1 ensures Link(g, p[..k], i) {
      assert Link(g, p, i);
    }
  }

  lemma WalkJoin(g: Deps, p: seq<string>, q: seq<string>)
    requires IsWalk(g, p) && IsWalk(g, q)
    requires p == [] || q == [] || Edge(g, p[|p| - 1], q[0])
    ensures IsWalk(g, p + q)
  {
    forall i | 0 <= i < |p + q| - 1 ensures Link(g, p + q, i) {
      if i < |p| - 1 {
        assert Link(g, p, i);
      } else if i >= |p| {
        assert Link(g, q, i - |p|);
      }
    }
  }

  ghost predicate PathFromTo(g: Deps, p: seq<string>, a: string, b: string) {
    IsPath(g, p) && p[0] == a && p[|p| - 1] == b
  }

  /** a depends on b, directly or through others. */
  ghost predicate Reaches(g: Deps, a: string, b: string) {
    exists p :: PathFromTo(g, p, a, b)
  }

  ghost predicate Acyclic(g: Deps) {
    forall a :: !Reaches(g, a, a)
  }

  lemma EdgeReaches(g: Deps, a: string, b: string)
    requires Edge(g, a, b)
    ensures Reaches(g, a, b)
  {
    assert PathFromTo(g, [a, b], a, b);
  }

  lemma ReachesTransitive(g: Deps, a: string, b: string, c: string)
    requires Reaches(g, a, b) && Reaches(g, b, c)
    ensures Reaches(g, a, c)
  {
    var p :| PathFromTo(g, p, a, b);
    var q :| PathFromTo(g, q, b, c);
    assert Link(g, q, 0);
    WalkTail(g, q, 1);
    WalkJoin(g, p, q[1..]);
    assert PathFromTo(g, p + q[1..], a, c);
  }

  /** Every dependency chain starts with a direct dependency. */
  lemma ReachesSplits(g: Deps, a: string, c: string) returns (b: string)
    requires Reaches(g, a, c)
    ensures Edge(g, a, b) && (b == c || Reaches(g, b, c))
  {
    var p :| PathFromTo(g, p, a, c);
    b := p[1];
    assert Link(g, p, 0);
    WalkTail(g, p, 1);
    if |p| > 2 {
      assert PathFromTo(g, p[1..], b, c);
    }
  }

  ghost predicate Closed(g: Deps, s: set<string>) {
    forall a, b :: a in s && Edge(g, a, b) ==> b in s
  }

  /** A set closed under direct dependencies is closed under chains of them. */
  lemma {:induction false} ClosedUnderPaths(g: Deps, s: set<string>, p: seq<string>)
    requires Closed(g, s) && IsPath(g, p) && p[0] in s
    ensures p[|p| - 1] in s
  {
    assert Link(g, p, 0);
    WalkTail(g, p, 1);
    if |p| > 2 {
      ClosedUnderPaths(g, s, p[1..]);
    }
  }

  lemma ClosedUnderReach(g: Deps, s: set<string>, a: string, b: string)
    requires Closed(g, s) && a in s && Reaches(g, a, b)
    ensures b in s
  {
    var p :| PathFromTo(g, p, a, b);
    ClosedUnderPaths(g, s, p);
  }

  // ----- Ready nodes -----

  predicate DepsMet(g: Deps, n: string, completed: set<string>) {
    forall d :: d in DepsOf(g, n) ==> d in completed
  }

  /** The nodes a wave may draw from: incomplete, with every direct dependency complete. */
  ghost function ReadySet(g: Deps, completed: set<string>): set<string> {
    set n | n in g.nodes && n !in completed && DepsMet(g, n, completed)
  }

  /** No two ready nodes are ordered by the graph, as long as completion is closed. */
  lemma ReadyAreIndependent(g: Deps, completed: set<string>, a: string, b: string)
    requires Closed(g, completed)
    requires a in ReadySet(g, completed) && b in ReadySet(g, completed)
    ensures !Reaches(g, a, b)
  {
    if Reaches(g, a, b) {
      var d := ReachesSplits(g, a, b);
      assert d in completed;
      if d != b {
        ClosedUnderReach(g, completed, d, b);
      }
      assert false;
    }
  }

  // ----- String order -----

  predicate Leq(a: string, b: string) {
    a == [] || (b != [] && (a[0] < b[0] || (a[0] == b[0] && Leq(a[1..], b[1..]))))
  }

  lemma {:induction false} LeqTotal(a: string, b: string)
    ensures Leq(a, b) || Leq(b, a)
  {
    if a != [] && b != [] && a[0] == b[0] {
      LeqTotal(a[1..], b[1..]);
    }
  }

  lemma {:induction false} LeqTransitive(a: string, b: string, c: string)
    requires Leq(a, b) && Leq(b, c)
    ensures Leq(a, c)
  {
    if a != [] && b != [] && c != [] && a[0] == b[0] == c[0] {
      LeqTransitive(a[1..], b[1..], c[1..]);
    }
  }

  lemma {:induction false} LeqAntisymmetric(a: string, b: string)
    requires Leq(a, b) && Leq(b, a)
    ensures a == b
  {
    if a != [] && b != [] {
      LeqAntisymmetric(a[1..], b[1..]);
      assert a == [a[0]] + a[1..] && b == [b[0]] + b[1..];
    }
  }

  predicate Sorted(s: seq<string>) {
    forall i, j :: 0 <= i < j < |s| ==> Leq(s[i], s[j])
  }

  function Insert(s: seq<string>, x: string): (r: seq<string>)
    requires Sorted(s)
    ensures Sorted(r) && multiset(r) == multiset(s) + multiset{x}
    ensures forall y :: y in r <==> y == x || y in s
    ensures |r| == |s| + 1
  {
    if s == [] then [x]
    else if Leq(x, s[0]) then
      assert forall i :: 0 <= i < |s| ==> Leq(x, s[i]) by {
        forall i | 0 <= i < |s| ensures Leq(x, s[i]) {
          if i > 0 { LeqTransitive(x, s[0], s[i]); }
        }
      }
      [x] + s
    else
      assert s == [s[0]] + s[1..];
      LeqTotal(x, s[0]);
      var t := Insert(s[1..], x);
      assert forall y :: y in t ==> Leq(s[0], y);
      [s[0]] + t
  }

  /** sort.Strings */
  function SortStrings(s: seq<string>): (r: seq<string>)
    ensures Sorted(r) && multiset(r) == multiset(s)
  {
    if s == [] then [] else
      assert s == s[..|s| - 1] + [s[|s| - 1]];
      Insert(SortStrings(s[..|s| - 1]), s[|s| - 1])
  }

  predicate NoDup(s: seq<string>) {
    forall i, j :: 0 <= i < j < |s| ==> s[i] != s[j]
  }

  function Elements(s: seq<string>): set<string> {
    set x | x in s
  }

  lemma HeadIsElement(s: seq<string>)
    requires s != []
    ensures s[0] in Elements(s)
  {
  }

  /** A sorted duplicate-free list is determined by its elements. */
  lemma {:induction false} SortedListUnique(s: seq<string>, t: seq<string>)
    requires Sorted(s) && NoDup(s) && Sorted(t) && NoDup(t)
    requires Elements(s) == Elements(t)
    ensures s == t
  {
    if s == [] || t == [] {
      if s != [] {
        HeadIsElement(s);
        assert false;
      }
      if t != [] {
        HeadIsElement(t);
        assert false;
      }
    } else {
      assert s[0] in Elements(t) && t[0] in Elements(s);
      LeqTotal(s[0], t[0]);
      var i :| 0 <= i < |t| && t[i] == s[0];
      var j :| 0 <= j < |s| && s[j] == t[0];
      if s[0] != t[0] {
        LeqAntisymmetric(s[0], t[0]);
      }
      assert Elements(s[1..]) == Elements(s) - {s[0]};
      assert Elements(t[1..]) == Elements(t) - {t[0]};
      SortedListUnique(s[1..], t[1..]);
    }
  }

  // ----- Topological order -----

  /** Every edge joins registered nodes, as AddEdge asks of its callers. */
  ghost predicate Grounded(g: Deps) {
    forall a :: a in g.edges ==> a in g.nodes && forall b :: b in g.edges[a] ==> b in g.nodes
  }

  /** All nodes, once each, every node after its dependencies. */
  ghost predicate TopologicalOrder(g: Deps, order: seq<string>) {
    NoDup(order) && Elements(order) == g.nodes && DepsFirst(g, order)
  }

  ghost predicate DepsFirst(g: Deps, order: seq<string>) {
    forall i, d :: 0 <= i < |order| && Edge(g, order[i], d) ==> d in order[..i]
  }

  lemma {:induction false} OrderDescends(g: Deps, order: seq<string>, p: seq<string>, i: nat) returns (j: nat)
    requires DepsFirst(g, order) && IsPath(g, p) && i < |order| && order[i] == p[0]
    ensures j < i && order[j] == p[|p| - 1]
    decreases |p|
  {
    assert Link(g, p, 0);
    WalkTail(g, p, 1);
    j :| 0 <= j < i && order[..i][j] == p[1];
    if |p| > 2 {
      j := OrderDescends(g, order, p[1..], j);
    }
  }

  lemma OrderedIsAcyclic(g: Deps, order: seq<string>)
    requires TopologicalOrder(g, order) && Grounded(g)
    ensures Acyclic(g)
  {
    forall a | Reaches(g, a, a) ensures false {
      var p :| PathFromTo(g, p, a, a);
      assert Link(g, p, 0);
      assert a in Elements(order);
      var i :| 0 <= i < |order| && order[i] == a;
      var j := OrderDescends(g, order, p, i);
    }
  }

  predicate Within(p: seq<string>, s: set<string>) {
    forall i :: 0 <= i < |p| ==> p[i] in s
  }

  lemma {:induction false} Pigeonhole(p: seq<string>, s: set<string>)
    requires Within(p, s) && |p| > |s|
    ensures !NoDup(p)
  {
    if p != [] && NoDup(p) {
      assert Within(p[1..], s - {p[0]});
      Pigeonhole(p[1..], s - {p[0]});
    }
  }

  ghost predicate Waits(g: Deps, s: set<string>, a: string) {
    exists b :: b in s && Edge(g, a, b)
  }

  ghost predicate Stuck(g: Deps, s: set<string>) {
    forall a {:trigger Waits(g, s, a)} :: a in s ==> Waits(g, s, a)
  }

  lemma {:induction false} WalkOn(g: Deps, s: set<string>, a: string, n: nat) returns (p: seq<string>)
    requires Stuck(g, s) && a in s
    ensures |p| == n + 1 && Within(p, s) && IsWalk(g, p)
  {
    if n == 0 {
      p := [a];
    } else {
      p := WalkOn(g, s, a, n - 1);
      assert Waits(g, s, p[n - 1]);
      var b :| b in s && Edge(g, p[n - 1], b);
      WalkJoin(g, p, [b]);
      p := p + [b];
    }
  }

  lemma LoopIsPath(g: Deps, p: seq<string>, i: nat, j: nat)
    requires IsWalk(g, p) && i < j < |p| && p[i] == p[j]
    ensures Reaches(g, p[i], p[i])
  {
    WalkTail(g, p, j + 1);
    WalkTail(g, p[..j + 1], i);
    var q := p[..j + 1][i..];
    assert PathFromTo(g, q, p[i], p[i]);
  }

  lemma StuckFindsCycle(g: Deps, s: set<string>) returns (c: string)
    requires Stuck(g, s) && s != {}
    ensures c in s && Reaches(g, c, c)
  {
    var a :| a in s;
    var p := WalkOn(g, s, a, |s|);
    Pigeonhole(p, s);
    var i, j :| 0 <= i < j < |p| && p[i] == p[j];
    LoopIsPath(g, p, i, j);
    c := p[i];
  }

  /** Nodes that all wait for one another contain a cycle. */
  lemma StuckHasCycle(g: Deps, s: set<string>)
    requires Stuck(g, s) && s != {}
    ensures !Acyclic(g)
  {
    var c := StuckFindsCycle(g, s);
  }

  /** How many entries of a dependency list are still open. */
  function Open(deps: seq<string>, done: set<string>): nat {
    if deps == [] then 0
    else Open(deps[..|deps| - 1], done) + if deps[|deps| - 1] in done then 0 else 1
  }

  lemma {:induction false} OpenZero(deps: seq<string>, done: set<string>)
    ensures Open(deps, done) == 0 <==> Within(deps, done)
  {
    if deps != [] {
      OpenZero(deps[..|deps| - 1], done);
    }
  }

  lemma {:induction false} OpenAll(deps: seq<string>)
    ensures Open(deps, {}) == |deps|
  {
    if deps != [] {
      OpenAll(deps[..|deps| - 1]);
    }
  }

  lemma {:induction false} OpenAfter(deps: seq<string>, done: set<string>, v: string)
    requires v !in done
    ensures Open(deps, done + {v}) == Open(deps, done) - multiset(deps)[v]
  {
    if deps != [] {
      OpenAfter(deps[..|deps| - 1], done, v);
      assert deps == deps[..|deps| - 1] + [deps[|deps| - 1]];
    }
  }

  function Lookup(m: map<string, seq<string>>, k: string): seq<string> {
    if k in m then m[k] else []
  }

  function Degree(m: map<string, int>, k: string): int {
    if k in m then m[k] else 0
  }

  ghost function Multiplicity(reverse: map<string, seq<string>>, dep: string, node: string): nat {
    multiset(Lookup(reverse, dep))[node]
  }

  /** The table from a dependency to its dependents, with multiplicity. */
  ghost predicate Reverses(g: Deps, reverse: map<string, seq<string>>) {
    forall n, d :: Multiplicity(reverse, d, n) == multiset(DepsOf(g, n))[d]
  }

  /** The same while the nodes of `todo` have not been registered. */
  ghost predicate ReversesBut(g: Deps, reverse: map<string, seq<string>>, todo: set<string>) {
    forall n, d :: Multiplicity(reverse, d, n) == if n in todo then 0 else multiset(DepsOf(g, n))[d]
  }

  lemma ReversesNone(g: Deps)
    ensures ReversesBut(g, map[], g.edges.Keys)
  {
  }

  lemma ReverseOneMore(g: Deps, reverse: map<string, seq<string>>, reverse': map<string, seq<string>>,
                       todo: set<string>, node: string)
    requires ReversesBut(g, reverse, todo) && node in todo
    requires Registered(reverse, reverse', node, DepsOf(g, node))
    ensures ReversesBut(g, reverse', todo - {node})
  {
    hide Multiplicity;
  }

  lemma ReversesAll(g: Deps, reverse: map<string, seq<string>>)
    requires ReversesBut(g, reverse, {})
    ensures Reverses(g, reverse)
  {
    hide Multiplicity;
  }

  /** The nodes an in-degree is kept for. */
  ghost function Tracked(g: Deps): set<string> {
    g.nodes + set n | n in g.edges && g.edges[n] != []
  }

  /** Leads to a cycle, or to a dependency no in-degree is kept for. */
  ghost predicate Blocked(g: Deps, n: string) {
    exists m {:trigger Reaches(g, n, m)} :: (m == n || Reaches(g, n, m)) && (m !in Tracked(g) || Reaches(g, m, m))
  }

  /** What Kahn's algorithm can ever order. On a grounded graph without a cycle: every node. */
  ghost function Orderable(g: Deps): set<string> {
    set n | n in Tracked(g) && !Blocked(g, n)
  }

  /** How much of the order had to be there for n to be free: up to its last dependency. */
  function Freed(g: Deps, order: seq<string>, n: string): nat {
    if order == [] then 0
    else if Edge(g, n, order[|order| - 1]) then |order|
    else Freed(g, order[..|order| - 1], n)
  }

  /** Free earlier, or at the same time and first by name. */
  predicate Before(g: Deps, order: seq<string>, a: string, b: string) {
    Freed(g, order, a) < Freed(g, order, b) || (Freed(g, order, a) == Freed(g, order, b) && Leq(a, b))
  }

  ghost predicate Scheduled(g: Deps, order: seq<string>, s: seq<string>) {
    forall i, j :: 0 <= i < j < |s| ==> Before(g, order, s[i], s[j])
  }

  /** The order Kahn's algorithm comes to, whatever order the maps are walked in (KahnOrderUnique). */
  ghost predicate KahnOrder(g: Deps, order: seq<string>) {
    NoDup(order) && Elements(order) == Orderable(g) && DepsFirst(g, order) && Scheduled(g, order, order)
  }

  class DAG {
    var nodes: set<string>
    var edges: map<string, seq<string>>

    constructor ()
      ensures View() == EMPTY
    {
      nodes, edges := {}, map[];
    }

    function View(): Deps
      reads this
    {
      Deps(nodes, edges)
    }

    method AddNode(id: string)
      modifies this
      ensures View() == old(View()).(nodes := old(nodes) + {id})
    {
      nodes := nodes + {id};
    }

    method AddEdge(from: string, to: string)
      modifies this
      ensures View() == AfterAddEdge(old(View()), from, to)
    {
      edges := edges[from := (if from in edges then edges[from] else []) + [to]];
    }

    /** Whatever order the node map is walked in, the answer is the one sorted listing of
        the ready set (SortedListUnique). */
    method ReadyNodes(completed: set<string>) returns (ready: seq<string>)
      ensures Sorted(ready) && NoDup(ready) && Elements(ready) == ReadySet(View(), completed)
    {
      ready := [];
      var todo := nodes;
      while todo != {}
        invariant todo <= nodes && NoDup(ready)
        invariant Elements(ready) == ReadySet(View(), completed) - todo
      {
        var node :| node in todo;
        todo := todo - {node};
        if node in completed {
          continue;
        }
        var deps := if node in edges then edges[node] else [];
        var allDepsComplete := true;
        for i := 0 to |deps|
          invariant allDepsComplete
          invariant forall k :: 0 <= k < i ==> deps[k] in completed
        {
          if deps[i] !in completed {
            allDepsComplete := false;
            break;
          }
        }
        assert allDepsComplete <==> node in ReadySet(View(), completed);
        if allDepsComplete {
          assert Elements(ready + [node]) == Elements(ready) + {node};
          ready := ready + [node];
        }
      }
      SortKeeps(ready);
      ready := SortStrings(ready);
    }

    /** Registers one node's dependency list in the two tables. */
    method CountDeps(node: string, deps: seq<string>, inDegree: map<string, int>, reverse: map<string, seq<string>>)
      returns (inDegree': map<string, int>, reverse': map<string, seq<string>>)
      ensures inDegree' == if deps == [] then inDegree else inDegree[node := Degree(inDegree, node) + |deps|]
      ensures Registered(reverse, reverse', node, deps)
    {
      hide Registered;
      inDegree', reverse' := inDegree, reverse;
      ghost var seen := [];
      RegisterNone(reverse, node);
      for i := 0 to |deps|
        invariant seen == deps[..i]
        invariant inDegree' == if i == 0 then inDegree else inDegree[node := Degree(inDegree, node) + i]
        invariant Registered(reverse, reverse', node, seen)
      {
        RegisterOne(reverse, reverse', node, seen, deps[i]);
        reverse' := reverse'[deps[i] := Lookup(reverse', deps[i]) + [node]];
        inDegree' := inDegree'[node := Degree(inDegree', node) + 1];
        seen := seen + [deps[i]];
      }
      assert seen == deps;
    }

    method CountEdges() returns (inDegree: map<string, int>, reverse: map<string, seq<string>>)
      ensures inDegree.Keys == Tracked(View())
      ensures forall n :: n in inDegree ==> inDegree[n] == |DepsOf(View(), n)|
      ensures Reverses(View(), reverse)
    {
      hide ReversesBut, Reverses, Registered;
      inDegree := map n | n in nodes :: 0;
      reverse := map[];
      ReversesNone(View());
      var todo := edges.Keys;
      while todo != {}
        invariant todo <= edges.Keys
        invariant inDegree.Keys == nodes + set n | n in edges && n !in todo && edges[n] != []
        invariant forall n :: n in inDegree ==> inDegree[n] == if n in todo then 0 else |DepsOf(View(), n)|
        invariant ReversesBut(View(), reverse, todo)
      {
        var node :| node in todo;
        ghost var before := reverse;
        inDegree, reverse := CountDeps(node, edges[node], inDegree, reverse);
        ReverseOneMore(View(), before, reverse, todo, node);
        todo := todo - {node};
      }
      ReversesAll(View(), reverse);
    }

    /** Kahn's algorithm. It lists whatever can be ordered, and succeeds when that is as many as
        there are nodes. On a grounded graph it fails exactly when there is a cycle, and otherwise
        lists every node once, after everything it depends on. */
    method TopologicalSort() returns (r: Option<seq<string>>)
      ensures r.Some? <==> |Orderable(View())| == |nodes|
      ensures r.Some? ==> KahnOrder(View(), r.value)
      ensures Grounded(View()) ==> (r.Some? <==> Acyclic(View()))
      ensures Grounded(View()) && r.Some? ==> TopologicalOrder(View(), r.value)
    {
      var g := View();
      var inDegree, reverse := CountEdges();
      var queue := Seed(inDegree);
      FreshStart(g, inDegree, queue);
      var order;
      inDegree, order := Drain(g, inDegree, reverse, queue);
      r := if |order| != |nodes| then None else Some(order);
      DrainedIsKahnOrder(g, inDegree, order);
      CountElements(order);
      if Grounded(g) {
        Verdict(g, inDegree, order);
      }
    }

    /** Layers the nodes: each wave is exactly what is ready once the waves before it are done, and
        after the last nothing is. On a grounded graph it fails exactly when there is a cycle, and
        otherwise covers every node. */
    method Waves() returns (r: Option<seq<seq<string>>>)
      ensures r.Some? <==> |Orderable(View())| == |nodes|
      ensures r.Some? ==> ReadySet(View(), Covered(r.value)) == {}
      ensures Grounded(View()) ==> (r.Some? <==> Acyclic(View()))
      ensures r.Some? ==> Layered(View(), r.value)
      ensures Grounded(View()) && r.Some? ==> Covered(r.value) == nodes
    {
      var sorted := TopologicalSort();
      if sorted.None? {
        return None;
      }
      hide Layered, Covered, ReadySet, Sorted, NoDup, Grounded, Acyclic, TopologicalOrder, KahnOrder, Orderable, Elements;
      ghost var g := View();
      var waves: seq<seq<string>>, completed: set<string> := [], {};
      NoWaves(g);
      while |completed| < |nodes|
        invariant completed == Covered(waves) && completed <= nodes && Layered(g, waves)
        decreases |nodes - completed|
      {
        var ready := ReadyNodes(completed);
        if |ready| == 0 {
          NoneReady(g, completed, ready);
          NoElements(ready);
          break;
        }
        OneMoreWave(g, waves, ready);
        var after := MarkAll(completed, ready);
        FewerRemain(nodes, completed, after);
        waves, completed := waves + [ready], after;
      }
      WholeSet(completed, nodes);
      if |completed| >= |nodes| {
        NothingLeft(g, completed);
      }
      r := Some(waves);
    }
  }

  method MarkAll(completed0: set<string>, ready: seq<string>) returns (completed: set<string>)
    ensures completed == completed0 + Elements(ready)
  {
    completed := completed0;
    for i := 0 to |ready|
      invariant completed == completed0 + Elements(ready[..i])
    {
      assert ready[..i + 1] == ready[..i] + [ready[i]];
      completed := completed + {ready[i]};
    }
    assert ready[..|ready|] == ready;
  }

  // ----- Waves -----

  /** The nodes of all the waves. */
  function Covered(waves: seq<seq<string>>): set<string> {
    if waves == [] then {} else Covered(waves[..|waves| - 1]) + Elements(waves[|waves| - 1])
  }

  /** Every wave is the sorted listing of what is ready after the waves before it. */
  ghost predicate Layered(g: Deps, waves: seq<seq<string>>) {
    forall k :: 0 <= k < |waves| ==> IsLayer(g, waves, k)
  }

  ghost predicate IsLayer(g: Deps, waves: seq<seq<string>>, k: nat)
    requires k < |waves|
  {
    waves[k] != [] && Sorted(waves[k]) && NoDup(waves[k]) && Elements(waves[k]) == ReadySet(g, Covered(waves[..k]))
  }

  lemma OneMoreWave(g: Deps, waves: seq<seq<string>>, ready: seq<string>)
    requires Layered(g, waves) && ready != [] && Sorted(ready) && NoDup(ready)
    requires Elements(ready) == ReadySet(g, Covered(waves))
    ensures Layered(g, waves + [ready]) && Covered(waves + [ready]) == Covered(waves) + Elements(ready)
    ensures Elements(ready) <= g.nodes && Covered(waves) < Covered(waves) + Elements(ready)
  {
    HeadIsElement(ready);
    var more := waves + [ready];
    assert more[..|waves|] == waves;
    forall k | 0 <= k < |more| ensures IsLayer(g, more, k) {
      if k < |waves| {
        assert more[..k] == waves[..k] && IsLayer(g, waves, k);
      }
    }
  }

  lemma FewerRemain(all: set<string>, before: set<string>, after: set<string>)
    requires before < after <= all
    ensures |all - after| < |all - before|
  {
    assert all - before == (all - after) + (after - before);
  }

  lemma WholeSet(some: set<string>, all: set<string>)
    requires some <= all
    ensures |some| >= |all| <==> some == all
  {
    assert all == some + (all - some);
  }

  lemma SomeLeft(some: set<string>, all: set<string>)
    requires some <= all && |some| < |all|
    ensures all - some != {}
  {
    WholeSet(some, all);
    assert all == some + (all - some);
  }

  lemma NoWaves(g: Deps)
    ensures Layered(g, []) && Covered([]) == {}
  {
  }

  /** Unfinished nodes none of which is ready wait for one another. */
  lemma NoneReady(g: Deps, completed: set<string>, ready: seq<string>)
    requires ready == [] && Elements(ready) == ReadySet(g, completed) && completed <= g.nodes && |completed| < |g.nodes|
    ensures Grounded(g) ==> !Acyclic(g)
  {
    if Grounded(g) {
      var left := g.nodes - completed;
      SomeLeft(completed, g.nodes);
      forall a | a in left ensures Waits(g, left, a) {
        assert a !in ReadySet(g, completed);
        var i :| 0 <= i < |DepsOf(g, a)| && DepsOf(g, a)[i] !in completed;
        assert Edge(g, a, DepsOf(g, a)[i]);
      }
      StuckHasCycle(g, left);
    }
  }

  lemma NoElements(s: seq<string>)
    requires s == []
    ensures Elements(s) == {}
  {
  }

  lemma NothingLeft(g: Deps, completed: set<string>)
    requires completed == g.nodes
    ensures ReadySet(g, completed) == {}
  {
  }

  lemma LayerPrefix(g: Deps, waves: seq<seq<string>>, k: nat)
    requires Layered(g, waves) && k <= |waves|
    ensures Layered(g, waves[..k])
  {
    forall j | 0 <= j < k ensures IsLayer(g, waves[..k], j) {
      assert IsLayer(g, waves, j) && waves[..k][..j] == waves[..j];
    }
  }

  lemma {:induction false} LayersAreClosed(g: Deps, waves: seq<seq<string>>)
    requires Layered(g, waves)
    ensures Closed(g, Covered(waves))
  {
    if waves != [] {
      var n := |waves| - 1;
      LayerPrefix(g, waves, n);
      LayersAreClosed(g, waves[..n]);
      assert IsLayer(g, waves, n);
    }
  }

  /** The nodes of one wave can run side by side: none depends on another, however indirectly. */
  lemma WaveIsIndependent(g: Deps, waves: seq<seq<string>>, k: nat, a: string, b: string)
    requires Layered(g, waves) && k < |waves| && a in waves[k] && b in waves[k]
    ensures !Reaches(g, a, b)
  {
    assert IsLayer(g, waves, k);
    LayerPrefix(g, waves, k);
    LayersAreClosed(g, waves[..k]);
    assert a in Elements(waves[k]) && b in Elements(waves[k]);
    ReadyAreIndependent(g, Covered(waves[..k]), a, b);
  }

  /** And none is put off: a node of a later wave has a dependency in the wave right before. */
  lemma WaveIsEarliest(g: Deps, waves: seq<seq<string>>, k: nat, a: string)
    requires Layered(g, waves) && 0 < k < |waves| && a in waves[k]
    ensures exists d :: Edge(g, a, d) && d in waves[k - 1]
  {
    assert IsLayer(g, waves, k) && IsLayer(g, waves, k - 1);
    assert waves[..k][..k - 1] == waves[..k - 1];
    assert a in Elements(waves[k]);
    var earlier := Covered(waves[..k - 1]);
    assert Covered(waves[..k]) == earlier + Elements(waves[k - 1]);
    assert a !in ReadySet(g, earlier);
    var i :| 0 <= i < |DepsOf(g, a)| && DepsOf(g, a)[i] !in earlier;
    assert DepsOf(g, a)[i] in Elements(waves[k - 1]);
    assert Edge(g, a, DepsOf(g, a)[i]);
  }

  /** Exactly the nodes of in-degree 0 have been ordered or wait in the queue. */
  ghost predicate QueueOk(inDegree: map<string, int>, order: seq<string>, queue: seq<string>) {
    && NoDup(order + queue)
    && forall n :: n in order + queue <==> n in inDegree && inDegree[n] == 0
  }

  ghost predicate Progress(g: Deps, inDegree: map<string, int>, order: seq<string>, queue: seq<string>) {
    && inDegree.Keys == Tracked(g)
    && QueueOk(inDegree, order, queue)
    && DepsFirst(g, order)
    && forall n :: n in inDegree ==> inDegree[n] == Open(DepsOf(g, n), Elements(order))
  }

  lemma FreshStart(g: Deps, inDegree: map<string, int>, queue: seq<string>)
    requires inDegree.Keys == Tracked(g) && NoDup(queue) && Sorted(queue)
    requires forall n :: n in inDegree ==> inDegree[n] == |DepsOf(g, n)|
    requires forall n :: n in Elements(queue) <==> n in inDegree && inDegree[n] == 0
    ensures Progress(g, inDegree, [], queue) && Scheduled(g, [], [] + queue)
  {
    assert [] + queue == queue;
    assert Elements([]) == {};
    forall n | n in inDegree ensures inDegree[n] == Open(DepsOf(g, n), {}) {
      OpenAll(DepsOf(g, n));
    }
  }

  method Seed(inDegree: map<string, int>) returns (queue: seq<string>)
    ensures NoDup(queue) && Sorted(queue)
    ensures forall n :: n in Elements(queue) <==> n in inDegree && inDegree[n] == 0
  {
    queue := [];
    var todo := inDegree.Keys;
    while todo != {}
      invariant todo <= inDegree.Keys && NoDup(queue)
      invariant forall n :: n in queue <==> n in inDegree && n !in todo && inDegree[n] == 0
    {
      var node :| node in todo;
      todo := todo - {node};
      if inDegree[node] == 0 {
        queue := queue + [node];
      }
    }
    SortKeeps(queue);
    queue := SortStrings(queue);
  }

  lemma HeadIsNew(order: seq<string>, queue: seq<string>)
    requires NoDup(order + queue) && queue != []
    ensures queue[0] !in order && queue[0] in order + queue
  {
    assert (order + queue)[|order|] == queue[0];
    forall i | 0 <= i < |order| ensures order[i] != queue[0] {
      assert (order + queue)[i] == order[i];
    }
  }

  lemma FewerLeft(all: set<string>, before: seq<string>, order: seq<string>)
    requires |order| > 0 && order[..|order| - 1] == before
    requires order[|order| - 1] in all && order[|order| - 1] !in before
    ensures |all - Elements(order)| < |all - Elements(before)|
  {
    assert order == before + [order[|order| - 1]];
    assert all - Elements(order) == (all - Elements(before)) - {order[|order| - 1]};
  }

  lemma PrefixCount(s: seq<string>, k: nat, x: string)
    requires k <= |s|
    ensures multiset(s[..k])[x] <= multiset(s)[x]
  {
    assert s == s[..k] + s[k..];
  }

  /** A dependent met while releasing `node` still counts it as open. */
  lemma StillOpen(g: Deps, reverse: map<string, seq<string>>, done: set<string>, node: string,
                  dependents: seq<string>, k: nat)
    requires Reverses(g, reverse) && node !in done
    requires multiset(dependents) == multiset(Lookup(reverse, node)) && k < |dependents|
    ensures dependents[k] in Tracked(g)
    ensures Open(DepsOf(g, dependents[k]), done) - multiset(dependents[..k])[dependents[k]] >= 1
  {
    var x := dependents[k];
    assert dependents[..k + 1] == dependents[..k] + [x];
    PrefixCount(dependents, k + 1, x);
    assert Multiplicity(reverse, node, x) == multiset(DepsOf(g, x))[node];
    OpenAfter(DepsOf(g, x), done, node);
  }

  /** The in-degrees while `node`'s dependents, up to the k-th, have been visited. */
  ghost predicate Visited(g: Deps, inDegree: map<string, int>, done: set<string>, seen: seq<string>) {
    forall n :: n in inDegree ==> inDegree[n] == Open(DepsOf(g, n), done) - multiset(seen)[n]
  }

  lemma QueueStep(inDegree: map<string, int>, order: seq<string>, queue: seq<string>, x: string)
    requires QueueOk(inDegree, order, queue) && x in inDegree && inDegree[x] >= 1
    ensures QueueOk(inDegree[x := inDegree[x] - 1], order, if inDegree[x] == 1 then queue + [x] else queue)
  {
    assert x !in order + queue;
    assert order + (queue + [x]) == (order + queue) + [x];
  }

  ghost predicate Releasing(g: Deps, inDegree: map<string, int>, done: set<string>, seen: seq<string>,
                            order: seq<string>, queue: seq<string>) {
    inDegree.Keys == Tracked(g) && QueueOk(inDegree, order, queue) && Visited(g, inDegree, done, seen)
  }

  lemma VisitStep(g: Deps, inDegree: map<string, int>, done: set<string>, seen: seq<string>, x: string)
    requires Visited(g, inDegree, done, seen) && x in inDegree
    ensures Visited(g, inDegree[x := inDegree[x] - 1], done, seen + [x])
  {
  }

  method VisitOne(ghost g: Deps, inDegree0: map<string, int>, ghost done: set<string>, ghost seen: seq<string>,
                  ghost order: seq<string>, queue0: seq<string>, x: string)
    returns (inDegree: map<string, int>, queue: seq<string>)
    requires Releasing(g, inDegree0, done, seen, order, queue0)
    requires x in Tracked(g) && Open(DepsOf(g, x), done) - multiset(seen)[x] >= 1
    ensures Releasing(g, inDegree, done, seen + [x], order, queue)
    ensures queue == queue0 || queue == queue0 + [x]
  {
    VisitStep(g, inDegree0, done, seen, x);
    QueueStep(inDegree0, order, queue0, x);
    inDegree, queue := inDegree0[x := inDegree0[x] - 1], queue0;
    if inDegree[x] == 0 {
      queue := queue + [x];
    }
  }

  /** Some of the list, in alphabetical order. */
  ghost predicate Picked(some: seq<string>, list: seq<string>) {
    Sorted(some) && forall x :: x in some ==> x in list
  }

  lemma NonePicked()
    ensures Picked([], [])
  {
  }

  lemma PickOne(some: seq<string>, list: seq<string>, k: nat)
    requires Sorted(list) && k < |list| && Picked(some, list[..k])
    ensures Picked(some, list[..k + 1]) && Picked(some + [list[k]], list[..k + 1])
  {
    hide Leq;
    assert list[..k + 1] == list[..k] + [list[k]];
    forall x | x in some ensures Leq(x, list[k]) {
      var i :| 0 <= i < |list[..k]| && list[..k][i] == x;
      assert Leq(list[i], list[k]);
    }
    var more := some + [list[k]];
    forall i, j | 0 <= i < j < |more| ensures Leq(more[i], more[j]) {
      assert more[i] in some;
    }
  }

  method ReleaseDependents(ghost g: Deps, inDegree0: map<string, int>, ghost reverse: map<string, seq<string>>,
                           ghost done: set<string>, ghost node: string, dependents: seq<string>,
                           ghost order: seq<string>, queue0: seq<string>)
    returns (inDegree: map<string, int>, queue: seq<string>)
    requires Reverses(g, reverse) && node !in done && multiset(dependents) == multiset(Lookup(reverse, node))
    requires Releasing(g, inDegree0, done, [], order, queue0) && Sorted(dependents)
    ensures Releasing(g, inDegree, done, dependents, order, queue)
    ensures queue0 <= queue && Picked(queue[|queue0|..], dependents)
  {
    inDegree, queue := inDegree0, queue0;
    NonePicked();
    hide *;
    ghost var seen, freed := [], [];
    for k := 0 to |dependents|
      invariant seen == dependents[..k] && Releasing(g, inDegree, done, seen, order, queue)
      invariant queue == queue0 + freed && Picked(freed, seen)
    {
      StillOpen(g, reverse, done, node, dependents, k);
      inDegree, queue := VisitOne(g, inDegree, done, seen, order, queue, dependents[k]);
      PickOne(freed, dependents, k);
      if queue != queue0 + freed {
        freed := freed + [dependents[k]];
      }
      seen := seen + [dependents[k]];
      assert seen == dependents[..k + 1];
    }
    assert seen == dependents;
    assert queue[|queue0|..] == freed;
  }

  lemma MoveHead(inDegree: map<string, int>, order: seq<string>, queue: seq<string>)
    requires QueueOk(inDegree, order, queue) && queue != []
    ensures QueueOk(inDegree, order + [queue[0]], queue[1..])
    ensures queue[0] !in order && queue[0] in inDegree && inDegree[queue[0]] == 0
  {
    HeadIsNew(order, queue);
    assert (order + [queue[0]]) + queue[1..] == order + queue;
  }

  /** Orders the first queued node and gives up its hold on its dependents. */
  method Release(ghost g: Deps, inDegree0: map<string, int>, reverse: map<string, seq<string>>,
                 order0: seq<string>, queue0: seq<string>)
    returns (inDegree: map<string, int>, order: seq<string>, queue: seq<string>)
    requires queue0 != [] && Reverses(g, reverse) && Progress(g, inDegree0, order0, queue0)
    requires Scheduled(g, order0, order0 + queue0)
    ensures Progress(g, inDegree, order, queue) && Scheduled(g, order, order + queue)
    ensures |Tracked(g) - Elements(order)| < |Tracked(g) - Elements(order0)|
  {
    hide *;
    var node := queue0[0];
    order := order0 + [node];
    ReleaseStarts(g, inDegree0, order0, queue0);
    var dependents := SortStrings(Lookup(reverse, node));
    inDegree, queue := ReleaseDependents(g, inDegree0, reverse, Elements(order0), node, dependents, order, queue0[1..]);
    ReleaseEnds(g, inDegree, reverse, order0, node, dependents, queue);
    ghost var freed := queue[|queue0| - 1..];
    assert queue == queue0[1..] + freed;
    ScheduleGrows(g, inDegree0, reverse, order0, queue0, dependents, freed);
  }

  lemma ReleaseStarts(g: Deps, inDegree: map<string, int>, order: seq<string>, queue: seq<string>)
    requires Progress(g, inDegree, order, queue) && queue != []
    ensures queue[0] !in order && queue[0] !in Elements(order) && queue[0] in Tracked(g)
    ensures Releasing(g, inDegree, Elements(order), [], order + [queue[0]], queue[1..])
    ensures DepsFirst(g, order + [queue[0]])
  {
    MoveHead(inDegree, order, queue);
    OrderGrows(g, order, queue[0]);
  }

  lemma ReleaseEnds(g: Deps, inDegree: map<string, int>, reverse: map<string, seq<string>>, order0: seq<string>,
                    node: string, dependents: seq<string>, queue: seq<string>)
    requires Reverses(g, reverse) && multiset(dependents) == multiset(Lookup(reverse, node))
    requires node !in order0 && node in Tracked(g) && DepsFirst(g, order0 + [node])
    requires Releasing(g, inDegree, Elements(order0), dependents, order0 + [node], queue)
    ensures Progress(g, inDegree, order0 + [node], queue)
    ensures |Tracked(g) - Elements(order0 + [node])| < |Tracked(g) - Elements(order0)|
  {
    hide DepsFirst, QueueOk;
    Released(g, inDegree, reverse, order0, node, dependents);
    FewerLeft(Tracked(g), order0, order0 + [node]);
  }

  lemma FreedBounded(g: Deps, order: seq<string>, n: string)
    ensures Freed(g, order, n) <= |order|
  {
  }

  lemma FreedOneMore(g: Deps, order: seq<string>, x: string, n: string)
    ensures Freed(g, order + [x], n) == if Edge(g, n, x) then |order| + 1 else Freed(g, order, n)
  {
    assert (order + [x])[..|order|] == order;
  }

  /** Whatever is ordered or queued does not wait for the node at the head of the queue. */
  lemma QueuedIsFree(g: Deps, inDegree: map<string, int>, order: seq<string>, queue: seq<string>, n: string)
    requires Progress(g, inDegree, order, queue) && queue != [] && n in order + queue
    ensures !Edge(g, n, queue[0])
  {
    HeadIsNew(order, queue);
    OpenZero(DepsOf(g, n), Elements(order));
  }

  lemma DependentsHaveEdges(g: Deps, reverse: map<string, seq<string>>, node: string, dependents: seq<string>, n: string)
    requires Reverses(g, reverse) && multiset(dependents) == multiset(Lookup(reverse, node)) && n in dependents
    ensures Edge(g, n, node)
  {
    assert n in multiset(dependents);
    assert Multiplicity(reverse, node, n) > 0;
    assert multiset(DepsOf(g, n))[node] > 0;
  }

  /** The nodes set free last come last, and in alphabetical order. */
  lemma ScheduleGrows(g: Deps, inDegree: map<string, int>, reverse: map<string, seq<string>>, order: seq<string>,
                      queue: seq<string>, dependents: seq<string>, freed: seq<string>)
    requires queue != [] && Reverses(g, reverse) && Progress(g, inDegree, order, queue)
    requires Scheduled(g, order, order + queue) && Picked(freed, dependents)
    requires multiset(dependents) == multiset(Lookup(reverse, queue[0]))
    ensures Scheduled(g, order + [queue[0]], (order + [queue[0]]) + (queue[1..] + freed))
  {
    var node, placed, all := queue[0], order + queue, (order + [queue[0]]) + (queue[1..] + freed);
    assert all == placed + freed;
    forall n | n in placed ensures Freed(g, order + [node], n) == Freed(g, order, n) <= |order| {
      QueuedIsFree(g, inDegree, order, queue, n);
      FreedOneMore(g, order, node, n);
      FreedBounded(g, order, n);
    }
    forall n | n in freed ensures Freed(g, order + [node], n) == |order| + 1 {
      DependentsHaveEdges(g, reverse, node, dependents, n);
      FreedOneMore(g, order, node, n);
    }
    hide Freed, Progress, Reverses, Leq;
    forall i, j | 0 <= i < j < |all| ensures Before(g, order + [node], all[i], all[j]) {
      if j < |placed| {
        assert Before(g, order, placed[i], placed[j]) && placed[i] in placed && placed[j] in placed;
      } else {
        assert freed[j - |placed|] in freed;
        if i < |placed| {
          assert placed[i] in placed;
        } else {
          assert freed[i - |placed|] in freed;
          assert Leq(freed[i - |placed|], freed[j - |placed|]);
        }
      }
    }
  }

  method Drain(ghost g: Deps, inDegree0: map<string, int>, reverse: map<string, seq<string>>, queue0: seq<string>)
    returns (inDegree: map<string, int>, order: seq<string>)
    requires Reverses(g, reverse) && Progress(g, inDegree0, [], queue0) && Scheduled(g, [], [] + queue0)
    ensures Progress(g, inDegree, order, []) && Scheduled(g, order, order)
  {
    inDegree, order := inDegree0, [];
    var queue := queue0;
    while queue != []
      invariant Progress(g, inDegree, order, queue) && Scheduled(g, order, order + queue)
      decreases |Tracked(g) - Elements(order)|
    {
      inDegree, order, queue := Release(g, inDegree, reverse, order, queue);
    }
    assert order + [] == order;
  }

  lemma Released(g: Deps, inDegree: map<string, int>, reverse: map<string, seq<string>>, order0: seq<string>,
                 node: string, dependents: seq<string>)
    requires Reverses(g, reverse) && node !in order0
    requires multiset(dependents) == multiset(Lookup(reverse, node))
    requires Visited(g, inDegree, Elements(order0), dependents)
    ensures forall n :: n in inDegree ==> inDegree[n] == Open(DepsOf(g, n), Elements(order0 + [node]))
  {
    assert Elements(order0 + [node]) == Elements(order0) + {node};
    forall n | n in inDegree ensures inDegree[n] == Open(DepsOf(g, n), Elements(order0 + [node])) {
      OpenAfter(DepsOf(g, n), Elements(order0), node);
      assert Multiplicity(reverse, node, n) == multiset(DepsOf(g, n))[node];
    }
  }

  lemma OrderGrows(g: Deps, order: seq<string>, node: string)
    requires DepsFirst(g, order) && Open(DepsOf(g, node), Elements(order)) == 0
    ensures DepsFirst(g, order + [node])
  {
    OpenZero(DepsOf(g, node), Elements(order));
    forall i, d | 0 <= i < |order + [node]| && Edge(g, (order + [node])[i], d)
      ensures d in (order + [node])[..i]
    {
      if i < |order| {
        assert Edge(g, order[i], d) && (order + [node])[..i] == order[..i];
      } else {
        assert (order + [node])[..i] == order;
        assert d in Elements(order);
      }
    }
  }

  lemma OrderedIsClosed(g: Deps, order: seq<string>)
    requires DepsFirst(g, order)
    ensures Closed(g, Elements(order))
  {
    forall a, b | a in Elements(order) && Edge(g, a, b) ensures b in Elements(order) {
      var i :| 0 <= i < |order| && order[i] == a;
      assert Edge(g, order[i], b);
      assert b in order[..i];
    }
  }

  /** What is ordered leads to no cycle and to nothing untracked. */
  lemma OrderedIsFree(g: Deps, order: seq<string>, n: string)
    requires NoDup(order) && DepsFirst(g, order) && Elements(order) <= Tracked(g) && n in order
    ensures !Blocked(g, n)
  {
    if Blocked(g, n) {
      var m :| (m == n || Reaches(g, n, m)) && (m !in Tracked(g) || Reaches(g, m, m));
      OrderedIsClosed(g, order);
      if m != n {
        ClosedUnderReach(g, Elements(order), n, m);
      }
      assert m in Elements(order);
      NotInCycle(g, order, m);
    }
  }

  lemma NotInCycle(g: Deps, order: seq<string>, m: string)
    requires NoDup(order) && DepsFirst(g, order) && m in order
    ensures !Reaches(g, m, m)
  {
    if Reaches(g, m, m) {
      var p :| PathFromTo(g, p, m, m);
      var i :| 0 <= i < |order| && order[i] == m;
      var j := OrderDescends(g, order, p, i);
    }
  }

  /** With the queue empty, an unordered node has an unordered dependency. */
  lemma UnorderedWaits(g: Deps, inDegree: map<string, int>, order: seq<string>, a: string) returns (d: string)
    requires Progress(g, inDegree, order, []) && a in Tracked(g) && a !in order
    ensures Edge(g, a, d) && d !in order
  {
    assert order + [] == order;
    OpenZero(DepsOf(g, a), Elements(order));
    assert inDegree[a] != 0;
    var i :| 0 <= i < |DepsOf(g, a)| && DepsOf(g, a)[i] !in Elements(order);
    d := DepsOf(g, a)[i];
  }

  lemma UnorderedIsBlocked(g: Deps, inDegree: map<string, int>, order: seq<string>, n: string)
    requires Progress(g, inDegree, order, []) && n in Tracked(g) && n !in order
    ensures Blocked(g, n)
  {
    hide Progress, Reaches, Waits, Blocked, Edge, Tracked;
    if !Blocked(g, n) {
      var left := set m | m in Tracked(g) && m !in order && (m == n || Reaches(g, n, m));
      forall a | a in left ensures Waits(g, left, a) {
        var d := NextUnordered(g, inDegree, order, n, a);
        WaitsFor(g, left, a, d);
      }
      assert n in left;
      var c := StuckFindsCycle(g, left);
      LeadsToCycle(g, n, c);
    }
  }

  lemma LeadsToCycle(g: Deps, n: string, c: string)
    requires (c == n || Reaches(g, n, c)) && Reaches(g, c, c)
    ensures Blocked(g, n)
  {
    hide Reaches;
    assert c == n ==> Reaches(g, n, n);
  }

  lemma WaitsFor(g: Deps, s: set<string>, a: string, d: string)
    requires d in s && Edge(g, a, d)
    ensures Waits(g, s, a)
  {
  }

  lemma NextUnordered(g: Deps, inDegree: map<string, int>, order: seq<string>, n: string, a: string) returns (d: string)
    requires Progress(g, inDegree, order, []) && a in Tracked(g) && a !in order && (a == n || Reaches(g, n, a))
    requires !Blocked(g, n)
    ensures Edge(g, a, d) && d !in order && d in Tracked(g) && Reaches(g, n, d)
  {
    d := UnorderedWaits(g, inDegree, order, a);
    hide Progress, Reaches;
    EdgeReaches(g, a, d);
    if a != n {
      ReachesTransitive(g, n, a, d);
    }
    assert Reaches(g, n, d);
  }

  lemma DrainedIsKahnOrder(g: Deps, inDegree: map<string, int>, order: seq<string>)
    requires Progress(g, inDegree, order, []) && Scheduled(g, order, order)
    ensures KahnOrder(g, order)
  {
    hide Scheduled, Blocked;
    assert order + [] == order;
    forall n ensures n in Elements(order) <==> n in Orderable(g) {
      if n in order {
        OrderedIsFree(g, order, n);
      } else if n in Tracked(g) {
        UnorderedIsBlocked(g, inDegree, order, n);
      }
    }
  }

  lemma FirstIsOnly(s: seq<string>, k: nat, i: nat)
    requires NoDup(s) && k <= i < |s|
    ensures s[i] !in s[..k]
  {
  }

  lemma InPrefix(s: seq<string>, k: nat, i: nat)
    requires i < |s| && k <= |s|
    ensures i < k ==> s[i] in s[..k]
  {
    if i < k {
      assert s[..k][i] == s[i];
    }
  }

  /** A node whose dependencies are all there by k was free by then. */
  lemma {:induction false} FreedEarly(g: Deps, order: seq<string>, k: nat, n: string)
    requires NoDup(order) && k <= |order| && forall d :: Edge(g, n, d) ==> d in order[..k]
    ensures Freed(g, order, n) == Freed(g, order[..k], n)
    decreases |order|
  {
    if k < |order| {
      var init := order[..|order| - 1];
      assert init[..k] == order[..k];
      FirstIsOnly(order, k, |order| - 1);
      FreedEarly(g, init, k, n);
    } else {
      assert order[..k] == order;
    }
  }

  lemma NextIsSame(g: Deps, s: seq<string>, t: seq<string>, k: nat)
    requires KahnOrder(g, s) && KahnOrder(g, t) && k < |s| && k < |t| && s[..k] == t[..k]
    ensures s[k] == t[k]
  {
    var x, y := s[k], t[k];
    assert x in Elements(t) && y in Elements(s);
    var i :| 0 <= i < |t| && t[i] == x;
    var j :| 0 <= j < |s| && s[j] == y;
    if x != y {
      FirstIsOnly(s, k, k);
      FirstIsOnly(t, k, k);
      InPrefix(t, k, i);
      InPrefix(s, k, j);
      FreedEarly(g, s, k, x);
      FreedEarly(g, t, k, x);
      FreedEarly(g, s, k, y);
      FreedEarly(g, t, k, y);
      assert Before(g, s, s[k], s[j]) && Before(g, t, t[k], t[i]);
      LeqAntisymmetric(x, y);
    }
  }

  lemma {:induction false} PrefixesAgree(g: Deps, s: seq<string>, t: seq<string>, k: nat)
    requires KahnOrder(g, s) && KahnOrder(g, t) && k <= |s| && k <= |t|
    ensures s[..k] == t[..k]
  {
    if k > 0 {
      PrefixesAgree(g, s, t, k - 1);
      hide KahnOrder;
      NextIsSame(g, s, t, k - 1);
      assert s[..k] == s[..k - 1] + [s[k - 1]] && t[..k] == t[..k - 1] + [t[k - 1]];
    }
  }

  /** The graph determines the order: it does not depend on how the maps are walked. */
  lemma KahnOrderUnique(g: Deps, s: seq<string>, t: seq<string>)
    requires KahnOrder(g, s) && KahnOrder(g, t)
    ensures s == t
  {
    CountElements(s);
    CountElements(t);
    PrefixesAgree(g, s, t, |s|);
    assert s[..|s|] == s && t[..|s|] == t;
  }

  /** An edge from a node nobody registered makes up in the count for a node that is stuck: the sort
      succeeds and leaves a registered node out. */
  lemma CountHidesStuckNode(g: Deps)
    requires g == Deps({"b", "c"}, map["b" := ["gone"], "x" := ["c"]])
    ensures Orderable(g) == {"c", "x"} && |Orderable(g)| == |g.nodes| && "b" !in Orderable(g)
  {
    assert Tracked(g) == {"b", "c", "x"};
    assert Edge(g, "b", "gone");
    EdgeReaches(g, "b", "gone");
    var order := ["c", "x"];
    assert order[..1] == ["c"];
    assert DepsFirst(g, order);
    assert Elements(order) == {order[0], order[1]};
    OrderedIsFree(g, order, "c");
    OrderedIsFree(g, order, "x");
    assert |{"b", "c"}| == 2 && |{"c", "x"}| == 2;
  }

  lemma LeftoversWait(g: Deps, inDegree: map<string, int>, order: seq<string>, a: string)
    requires Grounded(g) && Progress(g, inDegree, order, []) && a in g.nodes - Elements(order)
    ensures Waits(g, g.nodes - Elements(order), a)
  {
    assert order + [] == order;
    OpenZero(DepsOf(g, a), Elements(order));
    assert inDegree[a] != 0;
    var i :| 0 <= i < |DepsOf(g, a)| && DepsOf(g, a)[i] !in Elements(order);
    assert Edge(g, a, DepsOf(g, a)[i]);
  }

  lemma OrderedNodes(g: Deps, inDegree: map<string, int>, order: seq<string>)
    requires Grounded(g) && Progress(g, inDegree, order, [])
    ensures NoDup(order) && Elements(order) <= g.nodes
  {
    assert order + [] == order;
    assert Tracked(g) == g.nodes;
  }

  lemma SameSize(s: seq<string>, all: set<string>)
    requires NoDup(s) && Elements(s) <= all
    ensures |s| == |all| <==> Elements(s) == all
    ensures |s| != |all| ==> all - Elements(s) != {}
  {
    CountElements(s);
    assert all == Elements(s) + (all - Elements(s));
    assert |all| == |s| + |all - Elements(s)|;
  }

  /** With the queue empty, the nodes left over wait for one another. */
  lemma Verdict(g: Deps, inDegree: map<string, int>, order: seq<string>)
    requires Grounded(g) && Progress(g, inDegree, order, [])
    ensures |order| == |g.nodes| <==> Acyclic(g)
    ensures |order| == |g.nodes| ==> TopologicalOrder(g, order)
  {
    OrderedNodes(g, inDegree, order);
    SameSize(order, g.nodes);
    if |order| == |g.nodes| {
      OrderedIsAcyclic(g, order);
    } else {
      var left := g.nodes - Elements(order);
      forall a | a in left ensures Waits(g, left, a) {
        LeftoversWait(g, inDegree, order, a);
      }
      StuckHasCycle(g, left);
    }
  }

  lemma {:induction false} CountElements(s: seq<string>)
    requires NoDup(s)
    ensures |Elements(s)| == |s|
  {
    if s != [] {
      var init := s[..|s| - 1];
      CountElements(init);
      assert s == init + [s[|s| - 1]];
      assert Elements(s) == Elements(init) + {s[|s| - 1]};
    }
  }

  /** reverse' is reverse with `node` entered once for every dependency in the list. */
  ghost predicate Registered(reverse: map<string, seq<string>>, reverse': map<string, seq<string>>,
                             node: string, deps: seq<string>) {
    forall n, d :: Multiplicity(reverse', d, n)
      == Multiplicity(reverse, d, n) + if n == node then multiset(deps)[d] else 0
  }

  lemma RegisterNone(reverse: map<string, seq<string>>, node: string)
    ensures Registered(reverse, reverse, node, [])
  {
  }

  lemma RegisterOne(reverse: map<string, seq<string>>, reverse': map<string, seq<string>>,
                    node: string, deps: seq<string>, dep: string)
    requires Registered(reverse, reverse', node, deps)
    ensures Registered(reverse, reverse'[dep := Lookup(reverse', dep) + [node]], node, deps + [dep])
  {
  }

  lemma SortKeeps(s: seq<string>)
    requires NoDup(s)
    ensures NoDup(SortStrings(s)) && Elements(SortStrings(s)) == Elements(s)
  {
    var t := SortStrings(s);
    SetOfMultiset(s, t);
    NoDupCounts(s);
    NoDupFromCounts(t);
  }

  lemma SetOfMultiset(s: seq<string>, t: seq<string>)
    requires multiset(s) == multiset(t)
    ensures Elements(s) == Elements(t)
  {
    forall x ensures x in s <==> x in t {
      assert x in s <==> x in multiset(s);
      assert x in t <==> x in multiset(t);
    }
  }

  lemma {:induction false} NoDupCounts(s: seq<string>)
    requires NoDup(s)
    ensures forall x :: multiset(s)[x] <= 1
  {
    if s != [] {
      var init := s[..|s| - 1];
      NoDupCounts(init);
      assert s == init + [s[|s| - 1]];
      assert s[|s| - 1] !in multiset(init);
    }
  }

  lemma NoDupFromCounts(s: seq<string>)
    requires forall x :: multiset(s)[x] <= 1
    ensures NoDup(s)
  {
    forall i, j | 0 <= i < j < |s| ensures s[i] != s[j] {
      assert s == s[..j] + s[j..];
      assert s[..j][i] in multiset(s[..j]) && s[j..][0] in multiset(s[j..]);
      assert multiset(s) == multiset(s[..j]) + multiset(s[j..]);
      assert multiset(s)[s[i]] == multiset(s[..j])[s[i]] + multiset(s[j..])[s[i]];
    }
  }
}
