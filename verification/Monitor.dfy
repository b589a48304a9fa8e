/** A monitored run as a state machine: agents finish, their post-execution pipelines settle
    the stories' statuses, and only when nothing is left running does the next wave start:
    high-tier stories are intercepted first, then the dispatcher draws from the ready nodes. */
module Monitor {
  import opened Graph
  import opened SplitValidation
  import opened Split
  import opened Dispatch

  /** What the monitor is doing: watching agents, or preparing a wave from the completed set
      and ready list read at its start, with the stories intercepted so far. */
  datatype Phase = Watching | Preparing(completed: set<string>, ready: set<string>, handled: set<string>)

  datatype State = State(
    dag: Deps,
    status: map<string, string>,
    active: set<PlannedStory>,     // agents being polled
    settling: set<PlannedStory>,   // stories in their post-execution pipeline
    phase: Phase)

  function Running(s: State): set<PlannedStory> {
    s.active + s.settling
  }

  function RunningIds(s: State): set<string> {
    set p | p in Running(s) :: p.id
  }

  /** The stories whose status counts as complete. */
  function Complete(s: State): set<string> {
    set id | id in s.status && IsStoryComplete(s.status[id])
  }

  /** Complete, and no pipeline is still at work on it. */
  function Settled(s: State): set<string> {
    Complete(s) - RunningIds(s)
  }

  // ----- Steps -----

  /** An agent is done: its story moves to review and its pipeline starts. */
  ghost predicate AgentDone(s: State, s': State, p: PlannedStory) {
    && s.phase.Watching? && p in s.active
    && s' == s.(active := s.active - {p}, settling := s.settling + {p}, status := s.status[p.id := "review"])
  }

  /** The story of an agent still being polled breaches its SLA: it is escalated and put back to draft
      while its agent works on. */
  ghost predicate Breach(s: State, s': State, p: PlannedStory) {
    && s.phase.Watching? && p in s.active
    && s' == s.(status := s.status[p.id := "draft"])
  }

  /** A pipeline moves its story to any status. */
  ghost predicate PipelineStep(s: State, s': State, p: PlannedStory, status: string) {
    && s.phase.Watching? && p in s.settling
    && s' == s.(status := s.status[p.id := status])
  }

  ghost predicate PipelineEnd(s: State, s': State, p: PlannedStory) {
    && s.phase.Watching? && p in s.settling
    && s' == s.(settling := s.settling - {p})
  }

  /** The next wave is considered only once every agent and every pipeline is finished. */
  ghost predicate BeginWave(s: State, s': State) {
    && s.phase.Watching? && s.active == {} && s.settling == {}
    && s' == s.(phase := Preparing(Complete(s), ReadySet(s.dag, Complete(s)), {}))
  }

  /** A ready tier-2+ story is handled without being split: it stays incomplete. */
  ghost predicate InterceptRetry(s: State, s': State, id: string, status: string) {
    && s.phase.Preparing? && id in s.phase.ready && id !in s.phase.handled && !IsStoryComplete(status)
    && s' == s.(status := s.status[id := status],
                phase := s.phase.(handled := s.phase.handled + {id}))
  }

  /** A ready tier-2+ story is split. Children, edges and dependents are whatever the caller
      passes; a child whose identifier the store has already keeps the status it had. */
  ghost predicate InterceptSplit(s: State, s': State, id: string, kids: seq<string>, parentDeps: seq<string>,
                                 depEdges: seq<seq<string>>, dependents: seq<string>) {
    && s.phase.Preparing? && id in s.phase.ready && id !in s.phase.handled
    && s'.phase == s.phase.(handled := s.phase.handled + {id})
    && SplitResult(s.dag, s'.dag, kids, parentDeps, depEdges, dependents)
    && s'.status == (s.status + map k | k in kids && k !in s.status :: "draft")[id := "split"]
    && s'.active == s.active && s'.settling == s.settling
  }

  /** The set the code hands to the dispatcher: completed stories and intercepted ones alike. */
  function WaveBase(s: State): set<string>
    requires s.phase.Preparing?
  {
    s.phase.completed + s.phase.handled
  }

  /** A wave: some of the stories selected from the ready nodes (a spawn may fail). When the
      dispatcher gives up halfway, the first n are assigned and none is spawned. */
  ghost predicate Dispatched(s: State, s': State, cands: seq<PlannedStory>, max: int, n: nat,
                             spawned: set<PlannedStory>) {
    var wave := Cap(Select(cands), max);
    && s.phase.Preparing?
    && (forall p :: p in cands ==> p.id in ReadySet(s.dag, WaveBase(s)) && StoryDispatchable(s.status, p.id))
    && n <= |wave| && (n < |wave| ==> spawned == {})
    && (forall p :: p in spawned ==> p in wave)
    && s'.dag == s.dag && s'.active == spawned && s'.settling == s.settling && s'.phase == Watching
    && s'.status == Assigned(s.status, wave[..n])
  }

  datatype Action =
    | Done(p: PlannedStory)
    | Overdue(p: PlannedStory)
    | Pipeline(p: PlannedStory, status: string)
    | End(p: PlannedStory)
    | Begin
    | Retry(id: string, status: string)
    | SplitUp(id: string, kids: seq<string>, parentDeps: seq<string>, depEdges: seq<seq<string>>,
              dependents: seq<string>)
    | Wave(cands: seq<PlannedStory>, max: int, n: nat, spawned: set<PlannedStory>)

  ghost predicate Next(s: State, a: Action, s': State) {
    match a
    case Done(p) => AgentDone(s, s', p)
    case Overdue(p) => Breach(s, s', p)
    case Pipeline(p, status) => PipelineStep(s, s', p, status)
    case End(p) => PipelineEnd(s, s', p)
    case Begin => BeginWave(s, s')
    case Retry(id, status) => InterceptRetry(s, s', id, status)
    case SplitUp(id, kids, deps, edges, dependents) => InterceptSplit(s, s', id, kids, deps, edges, dependents)
    case Wave(cands, max, n, spawned) => Dispatched(s, s', cands, max, n, spawned)
  }

  ghost predicate IsRun(states: seq<State>, actions: seq<Action>) {
    && |states| == |actions| + 1
    && forall i :: 0 <= i < |actions| ==> StepAt(states, actions, i)
  }

  ghost predicate StepAt(states: seq<State>, actions: seq<Action>, i: nat)
    requires |states| == |actions| + 1 && i < |actions|
  {
    Next(states[i], actions[i], states[i + 1])
  }

  lemma {:induction false} StoryMapIds(stories: seq<PlannedStory>)
    ensures forall id :: id in StoryMap(stories) ==> StoryMap(stories)[id].id == id
  {
    if stories != [] {
      StoryMapIds(stories[..|stories| - 1]);
    }
  }

  lemma {:induction false} CandidatesAreReady(ready: seq<string>, stories: seq<PlannedStory>, status: map<string, string>)
    ensures forall p :: p in Candidates(ready, StoryMap(stories), status) ==>
              p.id in ready && StoryDispatchable(status, p.id)
  {
    if ready != [] {
      var init := ready[..|ready| - 1];
      CandidatesAreReady(init, stories, status);
      StoryMapIds(stories);
      assert ready == init + [ready[|ready| - 1]];
    }
  }

  /** What DispatchWave starts from the merged set is a wave of this state machine, whether it
      gets through or gives up after n assignments. */
  lemma DispatcherMakesWaves(s: State, ready: seq<string>, stories: seq<PlannedStory>,
                             isShared: string -> bool, max: int, n: nat)
    requires s.phase.Preparing? && Elements(ready) == ReadySet(s.dag, WaveBase(s))
    ensures var cands := TagAll(Candidates(ready, StoryMap(stories), s.status), isShared);
            var wave := Cap(Select(cands), max);
            n <= |wave| ==>
              var agents := if n == |wave| then Set(wave) else {};
              Dispatched(s, State(s.dag, Assigned(s.status, wave[..n]), agents, s.settling, Watching),
                         cands, max, n, agents)
  {
    var found := Candidates(ready, StoryMap(stories), s.status);
    CandidatesAreReady(ready, stories, s.status);
    forall p | p in TagAll(found, isShared)
      ensures p.id in ReadySet(s.dag, WaveBase(s)) && StoryDispatchable(s.status, p.id)
    {
      var i :| 0 <= i < |found| && TagAll(found, isShared)[i] == p;
      assert found[i] in found && found[i].id in Elements(ready);
    }
  }

  function Set<T>(s: seq<T>): set<T> {
    set x | x in s
  }

  // ----- Safety of ownership -----

  /** No two stories own a common file, and a sequential story is alone. */
  ghost predicate ConflictFree(running: set<PlannedStory>) {
    forall a, b :: a in running && b in running && a != b ==> !Shares(a, b) && a.waveHint != SEQUENTIAL
  }

  /** While a wave is prepared nothing runs. */
  ghost predicate QuietWhilePreparing(s: State) {
    s.phase.Preparing? ==> s.active == {} && s.settling == {}
  }

  ghost predicate OwnershipSafe(s: State) {
    ConflictFree(Running(s)) && QuietWhilePreparing(s)
  }

  lemma WaveIsConflictFree(cands: seq<PlannedStory>, max: int, spawned: set<PlannedStory>)
    requires forall p :: p in spawned ==> p in Cap(Select(cands), max)
    ensures ConflictFree(spawned)
  {
    SelectFacts(cands);
    var wave := Cap(Select(cands), max);
    CapFacts(Select(cands), max);
    forall a, b | a in spawned && b in spawned && a != b ensures !Shares(a, b) && a.waveHint != SEQUENTIAL {
      var i :| 0 <= i < |wave| && wave[i] == a;
      var j :| 0 <= j < |wave| && wave[j] == b;
      SelectedAreCandidates(cands, i);
    }
  }

  lemma SelectedAreCandidates(cands: seq<PlannedStory>, i: nat)
    requires i < |Select(cands)|
    ensures Select(cands)[i] in cands
  {
    SelectFacts(cands);
    var at: seq<nat> :| Embeds(Select(cands), cands, at);
    assert cands[at[i]] == Select(cands)[i];
  }

  /** On every run from a conflict-free start, no two running stories own a common file, and
      a sequential story runs alone. */
  lemma {:induction false} OwnershipIsSafe(states: seq<State>, actions: seq<Action>)
    requires IsRun(states, actions) && OwnershipSafe(states[0])
    ensures forall i :: 0 <= i < |states| ==> OwnershipSafe(states[i])
  {
    if actions != [] {
      var n := |actions| - 1;
      RunPrefix(states, actions);
      OwnershipIsSafe(states[..n + 1], actions[..n]);
      assert states[..n + 1][n] == states[n];
      assert StepAt(states, actions, n);
      OwnershipStep(states[n], actions[n], states[n + 1]);
      forall i | 0 <= i < |states| ensures OwnershipSafe(states[i]) {
        assert i <= n ==> states[..n + 1][i] == states[i];
      }
    }
  }

  lemma RunPrefix(states: seq<State>, actions: seq<Action>)
    requires IsRun(states, actions) && actions != []
    ensures IsRun(states[..|actions|], actions[..|actions| - 1])
  {
    var ss, aa := states[..|actions|], actions[..|actions| - 1];
    forall i | 0 <= i < |aa| ensures StepAt(ss, aa, i) {
      assert StepAt(states, actions, i);
    }
  }

  lemma OwnershipStep(s: State, a: Action, s': State)
    requires Next(s, a, s') && OwnershipSafe(s)
    ensures OwnershipSafe(s')
  {
    match a
    case Done(p) =>
      assert Running(s') == Running(s);
    case End(p) =>
      assert Running(s') <= Running(s);
    case Wave(cands, max, n, spawned) =>
      WaveIsConflictFree(cands, max, spawned);
      assert Running(s') == spawned;
    case _ =>
      assert Running(s') == Running(s);
  }

  // ----- Safety of dependencies -----

  /** A dependent of a handled but unfinished story waits for something else as well. */
  ghost predicate StillWaits(s: State, n: string)
    requires s.phase.Preparing?
  {
    exists d :: Edge(s.dag, n, d) && d !in WaveBase(s)
  }

  /** What must hold before a wave for the merged set to be harmless. */
  ghost predicate HandledBlocksDependents(s: State)
    requires s.phase.Preparing?
  {
    forall n, h :: n in s.dag.nodes && n !in WaveBase(s) && h in s.phase.handled && h !in Complete(s) && Edge(s.dag, n, h)
      ==> StillWaits(s, n)
  }

  ghost predicate Bracketed(s: State)
    requires s.phase.Preparing?
  {
    s.phase.completed <= Complete(s) <= WaveBase(s)
  }

  /** Every story the dispatcher may draw has its dependencies complete exactly when the
      handled stories' dependents are all blocked by something else. */
  lemma WaveIsSoundIff(s: State)
    requires s.phase.Preparing? && Bracketed(s)
    ensures (forall n :: n in ReadySet(s.dag, WaveBase(s)) ==> DepsMet(s.dag, n, Complete(s)))
            <==> HandledBlocksDependents(s)
  {
    if HandledBlocksDependents(s) {
      forall n | n in ReadySet(s.dag, WaveBase(s)) ensures DepsMet(s.dag, n, Complete(s)) {
        forall d | Edge(s.dag, n, d) ensures d in Complete(s) {
          assert d in WaveBase(s);
          assert !StillWaits(s, n);
        }
      }
    } else {
      var n, h :| n in s.dag.nodes && n !in WaveBase(s) && h in s.phase.handled && h !in Complete(s)
                  && Edge(s.dag, n, h) && !StillWaits(s, n);
      assert forall d :: Edge(s.dag, n, d) ==> d in WaveBase(s);
      assert n in ReadySet(s.dag, WaveBase(s)) && h in DepsOf(s.dag, n);
    }
  }

  /** The failing family: handling a story without completing it releases whatever waits for
      that story alone. */
  lemma InterceptionReleasesDependents(s: State, h: string, n: string)
    requires s.phase.Preparing? && h in s.phase.handled && h !in Complete(s)
    requires n in s.dag.nodes && n !in WaveBase(s) && DepsOf(s.dag, n) == [h]
    ensures n in ReadySet(s.dag, WaveBase(s)) && !DepsMet(s.dag, n, Complete(s))
  {
  }

  ghost predicate PreparingOk(s: State) {
    s.phase.Preparing? ==>
      && s.active == {} && s.settling == {}
      && Bracketed(s)
      && s.phase.ready <= s.dag.nodes && s.phase.ready !! s.phase.completed && s.phase.handled <= s.phase.ready
  }

  /** Completion is closed under dependencies, and whatever runs has its dependencies done. */
  ghost predicate DependencySafe(s: State) {
    && Closed(s.dag, Settled(s))
    && (forall p :: p in Running(s) ==> DepsMet(s.dag, p.id, Settled(s)))
    && PreparingOk(s)
  }

  // ----- Splits that keep dependencies safe -----

  /** The story being split waits for nothing unfinished, and no added edge makes it, or a completed
      story, do so. */
  ghost predicate SplitHarmless(s: State, id: string, kids: seq<string>, parentDeps: seq<string>,
                                depEdges: seq<seq<string>>, dependents: seq<string>)
    requires s.phase.Preparing?
  {
    && DepsMet(s.dag, id, Complete(s) + {id})
    && forall a, b :: Added(a, b, kids, parentDeps, depEdges, dependents) && a in Complete(s) + {id} ==> b in Complete(s) + {id}
  }

  /** The split story counts as complete, and no child does that did not before. */
  lemma SplitCompletes(s: State, s': State, id: string, kids: seq<string>, parentDeps: seq<string>,
                       depEdges: seq<seq<string>>, dependents: seq<string>)
    requires InterceptSplit(s, s', id, kids, parentDeps, depEdges, dependents) && DependencySafe(s)
    ensures Complete(s') == Complete(s) + {id} && Settled(s') == Complete(s') && Settled(s) == Complete(s)
    ensures Running(s') == {}
  {
    hide SplitResult, DepsMet, Closed;
    forall x ensures x in Complete(s') <==> x in Complete(s) + {id} {
      if x in s'.status && x !in s.status && x != id {
        assert s'.status[x] == "draft";
      }
    }
    assert RunningIds(s) == {} && RunningIds(s') == {};
  }

  lemma HarmlessStep(s: State, s': State, id: string, kids: seq<string>, parentDeps: seq<string>,
                     depEdges: seq<seq<string>>, dependents: seq<string>)
    requires InterceptSplit(s, s', id, kids, parentDeps, depEdges, dependents) && DependencySafe(s)
    requires SplitHarmless(s, id, kids, parentDeps, depEdges, dependents)
    ensures DependencySafe(s')
  {
    hide Added;
    SplitCompletes(s, s', id, kids, parentDeps, depEdges, dependents);
    forall a, b | a in Complete(s') && Edge(s'.dag, a, b) ensures b in Complete(s') {
      if Edge(s.dag, a, b) && a == id {
        assert b in DepsOf(s.dag, id);
      }
    }
  }

  lemma HarmfulStep(s: State, s': State, id: string, kids: seq<string>, parentDeps: seq<string>,
                    depEdges: seq<seq<string>>, dependents: seq<string>, a: string, b: string)
    requires InterceptSplit(s, s', id, kids, parentDeps, depEdges, dependents) && DependencySafe(s)
    requires Added(a, b, kids, parentDeps, depEdges, dependents) || (a == id && Edge(s.dag, a, b))
    requires a in Complete(s) + {id} && b !in Complete(s) + {id}
    ensures !Closed(s'.dag, Settled(s'))
  {
    hide Added;
    SplitCompletes(s, s', id, kids, parentDeps, depEdges, dependents);
    assert Edge(s'.dag, a, b);
  }

  /** Whatever a split is given: completion stays closed under dependencies, and running stories keep
      theirs, exactly when the split is harmless. */
  lemma SplitIsSafeIff(s: State, s': State, id: string, kids: seq<string>, parentDeps: seq<string>,
                       depEdges: seq<seq<string>>, dependents: seq<string>)
    requires InterceptSplit(s, s', id, kids, parentDeps, depEdges, dependents) && DependencySafe(s)
    ensures SplitHarmless(s, id, kids, parentDeps, depEdges, dependents)
            <==> Closed(s'.dag, Settled(s')) && forall p :: p in Running(s') ==> DepsMet(s'.dag, p.id, Settled(s'))
    ensures SplitHarmless(s, id, kids, parentDeps, depEdges, dependents) <==> DependencySafe(s')
  {
    assert s.phase.Preparing?;
    if SplitHarmless(s, id, kids, parentDeps, depEdges, dependents) {
      HarmlessStep(s, s', id, kids, parentDeps, depEdges, dependents);
    } else if !DepsMet(s.dag, id, Complete(s) + {id}) {
      var b :| b in DepsOf(s.dag, id) && b !in Complete(s) + {id};
      HarmfulStep(s, s', id, kids, parentDeps, depEdges, dependents, id, b);
    } else {
      var a, b :| Added(a, b, kids, parentDeps, depEdges, dependents)
                  && a in Complete(s) + {id} && b !in Complete(s) + {id};
      HarmfulStep(s, s', id, kids, parentDeps, depEdges, dependents, a, b);
    }
  }

  /** A split with the arguments it is meant to get, of a story whose dependencies are complete and
      into children none of which is, is harmless. */
  lemma MeantSplitIsHarmless(s: State, id: string, kids: seq<string>, parentDeps: seq<string>,
                             depEdges: seq<seq<string>>, dependents: seq<string>)
    requires DependencySafe(s) && s.phase.Preparing? && id in s.phase.ready && id !in s.phase.handled
    requires DepsMet(s.dag, id, Complete(s))
    requires SplitOf(s.dag, id, kids, parentDeps, depEdges, dependents)
    requires forall k :: k in kids ==> k !in Complete(s)
    ensures SplitHarmless(s, id, kids, parentDeps, depEdges, dependents)
  {
    assert Settled(s) == Complete(s) && id !in s.phase.completed && id !in Complete(s);
    forall a, b | Added(a, b, kids, parentDeps, depEdges, dependents) ensures a !in Complete(s) + {id} {
      if a in dependents && b in kids {
        assert Edge(s.dag, a, id) && id in DepsOf(s.dag, a);
      }
    }
  }

  /** The failing input: a manager's edge that makes a merged story depend on a new child. */
  lemma EdgeFromMergedStory(s: State, s': State)
    requires s == State(Deps({"x", "p"}, map[]), map["x" := "merged", "p" := "draft"], {}, {},
                        Preparing({"x"}, {"p"}, {}))
    requires InterceptSplit(s, s', "p", ["p-a"], [], [["x", "p-a"]], [])
    ensures DependencySafe(s) && !DependencySafe(s')
  {
    assert Complete(s) == {"x"};
    var edges: seq<seq<string>> := [["x", "p-a"]];
    assert edges[0] in edges;
    assert Added("x", "p-a", ["p-a"], [], edges, []);
    SplitIsSafeIff(s, s', "p", ["p-a"], [], edges, []);
  }

  /** What a run needs: before a wave the merged set is harmless, and so are a split's edges. */
  ghost predicate SoundStep(s: State, a: Action) {
    match a
    case Wave(_, _, _, _) => s.phase.Preparing? ==> HandledBlocksDependents(s)
    case SplitUp(id, kids, deps, edges, dependents) =>
      s.phase.Preparing? ==> SplitHarmless(s, id, kids, deps, edges, dependents)
    case _ => true
  }

  lemma {:induction false} AssignedStatus(status: map<string, string>, stories: seq<PlannedStory>, id: string)
    ensures id in Assigned(status, stories) <==> id in status || exists p :: p in stories && p.id == id
    ensures (exists p :: p in stories && p.id == id) ==> Assigned(status, stories)[id] == "assigned"
    ensures !(exists p :: p in stories && p.id == id) && id in status ==> Assigned(status, stories)[id] == status[id]
  {
    if stories != [] {
      var init, last := stories[..|stories| - 1], stories[|stories| - 1];
      AssignedStatus(status, init, id);
      assert stories == init + [last];
    }
  }

  lemma WaveStep(s: State, s': State, cands: seq<PlannedStory>, max: int, n: nat, spawned: set<PlannedStory>)
    requires Dispatched(s, s', cands, max, n, spawned) && DependencySafe(s) && HandledBlocksDependents(s)
    ensures DependencySafe(s')
  {
    var wave := Cap(Select(cands), max);
    assert Settled(s) == Complete(s);
    WaveIsSoundIff(s);
    forall p | p in wave
      ensures DepsMet(s.dag, p.id, Complete(s)) && StoryDispatchable(s.status, p.id)
    {
      var i :| 0 <= i < |wave| && wave[i] == p;
      SelectedAreCandidates(cands, i);
    }
    forall id ensures id in Complete(s') <==> id in Complete(s) {
      AssignedStatus(s.status, wave[..n], id);
    }
    assert Running(s') == spawned;
    assert Settled(s') == Complete(s) by {
      forall id | id in RunningIds(s') ensures id !in Complete(s) {
        var p :| p in Running(s') && p.id == id;
        assert p in wave;
      }
    }
  }

  lemma DependencyStep(s: State, a: Action, s': State)
    requires Next(s, a, s') && DependencySafe(s) && SoundStep(s, a)
    ensures DependencySafe(s')
  {
    match a
    case Done(p) =>
      assert Running(s') == Running(s);
    case Overdue(p) =>
      assert Running(s') == Running(s);
    case Pipeline(p, status) =>
      assert Running(s') == Running(s);
    case End(p) =>
    case Begin =>
      assert Running(s) == {} && Settled(s') == Settled(s) == Complete(s);
    case Retry(id, status) =>
    case SplitUp(id, kids, deps, edges, dependents) =>
      HarmlessStep(s, s', id, kids, deps, edges, dependents);
    case Wave(cands, max, n, spawned) =>
      WaveStep(s, s', cands, max, n, spawned);
  }

  ghost predicate SoundSteps(states: seq<State>, actions: seq<Action>)
    requires |states| == |actions| + 1
  {
    forall i :: 0 <= i < |actions| ==> SoundStep(states[i], actions[i])
  }

  /** On every run whose waves and splits are sound, the completed stories stay closed under
      dependencies and a story runs only with its direct dependencies complete. */
  lemma {:induction false} DependenciesAreSafe(states: seq<State>, actions: seq<Action>)
    requires IsRun(states, actions) && DependencySafe(states[0]) && SoundSteps(states, actions)
    ensures forall i :: 0 <= i < |states| ==> DependencySafe(states[i])
  {
    if actions != [] {
      var n := |actions| - 1;
      RunPrefix(states, actions);
      DependenciesAreSafe(states[..n + 1], actions[..n]);
      assert states[..n + 1][n] == states[n];
      assert StepAt(states, actions, n);
      DependencyStep(states[n], actions[n], states[n + 1]);
      forall i | 0 <= i < |states| ensures DependencySafe(states[i]) {
        assert i <= n ==> states[..n + 1][i] == states[i];
      }
    }
  }

  /** Hence whatever runs has everything it transitively depends on complete, and no two
      running stories are ordered by the graph. */
  lemma RunningStoriesAreIndependent(s: State, p: PlannedStory, id: string)
    requires DependencySafe(s) && p in Running(s) && Reaches(s.dag, p.id, id)
    ensures id in Complete(s) && id !in RunningIds(s)
  {
    var d := ReachesSplits(s.dag, p.id, id);
    if d != id {
      ClosedUnderReach(s.dag, Settled(s), d, id);
    }
  }

  // ----- The merged set does harm: a complete run -----

  const LATE := PlannedStory("b", 1, [], [], PARALLEL)
  const A_BEFORE_B := Deps({"a", "b"}, map["b" := ["a"]])
  const DRAFTS := map["a" := "draft", "b" := "draft"]

  /** a is sent back for a retry while b, which depends on a, runs and merges. */
  function Stages(): seq<State> {
    [State(A_BEFORE_B, DRAFTS, {}, {}, Watching),
     State(A_BEFORE_B, DRAFTS, {}, {}, Preparing({}, {"a"}, {})),
     State(A_BEFORE_B, DRAFTS, {}, {}, Preparing({}, {"a"}, {"a"})),
     State(A_BEFORE_B, DRAFTS["b" := "assigned"], {LATE}, {}, Watching),
     State(A_BEFORE_B, DRAFTS["b" := "review"], {}, {LATE}, Watching),
     State(A_BEFORE_B, DRAFTS["b" := "merged"], {}, {LATE}, Watching),
     State(A_BEFORE_B, DRAFTS["b" := "merged"], {}, {}, Watching)]
  }

  function Actions(): seq<Action> {
    [Begin, Retry("a", "draft"), Wave([LATE], 0, 1, {LATE}), Done(LATE), Pipeline(LATE, "merged"), End(LATE)]
  }

  lemma ReadyInG()
    ensures ReadySet(A_BEFORE_B, {}) == {"a"} && ReadySet(A_BEFORE_B, {"a"}) == {"b"}
  {
  }

  lemma EarlySteps()
    ensures StepAt(Stages(), Actions(), 0) && StepAt(Stages(), Actions(), 1)
  {
    ReadyInG();
    assert Complete(Stages()[0]) == {};
    var none: set<string> := {};
    assert DRAFTS["a" := "draft"] == DRAFTS && none + {"a"} == {"a"};
  }

  lemma WaveHappens()
    ensures StepAt(Stages(), Actions(), 2)
  {
    ReadyInG();
    SelectOne(LATE);
    AssignOne(DRAFTS, LATE);
    assert [LATE][..1] == [LATE];
    assert WaveBase(Stages()[2]) == {"a"};
  }

  lemma LateSteps()
    ensures StepAt(Stages(), Actions(), 3) && StepAt(Stages(), Actions(), 4) && StepAt(Stages(), Actions(), 5)
  {
    assert DRAFTS["b" := "assigned"]["b" := "review"] == DRAFTS["b" := "review"];
    assert DRAFTS["b" := "review"]["b" := "merged"] == DRAFTS["b" := "merged"];
  }

  lemma StartIsSafe()
    ensures DependencySafe(Stages()[0]) && OwnershipSafe(Stages()[0])
  {
    assert Complete(Stages()[0]) == {};
  }

  /** A dependent runs and merges ahead of the story it depends on. */
  lemma DependentMergesFirst()
    ensures IsRun(Stages(), Actions()) && DependencySafe(Stages()[0])
    ensures Edge(A_BEFORE_B, "b", "a") && "b" in Settled(Stages()[6]) && "a" !in Settled(Stages()[6])
  {
    StartIsSafe();
    EarlySteps();
    WaveHappens();
    LateSteps();
    forall i | 0 <= i < 6 ensures StepAt(Stages(), Actions(), i) {
      assert i == 0 || i == 1 || i == 2 || i == 3 || i == 4 || i == 5;
    }
  }

  lemma SelectOne(p: PlannedStory)
    requires p.waveHint == PARALLEL
    ensures Select([p]) == [p]
  {
    assert [p][..0] == [];
    HintOne(p, true);
    HintOne(p, false);
    assert Keep([]) == [] && !Clashes(p, []);
    assert Keep([p]) == [p];
  }

  lemma HintOne(p: PlannedStory, sequential: bool)
    ensures Hinted([p], sequential) == if (p.waveHint == SEQUENTIAL) == sequential then [p] else []
  {
    hide Keep, Select;
    assert [p][..0] == [];
    assert Hinted([], sequential) == [];
  }

  lemma AssignOne(status: map<string, string>, p: PlannedStory)
    ensures Assigned(status, [p]) == status[p.id := "assigned"]
  {
    assert [p][..0] == [];
  }
}
