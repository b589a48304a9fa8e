# VXD: verified models of the orchestrator's core

VXD turns a requirement into a graph of stories, starts them in waves, escalates the ones that fail,
merges the results and certifies the composed mainline. This project models the parts of it that carry
state, branching and loops, in Dafny, and proves what they are for. `dafny verify dfyconfig.toml` checks
all of it.

| file | what it models |
|---|---|
| `Graph.dfy` | the dependency graph: ready nodes, topological sort, waves |
| `SplitValidation.dfy`, `Split.dfy` | the checks on a story split, and the split that rewrites the graph during a run |
| `Escalation.dfy` | the escalation ladder recomputed from an event log, and how long a climb takes |
| `Dispatch.dfy` | one wave: tagging, file-conflict filter, concurrency cap, assignment |
| `Monitor.dfy` | a monitored run as a state machine over graph, statuses, running stories and wave preparation |
| `GoTestStream.dfy` | the `go test -json` parser, a fold over events of packages that run in parallel |
| `CompletionGate.dfy`, `Resume.dfy` | the verify/fix loop in front of "requirement completed", and the resume command around it |
| `Rebase.dfy`, `JsonMerge.dfy`, `UnionMerge.dfy` | the conflict resolver: the rebase state machine and its two deterministic merges |
| `JsonText.dfy`, `ExtractJson.dfy` | the grammar of RFC 8259 as printed syntax trees, and the scanner that finds a value in a model's reply |
| `Doublestar.dfy`, `Experiment.dfy` | the path filter of an experiment, its lifecycle, the shared counters and the hypothesis bank |
| `Criteria.dfy` | acceptance criteria: cutting a text into items, printing and reading back |
| `DevDb.dfy` | names of development databases and the recovery of orphans |
| `Strings.dfy`, `Fences.dfy` | ASCII versions of the Go string helpers the rest relies on, and code fences in a model's reply |

How the source is represented: objects whose methods update fields are classes with those fields; loops
are loops, proved against recursive functions or predicates; pure code is functions. Git, the file system,
agents, models, the metric, the judge, database providers and the clock are oracles that may answer
anything the code distinguishes (`:= *` in a method, a parameter in a function). A store that only logs
its failures may fail silently in the model as well.

## Where the code and its promises part

Each of these is a lemma with the exact condition, or a concrete input.

- Stories intercepted before a wave are added to the completed set, although the comment above says they
  must not be: a wave is sound exactly when every dependent of an unfinished intercepted story waits for
  something else too (`Monitor.WaveIsSoundIff`), and there is a run in which a dependent merges before the
  story it depends on (`Monitor.DependentMergesFirst`).
- A split during a run is applied with whatever identifiers and edges the model's reply holds. Completion
  stays closed under dependencies exactly when the split story waits for nothing unfinished and no added
  edge makes it, or a completed story, do so (`Monitor.SplitIsSafeIff`); an edge from a merged story to a
  new child breaks it (`Monitor.EdgeFromMergedStory`). The safety theorem over runs
  (`Monitor.DependenciesAreSafe`) has both conditions, on waves and on splits, as its hypothesis.
- A story that depends on a split parent waits for the children exactly when its planned entry lists the
  parent (`Split.WaitsIffListed`); on a resumed run no entry does (`Split.ResumedSplitFreesDependents`).
- A story without a hint that owns a shared file is tagged to run alone, but the store fills empty hints in:
  a resumed plan is never tagged (`Dispatch.ResumedPlanIsNotTagged`), and exactly such stories lose their
  tag (`Dispatch.ResumeKeepsTagIff`).
- The split validator says nothing about cycles, and the manager's edges are not the ones validated: an
  accepted split can leave two children waiting for each other (`Split.ManagerSplitCanDeadlock`). A split
  keeps an acyclic graph acyclic exactly when its edges, old dependencies in between, lead around nowhere
  (`Split.AnySplitKeepsAcyclicIff`). For the arguments it is meant to get (fresh children, the parent's own
  dependencies and dependents, edges between children only) that is the case exactly when the edges
  between the children are acyclic (`Split.SplitKeepsAcyclic`); with an edge to a story outside, acyclic
  edges are not enough (`Split.OutsideEdgeClosesCycle`).
- The topological sort compares counts: an edge from a node nobody registered can make up for a registered
  node that is stuck, and the sort succeeds without it (`Graph.CountHidesStuckNode`). It succeeds exactly
  when as many nodes can be ordered as are registered (`Graph.DAG.TopologicalSort`).
- The manager's retry at a lower tier never lowers the tier (`Escalation.ManagerRetryNeverLowers`), and any
  number of retries leaves a single failure on record: where a tier allows more than one, retries alone
  never use it up (`Escalation.ManagerRetriesKeepOne`). Routing does not notice resets
  (`Escalation.RoutingAgreesIff`, `Escalation.ResetDoesNotReroute`).
- An attempt that leaves a red verdict of review or QA on the log counts twice on the ladder: the verdict is
  one failure event, and sending the story back to draft is another, also when projecting the verdict
  failed. Any other failed attempt counts once (`Escalation.JudgedClimbs`, `Escalation.MonitorFailureCounts`).
  When attempts pause the requirement is exact, whatever moves the ladder in between
  (`Escalation.FailClimbs`), and in closed form when nothing does (`Escalation.PausesIffExhausts`,
  `Escalation.PausesAfterTotal`).
- The JSON scanner tries one kind of bracket only (`ExtractJson.OtherKindIsNotTried`,
  `ExtractJson.ObjectBehindBracketIsMissed`).
- `**` followed by a tail also matches where the tail fits an end of the path that starts in the middle of
  a segment (`Doublestar.ExtraTails`); never when the tail starts with a star
  (`Doublestar.StarredTailHasNoExtra`). For a literal `p`, `p/**/s` also lets through `p` itself when it ends
  in `s`, and the paths below `p` that end in `s` in the middle of a segment only, and nothing else too many
  (`Doublestar.ExtraBetween`, `Doublestar.OverlapIsAccepted`).
- Printed criteria are not read back when a list of several lines has come down to a single item of more
  than one sentence (`Criteria.ReadsBackIff`, `Criteria.CollapsedListIsCut`).
- The database of an active story is spared exactly when its ID is lower case with exactly one hyphen, or
  nothing is there to parse, or the last two segments of the name happen to be the ID of another active
  story (`DevDb.ActiveIsSparedIff`).
- Two different pairs of repository and class share a sampler key exactly when one is the other with text
  moved over the bar (`Experiment.KeysCollideIff`, `Experiment.BarsCanCollide`). A posterior then counts the
  other pair's runs too, and counts its own alone exactly when there are no such runs
  (`Experiment.PosteriorIsOwnIff`).
- The comments on binary and lock files call `--ours` the story branch; during a rebase it is the branch
  rebased onto, as the git helpers say. The model follows git.
- The gate's comment promises the final red state on file whenever it returns false. It is there exactly when
  the run did not end with its verification: always when the gate blocks, and when it is interrupted before
  or during a fix (`CompletionGate.Gate.Run`, `CompletionGate.StandsUnlessJustVerified`). An interruption
  after a verification leaves none, the pull before it having removed the file
  (`CompletionGate.InterruptedAfterPull`). A write that fails is only logged.

## Model

| member | source | states |
|---|---|---|
| Graph.DAG.AddNode | internal/graph/graph.go:21-23 | registers a node, nothing else |
| Graph.DAG.AddEdge | internal/graph/graph.go:27-29 | records one dependency at the end of the node's list |
| Graph.DAG.ReadyNodes | internal/graph/graph.go:45-64 | the one sorted duplicate-free listing of the incomplete nodes whose direct dependencies are complete |
| Graph.SortedListUnique | internal/graph/graph.go:62 | the listing is determined by its set, so map order does not matter |
| Graph.ReadyAreIndependent | internal/graph/graph.go:42-64 | over a completed set closed under dependencies, no ready node reaches another |
| Graph.DAG.CountEdges | internal/graph/topo.go:11-24 | in-degree is the number of listed dependencies; the reverse table holds every dependency with multiplicity |
| Graph.DAG.TopologicalSort | internal/graph/topo.go:10-59 | on every graph: succeeds exactly when as many nodes can be ordered as are registered, and then lists the orderable ones once, after their dependencies, by when they come free and by name; where edges join registered nodes it fails exactly on a cycle and otherwise lists every node |
| Graph.KahnOrderUnique | internal/graph/topo.go:26-53 | that order is determined by the graph, so the order in which maps are walked does not matter |
| Graph.CountHidesStuckNode | internal/graph/topo.go:55-57 | a graph with an unregistered dependent on which the sort succeeds and leaves a registered node out |
| Graph.Drain | internal/graph/topo.go:36-53 | the queue loop ends with in-degree equal to the number of unordered dependencies of every node, the order scheduled by when nodes came free and by name |
| Graph.StuckHasCycle | internal/graph/topo.go:55-57 | nodes that all wait for one another contain a cycle |
| Graph.OrderedIsAcyclic | internal/graph/topo.go:8-9 | a topological order rules out cycles |
| Graph.DAG.Waves | internal/graph/topo.go:64-83 | fails exactly when the sort does; each wave is what is ready after the earlier ones and after the last nothing is; where edges join registered nodes failure means a cycle and the waves cover the nodes |
| Graph.WaveIsIndependent | internal/graph/topo.go:61-63 | no node of a wave depends on another node of it, however indirectly |
| Graph.WaveIsEarliest | internal/graph/topo.go:61-63 | a node of a later wave has a dependency in the wave right before |
| SplitValidation.SearchReaches | internal/engine/escalation.go:249-266 | the stack search decides the transitive closure of the edges, cyclic ones included |
| SplitValidation.OrderedByEdges | internal/engine/escalation.go:267-269 | two children are ordered exactly when equal or related by the closure either way |
| SplitValidation.CheckSuffixes | internal/engine/escalation.go:210-228 | accepts exactly safe and distinct suffixes; an error names a real offender |
| SplitValidation.SafeIdIff | internal/engine/escalation.go:210-219 | safe means letters, digits, periods, underscores and hyphens, and at least one of them |
| SplitValidation.ClaimFiles | internal/engine/escalation.go:271-286 | a child's file claims are compared with every earlier claimant; a clash is a real unordered pair |
| SplitValidation.ValidateSplitWithEdges | internal/engine/escalation.go:205-289 | nil exactly when depth, suffixes, edge shape, complexity and ordered file sharing hold; every error is real |
| Split.ApplySplit | internal/engine/escalation.go:295-336 | the new edges are exactly children to parent dependencies, the given pairs, and dependents to children; the plan grows by the children |
| Split.SplitKeepsAcyclic | internal/engine/escalation.go:295-336 | with fresh children, the parent's own dependencies and dependents and edges between children only, an acyclic graph stays acyclic exactly when the edges between the children are acyclic |
| Split.AnySplitKeepsAcyclicIff | internal/engine/escalation.go:295-336 | whatever is passed, an acyclic graph stays acyclic exactly when the added edges, old dependencies in between, lead around nowhere |
| Split.OutsideEdgeClosesCycle | internal/engine/monitor_escalation.go:216-223 | a manager's edge to a story outside closes a cycle although the given edges have none among themselves |
| Split.OldChainsSurvive | internal/engine/escalation.go:295-336 | every old dependency chain is still there |
| Split.DependentWaitsForAll | internal/engine/escalation.go:330-335 | a listed dependent is ready exactly when it was and every child is complete; a story without an edge of the split is unaffected |
| Split.FindDependents | internal/engine/monitor_dispatch.go:255-266 | the planned stories that list the given story, in order |
| Split.DependentsMembers | internal/engine/monitor_dispatch.go:255-266 | a story is found exactly when some entry of it lists the parent |
| Split.WaitsIffListed | internal/engine/monitor_dispatch.go:255-266 | for fresh children, an existing story without an edge of its own among the given pairs waits for all children exactly when its plan entry lists the parent |
| Split.ResumedSplitFreesDependents | internal/cli/resume.go:838-873 | after a rebuilt plan, any such story can be ready with a child unfinished |
| Split.TechLeadChainIsAcyclic | internal/engine/monitor_escalation.go:289-371 | the tech lead's chain of children has no cycle |
| Split.ChainOrdersAll | internal/engine/monitor_escalation.go:289-371 | in that chain every later child depends on every earlier one |
| Split.ManagerSplitCanDeadlock | internal/engine/monitor_escalation.go:146-223 | a split the validator accepts without edges can be applied with edges that block both children for ever |
| Escalation.EscalationMachine.LatestResetTime | internal/engine/escalation.go:29-44 | the latest reset of the story in the log |
| Escalation.EscalationMachine.CurrentTier | internal/engine/escalation.go:48-72 | the highest target tier recorded after the latest reset |
| Escalation.EscalationMachine.LastEscalationTime | internal/engine/escalation.go:77-99 | the latest escalation, never before the latest reset |
| Escalation.EscalationMachine.RetryCountAtCurrentTier | internal/engine/escalation.go:105-127 | failures since the last escalation or reset |
| Escalation.EscalationMachine.ShouldEscalate | internal/engine/escalation.go:136-171 | escalates to the next tier exactly when the retries reach the limit configured for the tier: by name for tiers 0 to 2, one for tier 3, none above |
| Escalation.EscalationMachine.ResetStoryToDraft | internal/engine/monitor_post_execution.go:616-671 | what a failed attempt leaves in the log, and when the requirement pauses instead, for every way the store reads and appends can fail |
| Escalation.StoreFaultsOnlyDrop | internal/engine/monitor_post_execution.go:616-671 | whatever the store does the old log stays, and the escalation and the failure come after it in this order, each exactly when it was due and its append took |
| Escalation.QueriesFollowAutomaton | internal/engine/escalation.go:46-127 | with strictly increasing times the four timestamp queries compute a two-counter automaton fed the events in order |
| Escalation.TierNeverDrops | internal/engine/escalation.go:46-72 | between resets the tier never drops and an escalation at least as high sets it; a reset restarts tier and retries; other stories do not interfere |
| Escalation.ManagerRetryNeverLowers | internal/engine/monitor_escalation.go:74-107 | after a retry at a given tier the tier is the maximum of both |
| Escalation.ManagerRetriesKeepOne | internal/engine/monitor_escalation.go:74-107 | after any number of retries the tier is the highest asked for or held and one failure is on record, so a limit above one is not reached |
| Escalation.BreachNeverPauses | internal/engine/monitor_sla.go:150-189 | an SLA breach climbs one tier with one failure on record, and below the pause only |
| Escalation.RouteFromLog | internal/engine/dispatcher.go:272-302 | routes by the highest tier ever recorded; by complexity when the log cannot be read |
| Escalation.RoutingAgreesIff | internal/engine/dispatcher.go:272-302 | routing and ladder see the same tier exactly when no escalation before the last reset was higher |
| Escalation.ResetDoesNotReroute | internal/engine/dispatcher.go:272-302 | a reset clears the ladder and leaves the route as it was |
| Escalation.ClimbTakesTotal | internal/engine/escalation.go:136-171 | from any tier and count the ladder is exhausted after exactly the total number of attempts |
| Escalation.OneEventPerFailure | internal/engine/escalation.go:136-171 | one failure event per check: the total of the ladder is the sum of max(1, limit) over the tiers |
| Escalation.TierFourAfterTotal | internal/engine/escalation.go:136-171 | on any chronological log one failure event per check reaches tier 4 after exactly that sum |
| Escalation.MonitorFailureCounts | internal/engine/monitor_post_execution.go:616-671 | the totals under the monitor's own order of check and event: for failures with a recorded verdict and for those without |
| Escalation.AttemptClimbs | internal/engine/monitor_post_execution.go:616-671 | one failed attempt on any chronological log, the reviewer's or QA's verdict event included, is one step of the abstract climb |
| Escalation.JudgedClimbs | internal/engine/reviewer.go:219-232 | a red verdict counts on the ladder before the monitor checks it exactly when it was appended, projected or not; other failures do not (internal/engine/qa.go:157-181 likewise) |
| Escalation.FailClimbs | internal/engine/monitor_post_execution.go:616-671 | any sequence of failed attempts, with any events in between (retries by the manager, SLA escalations, resets), climbs the log as it climbs the abstract ladder, and pauses exactly when that is exhausted |
| Escalation.MixedClimb | internal/engine/escalation.go:136-171 | the abstract climb is exhausted exactly when the failures fall into one filled block for each tier left |
| Escalation.PausesIffExhausts | internal/engine/monitor_post_execution.go:616-671 | failed attempts of any kinds in any order, nothing else moving the ladder, pause the requirement exactly when they fill the tiers left to the story |
| Escalation.PausesWithinTotals | internal/engine/monitor_post_execution.go:616-671 | whatever the mixture of such attempts, the pause comes no later than with unrecorded failures alone and no earlier than with verdicts alone |
| Escalation.PausesAfterTotal | internal/engine/monitor_post_execution.go:616-671 | k such attempts of one sort pause the requirement of a new story exactly when k reaches the total of that sort |
| Dispatch.Dispatcher.AutoTagWaveHints | internal/engine/dispatcher.go:178-193 | tags the untagged stories in place: sequential exactly if some owned file is a shared one |
| Dispatch.ResumedPlanIsNotTagged | internal/cli/resume.go:838-873 | tagging changes nothing on a resumed plan |
| Dispatch.ResumeKeepsTagIff | internal/cli/resume.go:844-860 | a story with readable files runs alone on a resumed run exactly when it was planned to; the tag is lost exactly without a hint and with a shared file; a story whose files cannot be read runs alone |
| Dispatch.Dispatcher.FilterOverlapping | internal/engine/dispatcher.go:238-254 | computes the greedy conflict-free selection |
| Dispatch.Dispatcher.HasFileConflict | internal/engine/dispatcher.go:257-264 | some owned file is claimed |
| Dispatch.KeepFacts | internal/engine/dispatcher.go:238-254 | the selection is a conflict-free subsequence, non-empty if its input is, and every dropped story clashes with a kept one |
| Dispatch.DroppedForEarlier | internal/engine/dispatcher.go:238-254 | a dropped story clashes with one kept before it |
| Dispatch.Dispatcher.SelectDispatchable | internal/engine/dispatcher.go:213-234 | one sequential story alone, else the filtered parallel ones |
| Dispatch.SelectFacts | internal/engine/dispatcher.go:213-254 | a wave is a conflict-free subsequence of the ready stories, never nothing of something, and a sequential story is alone |
| Dispatch.CapFacts | internal/engine/dispatcher.go:97-101 | under a positive limit exceeded by the stories the cap is a prefix of exactly that many, else all of them; what was proved of the wave stays |
| Dispatch.LastPlannedWins | internal/engine/dispatcher.go:76-95 | a ready identifier stands for the last story planned under it |
| Dispatch.CandidateIff | internal/engine/dispatcher.go:76-90 | a wave draws from the planned stories of the ready nodes that are new to the store, drafts or estimated, and from nothing else |
| Dispatch.Dispatcher.DispatchWave | internal/engine/dispatcher.go:64-161 | draws from the ready nodes the dispatchable planned stories, rejects the whole wave on an unsafe ID and then changes nothing, else assigns the selected stories in order up to the first the stores do not take, which fails the wave with the ones before it assigned |
| Monitor.DispatcherMakesWaves | internal/engine/monitor_dispatch.go:158-220 | what the dispatcher starts, or leaves half assigned, is a wave step of the state machine |
| Monitor.OwnershipIsSafe | internal/engine/monitor_polling.go:43-72 | on every run from a conflict-free start, SLA breaches included, no two running stories own a common file and a sequential one runs alone |
| Monitor.WaveIsSoundIff | internal/engine/monitor_dispatch.go:112-159 | helper of the run theorem: every drawable story has its dependencies complete exactly when the intercepted stories' dependents are blocked by something else |
| Monitor.InterceptionReleasesDependents | internal/engine/monitor_dispatch.go:150-155 | a story waiting only for an intercepted unfinished one becomes ready |
| Monitor.SplitIsSafeIff | internal/engine/monitor_escalation.go:180-223 | whatever is passed, after a split completion is closed under dependencies and running stories keep theirs exactly when the split story waits for nothing unfinished and no added edge makes it or a completed story do so |
| Monitor.MeantSplitIsHarmless | internal/engine/escalation.go:295-336 | a split of a story whose dependencies are complete, with fresh children, its own dependencies and dependents and edges between children only, is such a split |
| Monitor.EdgeFromMergedStory | internal/engine/monitor_escalation.go:216-223 | an edge from a merged story to a new child after which a completed story has an open dependency |
| Monitor.DependenciesAreSafe | internal/engine/monitor_dispatch.go:31-159 | on every run whose waves and splits are sound, completion stays closed under dependencies and a story runs only with its dependencies complete |
| Monitor.RunningStoriesAreIndependent | internal/engine/monitor_polling.go:43-72 | in such a state whatever a running story transitively needs is complete and not running |
| Monitor.DependentMergesFirst | internal/engine/monitor_dispatch.go:150-159 | a complete run in which a dependent merges before the story it depends on |
| GoTestStream.TestBinaryNamesItsPackage | internal/engine/go_test_parse.go:162-171 | a package and its external test package map to the same package |
| GoTestStream.BracketIsFirst | internal/engine/go_test_parse.go:166-169 | the cut happens at the bracket the toolchain adds |
| GoTestStream.PkgTracker.BuildFailure | internal/engine/go_test_parse.go:195-207 | counts a build failure once per named package |
| GoTestStream.PkgTracker.TestEvent | internal/engine/go_test_parse.go:211-234 | counts passes and failures and remembers the package's failures |
| GoTestStream.PkgTracker.PackageFail | internal/engine/go_test_parse.go:254-264 | counts an early exit unless the package already has a failure on record |
| GoTestStream.ParseGoTestOutput | internal/engine/go_test_parse.go:266-301 | the loop counts the events, by their fields: every pass and every failing test, the first break of a named package's build and every break of an unnamed one, a package-level failure that is the first bad news of its package |
| GoTestStream.PrintedIff | internal/engine/go_test_parse.go:144-160 | a legacy build failure is package output of one form: FAIL, a tab, anything, [build failed] or [setup failed], then newlines only |
| GoTestStream.CountsEvents | internal/engine/go_test_parse.go:178-301 | after any stream the parser's counts and per-package marks are what the fields of the events say |
| GoTestStream.SinglePackage | internal/engine/go_test_parse.go:178-264 | for one package the running state agrees with a stateless account: the first build failure or unexplained package fail settles it |
| GoTestStream.TakeOut | internal/engine/go_test_parse.go:178-302 | one package's events can be taken out of a stream, counts adding up |
| GoTestStream.CountsAreSumOverPackages | internal/engine/go_test_parse.go:178-302 | the counts are the sum over packages of a per-package function |
| GoTestStream.InterleavingDoesNotMatter | internal/engine/go_test_parse.go:178-302 | two streams with the same per-package order have the same counts |
| GoTestStream.NoRedIsLost | internal/engine/go_test_parse.go:178-301 | on classified events failing is test failures plus build failures plus early exits, and zero exactly when none is red |
| GoTestStream.NoBadNewsIsLost | internal/engine/go_test_parse.go:178-301 | on events: failing is zero exactly when no event is a broken build, reported or printed, a failing test or a failing package; what fails covers the broken builds and the early exits |
| GoTestStream.ParseTestOutput | internal/engine/go_test_parse.go:21-37 | for Go the exit-status veto on top of what the events count; for Node the line counts, with every failure vetoed by exit 0 |
| GoTestStream.ParseNodeTestOutput | internal/engine/go_test_parse.go:85-107 | the two loops compute the line counts and the override |
| GoTestStream.NodeCountsLines | internal/engine/go_test_parse.go:85-107 | lines that hold one of the two marks are counted, and the first line that announces a result overrides both counts |
| GoTestStream.VetoIsSound | internal/engine/go_test_parse.go:21-37 | the veto removes legacy build failures only, never a count below zero, and happens exactly on exit 0 with no other build failure |
| CompletionGate.ShouldRunFixCycle | internal/engine/verification_loop.go:666-679 | red exactly on a failing build, a failing test, or a critical or high gap |
| CompletionGate.HasUnfixableGap | internal/engine/verification_loop.go:273-280 | some gap is a timeout |
| CompletionGate.Gate.RecordRedCycle | internal/engine/completion_gate.go:196-205 | the gaps, or a summary when there is none, go on record, and on file if it can be written |
| CompletionGate.Gate.FixCycle | internal/engine/completion_gate.go:152-190 | at most one dispatch, only on a red fixable result just recorded; interrupted exactly when the context has ended; the gaps file is what the log makes of it |
| CompletionGate.Gate.Run | internal/engine/completion_gate.go:102-144 | passes exactly when the context is live after a clean verification; at most maxCycles fixes and one verification more than completed fixes; blocks only with nothing left to try; the gaps file is what the log makes of it, and the red state stands recorded exactly when the run did not end with a verification |
| CompletionGate.VerificationsOneAhead | internal/engine/completion_gate.go:118-136 | in every log of the gate verifications are one ahead of completed fixes |
| CompletionGate.FailedFixWasNeeded | internal/engine/completion_gate.go:152-182 | after a failed dispatch the latest result is still the red fixable one |
| CompletionGate.CleanIsLast | internal/engine/completion_gate.go:113-135 | nothing follows a clean verification |
| CompletionGate.StandingIsLatest | internal/engine/completion_gate.go:152-205 | a record not pulled away is of the latest result, and decides what is on file |
| CompletionGate.StandsUnlessJustVerified | internal/engine/completion_gate.go:100-101 | exactly when the promise that the final red state is on file is kept |
| CompletionGate.InterruptedAfterPull | internal/engine/completion_gate.go:183-188 | an interruption on a red mainline that leaves nothing on file |
| CompletionGate.Requirement.RecordGateOutcome | internal/engine/monitor_dispatch.go:325-336 | no verdict changes nothing; a pass completes and a block blocks, on the log and in the projection as far as each took it |
| CompletionGate.Requirement.RecordAdvisoryOutcome | internal/engine/monitor_dispatch.go:342-366 | without a gate a red result is put on file and the requirement completes, on the log and in the projection as far as each took it; an interruption records nothing |
| Resume.GateOnlyReady | internal/cli/resume_gate.go:229-236 | there are stories and each is merged or split |
| Resume.AllStoriesComplete | internal/cli/resume_gate.go:311-325 | there are stories and each has a complete status |
| Resume.ComposedIsComplete | internal/cli/resume_gate.go:220-228 | composed is narrower than complete by exactly the stories with an open pull request |
| Resume.Session.UnblockForGate | internal/cli/resume_gate.go:244-260 | only a blocked requirement about to be re-verified is unblocked, as far as the stores take it; a failure stops the run |
| Resume.Session.DispatchNextWave | internal/engine/monitor_dispatch.go:15-100 | with all stories done and listed and the requirement not seen paused, the gate runs and its verdict reaches log and projection exactly as they take it; without a gate the requirement completes unless interrupted; else nothing changes |
| Resume.Session.FinishResume | internal/cli/resume_gate.go:330-351 | the error for every status that can be read: none on completed, paused, or a detach with stories left; a blocked requirement has its own, and an unreadable one has no verdict |
| Resume.Session.Prepare | internal/cli/resume.go:178-460 | the run goes on exactly when there is something to do and nothing in the way; a stop leaves at most a resumption |
| Resume.Session.RunResume | internal/cli/resume.go:178-626 | with a gate wired a run that ends with all stories complete succeeds only if completed, archived or paused, completes only on a clean verification, and leaves a blocked requirement blocked when nothing can verify it; over an open pull request or in a dry run finished stories get no verdict and no success; a run that gets to work with a live context reaches the gate once its stories are done, and with stores that take it a clean verification ends completed and without an error, a red one blocked |
| Rebase.Worktree.Ask | internal/engine/conflict_resolver.go:529-692 | without a reply (no model, a transport error, a limit notice) there is no outcome; a reply is merged text exactly without conflict markers and commentary; both are put on record |
| Rebase.FencedReply | internal/engine/conflict_resolver.go:812-826 | the first fenced block is taken, without its language line, whatever stands before and behind |
| Rebase.PlainReply | internal/engine/conflict_resolver.go:812-826 | a reply without a fence is taken whole |
| Rebase.OpenReply | internal/llm/utils.go:8-23 | an opening fence at the start goes with its line even if it is never closed |
| Rebase.ClassByName | internal/engine/conflict_resolver.go:340-510 | lock file, ignore list or JSON configuration depends on the last part of the path alone |
| Rebase.OneSided | internal/engine/conflict_resolver.go:424-450 | a blank side of a JSON conflict gives way to the other one, untouched |
| Rebase.ResolveOne | internal/engine/conflict_resolver.go:151-304 | what each class of files comes to: binaries removed or from the branch rebased onto, lock files from there, ignore lists the union, JSON that decodes the merge, the rest what the models say; or git is told to abort the rebase |
| Rebase.ResolveByModel | internal/engine/conflict_resolver.go:229-304 | the exact steps: senior, then the tech lead if there is one and the senior has no merged text or the conflict is wide; then the merged text, the story side on an answer that is none, an abort on no answer or a failed write |
| Rebase.FallBack | internal/git/conflict.go:84-100 | the story side is written and staged, right after an answer with markers or commentary |
| Rebase.Round | internal/engine/conflict_resolver.go:123-332 | one round ends finished and out of the rebase, given up because something went wrong, or in the next conflict, after at most one continue; it goes on only with every conflicted file gone or staged as resolved |
| Rebase.RebaseWithResolution | internal/engine/conflict_resolver.go:111-336 | success has left the rebase, by no conflict or a continue, and no model has let it down; every failure ends in an abort, and is in a rebase only if git refused that abort; at most maxRounds continues, and giving up on their number only after as many; everything staged is sanctioned by its own round, the base side only for lock and binary files, the story side only right after a reply with markers or commentary; after an outage of the model asked last nothing but the abort happens; lock files and ignore lists never reach a model |
| JsonMerge.DeepMergeJSON | internal/engine/conflict_resolver.go:453-471 | walking the maps in any order computes one merge |
| JsonMerge.MergeAt | internal/engine/conflict_resolver.go:453-471 | the merged value at every path of keys |
| JsonMerge.NothingOfTheirsIsLost | internal/engine/conflict_resolver.go:453-471 | the story side's leaves survive, and objects hold the union of both sides' keys at every level |
| JsonMerge.MergeIdempotent | internal/engine/conflict_resolver.go:453-471 | merging a value with itself changes nothing |
| JsonMerge.MergeAbsorbs | internal/engine/conflict_resolver.go:453-471 | merging either side in again changes nothing |
| JsonMerge.AssociativeIff | internal/engine/conflict_resolver.go:453-471 | regrouping is harmless for every third operand exactly when the middle one replaces no non-empty object by a non-object |
| UnionMerge.UnionResolveConflict | internal/engine/conflict_resolver.go:362-382 | computes the union of lines |
| UnionMerge.UnionFacts | internal/engine/conflict_resolver.go:362-382 | every visible line that starts with none of the four markers exactly once in first-seen order, nothing else, no marker |
| UnionMerge.UnionIsDistinctClean | internal/engine/conflict_resolver.go:362-382 | the union is those lines, each once at its first place, less the blank ones at the end |
| UnionMerge.UnionOfConflict | internal/engine/conflict_resolver.go:362-382 | on a two-way conflict among lines without markers: what was before, ours, theirs and what came after, each line once, less the blank tail |
| UnionMerge.BothSidesSurvive | internal/engine/conflict_resolver.go:362-382 | on a two-way conflict as git writes it no line of either side is lost |
| UnionMerge.UnionIsIdempotent | internal/engine/conflict_resolver.go:362-382 | resolving a resolved text changes nothing |
| ExtractJson.FindEnd | internal/engine/jsonutil.go:80-105 | the index loop computes the closing position |
| ExtractJson.ScanFindsValue | internal/engine/jsonutil.go:80-105 | the scan from the start of a printed object or array ends on its last character |
| ExtractJson.AcceptsIffValueStarts | internal/engine/jsonutil.go:80-113 | a bracket is accepted exactly when some JSON text, nested no deeper than the library allows, starts there, and nothing follows the accepted value |
| ExtractJson.FencedCandidate | internal/engine/jsonutil.go:27-41 | the content of the first fence without its language line |
| ExtractJson.ExtractJSON | internal/engine/jsonutil.go:14-124 | computes the extraction, fence first, then the leftmost accepted bracket of one kind |
| ExtractJson.FencedValueIsReturned | internal/engine/jsonutil.go:27-41 | a JSON text in the first fence is returned, without its language line and white space, whatever stands around |
| ExtractJson.ResultIsEmbeddedJson | internal/engine/jsonutil.go:14-124 | a result other than the trimmed input is a JSON text that occurs in the input |
| ExtractJson.FindsValueAfterPreamble | internal/engine/jsonutil.go:14-124 | preamble without brackets, a value, anything after, no fence: exactly the value |
| ExtractJson.FindsIffPresent | internal/engine/jsonutil.go:56-123 | without a fence a value is found exactly when one of the first bracket's kind starts somewhere, and the leftmost one is |
| ExtractJson.OtherKindIsNotTried | internal/engine/jsonutil.go:56-123 | if the first bracket's kind is never closed the input comes back whole |
| ExtractJson.ObjectBehindBracketIsMissed | internal/engine/jsonutil.go:56-123 | an object behind a stray bracket is missed |
| Doublestar.IndexOf | internal/autoresearch/runner.go:379-386 | the first occurrence, or -1 |
| Doublestar.MatchDoublestar | internal/autoresearch/runner.go:76-112 | terminates and decides the recursive matching relation |
| Doublestar.FileMatchIff | internal/autoresearch/runner.go:56-69 | a file match cuts the path into one piece for each character of the pattern: itself, anything without a slash for *, one character but a slash for ? |
| Doublestar.AcceptsDoublestar | internal/autoresearch/runner.go:71-112 | everything a segment-wise matcher accepts is accepted, for literal segments before each ** |
| Doublestar.UnderDirectory | internal/autoresearch/runner.go:76-112 | p/** matches exactly p and the paths under it |
| Doublestar.AllowsDirectory | internal/autoresearch/runner.go:56-69 | the same for the filter, file match included |
| Doublestar.AnyTail | internal/autoresearch/runner.go:99-111 | a tail without ** after a leading ** is matched against every end of the path |
| Doublestar.WholeSegments | internal/autoresearch/runner.go:71-75 | segment-wise the end has to start a segment |
| Doublestar.ExtraTails | internal/autoresearch/runner.go:99-111 | exactly which paths are let through beyond the segment-wise meaning, for any tail without ** |
| Doublestar.StarredTailHasNoExtra | internal/autoresearch/runner.go:99-111 | none, when the tail starts with a star |
| Doublestar.PlainSegmentsBack | internal/autoresearch/runner.go:71-75 | a match of whole strings without ** is a match segment by segment |
| Doublestar.BetweenTails | internal/autoresearch/runner.go:76-112 | exactly which paths are accepted by a double star between a literal and a tail |
| Doublestar.BetweenLiterals | internal/autoresearch/runner.go:76-112 | the same between two literals: a suffix of the directory or of a path below it |
| Doublestar.SegmentsBetween | internal/autoresearch/runner.go:71-75 | exactly which of them are meant segment-wise |
| Doublestar.ExtraBetween | internal/autoresearch/runner.go:91-111 | exactly which paths are let through beyond the segment-wise meaning, for any tail without ** |
| Doublestar.LiteralEnds | internal/autoresearch/runner.go:99-111 | for a literal tail an end of the path is a suffix, and the surplus the suffixes that start inside a segment |
| Doublestar.OverlapIsAccepted | internal/autoresearch/runner.go:91-98 | the first of the two families: the directory itself, when it ends in the tail |
| Doublestar.MatchAny | internal/autoresearch/runner.go:56-69 | some pattern matches either way |
| Doublestar.PathFilter.Check | internal/autoresearch/runner.go:44-54 | succeeds exactly when every path is allowed and none is denied, else reports the first that is not |
| Experiment.KeysAreDistinct | internal/autoresearch/sampler.go:142-144 | in particular keys identify repository and class when the bar is kept out of one of the two |
| Experiment.KeysCollideIff | internal/autoresearch/sampler.go:142-144 | two different pairs share a key exactly when one is the other with text moved over the bar |
| Experiment.BarsCanCollide | internal/autoresearch/sampler.go:142-144 | two different pairs with the same key |
| Experiment.BayesSampler.PriorFor | internal/autoresearch/sampler.go:142-150 | creates a counter at the prior on first use and changes no posterior |
| Experiment.BayesSampler.Update | internal/autoresearch/sampler.go:113-122 | one success or failure on its own key, in place, all others unchanged |
| Experiment.BayesSampler.Posterior | internal/autoresearch/sampler.go:126-131 | reports the counter and changes no posterior |
| Experiment.PositiveDeltaIff | internal/autoresearch/runner.go:337-345 | a positive delta means improvement in either metric direction |
| Experiment.Runner.Run | internal/autoresearch/runner.go:143-314 | kept exactly when the agent was done, the diff could be read, is not empty and has every readable path admitted by the filter, the score was computed, the judge said OK, the metric improved and the gate took it; credited exactly once unless the infrastructure failed; its events are exactly the start, the measurement and judgement if it came to them, and its outcome, a tripwire for a path out of scope, unless the store refused one; its worktree survives only a keep, a gate failure or a failed removal |
| Experiment.KeptRunIsWin | internal/autoresearch/hypothesis.go:63-74 | a kept run whose events the store took is a win of the bank |
| Experiment.InterleavingDoesNotMatter | internal/autoresearch/sampler.go:113-122 | the posterior depends on the multiset of updates only |
| Experiment.InterleavingPermutes | internal/autoresearch/sampler.go:113-122 | runs that take turns at the lock in any order make together the updates they make alone |
| Experiment.PosteriorCountsRuns | internal/autoresearch/runner.go:143-314 | after any interleaving of concurrent runs a posterior has grown by exactly its kept and its other non-infrastructure runs, and by those of the pairs that share its key |
| Experiment.PosteriorIsOwnIff | internal/autoresearch/runner.go:143-314 | it counts its own runs alone exactly when no run the infrastructure let through is of another pair with its key |
| Experiment.ExperimentsByDiff | internal/autoresearch/hypothesis.go:44-61 | the loop computes the projection |
| Experiment.LastEventWins | internal/autoresearch/hypothesis.go:40-61 | a diff is listed exactly when an outcome event names it, with what its last one says |
| Experiment.WinIffLastIsKeep | internal/autoresearch/hypothesis.go:63-74 | a win exactly when the last outcome event is a keep |
| Experiment.WinsAreImprovements | internal/autoresearch/hypothesis.go:63-74 | on a log of runs every win has an OK verdict and a positive delta |
| Experiment.TopWins | internal/autoresearch/hypothesis.go:65-83 | sorted by size of improvement, one per diff, all of them or the k largest |
| Criteria.SplitSentences | internal/criteria/format.go:78-108 | the index loop computes the sentences |
| Criteria.IsAbbreviation | internal/criteria/format.go:112-120 | the last word, lower-cased, is a known abbreviation |
| Criteria.SentencesKeepText | internal/criteria/format.go:75-108 | no character other than white space is lost, added or moved |
| Criteria.SentencesAreWhole | internal/criteria/format.go:75-108 | no sentence has a sentence boundary inside |
| Criteria.SentenceEndsIff | internal/criteria/format.go:82-91 | a sentence ends exactly at a period, exclamation or question mark with white space after it, unless it is the period of a known abbreviation |
| Criteria.StripListMarker | internal/criteria/format.go:124-148 | removes one leading marker and the space around |
| Criteria.MarkerIsStripped | internal/criteria/format.go:124-148 | the whole marker goes: a dash, a star or a bullet, or an ordinal with its punctuation; a line without one keeps its text |
| Criteria.Format | internal/criteria/format.go:31-55 | computes the items |
| Criteria.FormatMarkdown | internal/criteria/format.go:59-73 | prints one bullet per item |
| Criteria.ItemsAreItems | internal/criteria/format.go:31-55 | every item is non-empty, trimmed and on one line |
| Criteria.ManyAreReadBack | internal/criteria/format.go:31-73 | two or more items are read back as printed |
| Criteria.OneIsReadBackIff | internal/criteria/format.go:31-73 | a single item is read back exactly when it is one sentence |
| Criteria.ParagraphItemsAreWhole | internal/criteria/format.go:38-55 | every item of a one-paragraph text is one sentence |
| Criteria.ReadsBackIff | internal/criteria/format.go:31-73 | printing and reading back gives the same items except exactly for a list collapsed to one item of several sentences |
| Criteria.CollapsedListIsCut | internal/criteria/format.go:31-73 | a text for which it fails |
| DevDb.NameFitsIff | internal/devdb/naming.go:26-46 | at most 63 characters exactly when prefix, hyphen and story ID fit |
| DevDb.FormattedIsValidIff | internal/devdb/naming.go:15-52 | for a prefix and a story ID of the right characters the name is valid exactly when it fits |
| DevDb.SegmentIsWords | internal/devdb/naming.go:72-77 | a sanitized segment is the runs of letters and digits of the lower-cased text with a hyphen between each two |
| DevDb.ProjectIsWords | internal/devdb/naming.go:26-46 | the project segment is all of that, or as long a beginning as leaves room in 63 characters, less hyphens at its end |
| DevDb.ParsesBackIff | internal/devdb/naming.go:26-68 | the story ID is parsed back exactly when it is lower case with one hyphen, or nothing is there to parse |
| DevDb.Provider.FindOrphans | internal/devdb/recovery.go:14-36 | exactly the prefixed databases whose parsed story is not active, in order |
| DevDb.ActiveIsSpared | internal/devdb/recovery.go:9-36 | no database of an active story with a well-shaped ID is an orphan, whatever its project |
| DevDb.ActiveIsSparedIff | internal/devdb/recovery.go:9-36 | whatever else is active, a database of an active story is spared exactly when its ID is well shaped, nothing is there to parse, or another active story is what is parsed |
| DevDb.LoneStoryIsSparedIff | internal/devdb/recovery.go:9-36 | for a lone active story that leaves the shape of its ID |
| DevDb.Provider.ReleaseOrphans | internal/devdb/recovery.go:42-60 | deletes only what is not newer than the cutoff, keeps the rest in order, reports a failure exactly when one was due and kept |
| DevDb.PicksPartition | internal/devdb/recovery.go:38-60 | deleted and kept together are the orphans |
| DevDb.Provider.RecoverOrphans | internal/cli/resume.go:681-722 | recovery deletes only orphans past the cutoff; databases in use survive |

## Left out

- Experiment.Runner.Run: does not measure durations, deadlines or the size of a budget; the events of a run carry one arbitrary time stamp.
- Rebase.RebaseWithResolution: does not model the wording of prompts, cost metering and the audit events.
- CompletionGate.Gate.Run: does not model the content of the fix prompt, the time limits of one verification, or a fix agent that edits the gaps file itself.
- Resume.Session.RunResume: the steps that open the stores, take the lock, check the review mode and set up the run only succeed or fail; crash recovery of single stories is not modelled, and the waves of the run are arbitrary changes of story statuses (the waves themselves are `Monitor.dfy`).
- Monitor.DependenciesAreSafe: assumes waves in which intercepted stories release nobody and splits whose edges are harmless; `Monitor.WaveIsSoundIff` and `Monitor.SplitIsSafeIff` are the exact conditions. A split whose own events the stores refuse is not modelled.
- Split.SplitKeepsAcyclic: assumes fresh children, the parent's own dependencies and dependents, and edges between children only; `Split.AnySplitKeepsAcyclicIff` does not.
- Split.WaitsIffListed: assumes fresh children and no given pair that starts at the story.
- Escalation.PausesIffExhausts: between the failing attempts nothing else moves the story's ladder. A manager's retry, an SLA escalation and an operator's action on the dashboard do, and `Escalation.FailClimbs` is the theorem with them; with a manager wired a ready story of tier 2 or 3 is intercepted inside a run, so that its attempts there are the manager's and the tech lead's. Store failures during a history of attempts are modelled for one attempt at a time (`Escalation.EscalationMachine.ResetStoryToDraft`).
- GoTestStream.ParseNodeTestOutput: what formatted scanning makes of a summary line is an oracle.
- Doublestar.AcceptsDoublestar: does not cover character classes and escapes of `filepath.Match`; patterns are literals, `*`, `?` and `**`.
- Criteria.ReadsBackIff: ASCII white space and letters only; the bullet glyphs are single characters.
- Texts collected by the test-stream parser and the "no packages" shortcut: no counts depend on them.
- Adaptive routing, reputations, agent identifiers and session names beyond the number in the wave.
- Decoding of events, configurations and JSON bytes: the model starts from decoded records; `json.Valid` is an oracle for the grammar in `JsonText.dfy`.
- Random draws of the sampler, `TopLosses` and `SeenDiff` of the bank: the first is outside integer growth, the others add nothing to what is proved of wins.
- Operators editing stories while a wave is prepared.
- Dashboards, printing, notifications, documentation generation, security scanning, locks, tmux, Docker and Postgres.
