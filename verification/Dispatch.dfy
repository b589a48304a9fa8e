/** One wave: which of the ready stories are started together. */
module Dispatch {
  import opened Strings
  import opened Graph
  import opened SplitValidation
  import opened Split

  const SEQUENTIAL := "sequential"
  const PARALLEL := "parallel"

  // ----- Selection as a function of the ready stories -----

  predicate Shares(a: PlannedStory, b: PlannedStory) {
    exists f :: f in a.ownedFiles && f in b.ownedFiles
  }

  /** Some story of the list owns a file that `s` owns. */
  predicate Clashes(s: PlannedStory, taken: seq<PlannedStory>) {
    exists i :: 0 <= i < |taken| && Shares(taken[i], s)
  }

  predicate Owned(taken: seq<PlannedStory>, f: string) {
    exists i :: 0 <= i < |taken| && f in taken[i].ownedFiles
  }

  lemma ClashIsOwned(s: PlannedStory, taken: seq<PlannedStory>)
    ensures Clashes(s, taken) <==> exists f :: f in s.ownedFiles && Owned(taken, f)
  {
  }

  lemma OwnedGrows(taken: seq<PlannedStory>, s: PlannedStory)
    ensures forall f :: Owned(taken + [s], f) <==> Owned(taken, f) || f in s.ownedFiles
  {
    forall f ensures Owned(taken + [s], f) <==> Owned(taken, f) || f in s.ownedFiles {
      if Owned(taken, f) {
        var i :| 0 <= i < |taken| && f in taken[i].ownedFiles;
        assert f in (taken + [s])[i].ownedFiles;
      }
      if f in s.ownedFiles {
        assert f in (taken + [s])[|taken|].ownedFiles;
      }
    }
  }

  /** Keeps a story unless it clashes with one kept before it. */
  function Keep(stories: seq<PlannedStory>): seq<PlannedStory> {
    if stories == [] then []
    else
      var kept, s := Keep(stories[..|stories| - 1]), stories[|stories| - 1];
      if Clashes(s, kept) then kept else kept + [s]
  }

  function Hinted(stories: seq<PlannedStory>, sequential: bool): seq<PlannedStory> {
    if stories == [] then []
    else
      var rest, s := Hinted(stories[..|stories| - 1], sequential), stories[|stories| - 1];
      if (s.waveHint == SEQUENTIAL) == sequential then rest + [s] else rest
  }

  /** Sequential stories first, one at a time; otherwise the parallel ones that do not clash. */
  function Select(ready: seq<PlannedStory>): seq<PlannedStory> {
    if Hinted(ready, true) != [] then [Hinted(ready, true)[0]] else Keep(Hinted(ready, false))
  }

  function Cap(stories: seq<PlannedStory>, max: int): seq<PlannedStory> {
    if max > 0 && |stories| > max then stories[..max] else stories
  }

  predicate DisjointFiles(stories: seq<PlannedStory>) {
    forall i, j :: 0 <= i < j < |stories| ==> !Shares(stories[i], stories[j])
  }

  /** `sub` is `whole` with some elements left out; `at` says where each one comes from. */
  ghost predicate Embeds<T>(sub: seq<T>, whole: seq<T>, at: seq<nat>) {
    && |at| == |sub|
    && (forall i :: 0 <= i < |at| ==> at[i] < |whole| && whole[at[i]] == sub[i])
    && forall i, j :: 0 <= i < j < |at| ==> at[i] < at[j]
  }

  ghost predicate Subsequence<T>(sub: seq<T>, whole: seq<T>) {
    exists at :: Embeds(sub, whole, at)
  }

  lemma SubsequenceGrows<T>(sub: seq<T>, whole: seq<T>, x: T)
    requires Subsequence(sub, whole)
    ensures Subsequence(sub, whole + [x]) && Subsequence(sub + [x], whole + [x])
  {
    var at: seq<nat> :| Embeds(sub, whole, at);
    assert Embeds(sub, whole + [x], at);
    assert Embeds(sub + [x], whole + [x], at + [|whole|]);
  }

  lemma SubsequenceTransitive<T>(a: seq<T>, b: seq<T>, c: seq<T>)
    requires Subsequence(a, b) && Subsequence(b, c)
    ensures Subsequence(a, c)
  {
    var p: seq<nat> :| Embeds(a, b, p);
    var q: seq<nat> :| Embeds(b, c, q);
    var r: seq<nat> := seq(|p|, i requires 0 <= i < |p| => q[p[i]]);
    assert Embeds(a, c, r);
  }

  lemma EmptySubsequence<T>(whole: seq<T>)
    ensures Subsequence([], whole)
  {
    assert Embeds([], whole, []);
  }

  lemma {:induction false} HintedIsSubsequence(stories: seq<PlannedStory>, sequential: bool)
    ensures Subsequence(Hinted(stories, sequential), stories)
    ensures forall s :: s in Hinted(stories, sequential)
              <==> s in stories && (s.waveHint == SEQUENTIAL) == sequential
  {
    if stories == [] {
      EmptySubsequence(stories);
    } else {
      var init, s := stories[..|stories| - 1], stories[|stories| - 1];
      HintedIsSubsequence(init, sequential);
      assert stories == init + [s];
      SubsequenceGrows(Hinted(init, sequential), init, s);
    }
  }

  lemma KeepStep(init: seq<PlannedStory>, s: PlannedStory)
    ensures Keep(init + [s]) == if Clashes(s, Keep(init)) then Keep(init) else Keep(init) + [s]
  {
    hide Clashes;
    assert (init + [s])[..|init|] == init;
  }

  lemma ClashesGrows(x: PlannedStory, taken: seq<PlannedStory>, s: PlannedStory)
    requires Clashes(x, taken)
    ensures Clashes(x, taken + [s])
  {
    hide Shares;
    var i :| 0 <= i < |taken| && Shares(taken[i], x);
    assert (taken + [s])[i] == taken[i];
  }

  /** A story left out clashes with one that is kept: still so when one more is considered. */
  lemma KeepIsJustified(init: seq<PlannedStory>, s: PlannedStory)
    requires forall x :: x in init ==> x in Keep(init) || Clashes(x, Keep(init))
    ensures forall x :: x in init + [s] ==> x in Keep(init + [s]) || Clashes(x, Keep(init + [s]))
  {
    KeepStep(init, s);
    hide Keep, Clashes;
    var kept := Keep(init + [s]);
    forall x | x in init + [s] ensures x in kept || Clashes(x, kept) {
      if x in init {
        if Clashes(x, Keep(init)) && kept != Keep(init) {
          ClashesGrows(x, Keep(init), s);
        }
      } else {
        assert x == s;
      }
    }
  }

  lemma KeepIsDisjoint(kept: seq<PlannedStory>, s: PlannedStory)
    requires DisjointFiles(kept) && !Clashes(s, kept)
    ensures DisjointFiles(kept + [s])
  {
    hide Shares;
  }

  /** The filter keeps a conflict-free subsequence, never nothing of something, and drops a
      story only for one kept before it. */
  lemma {:induction false} KeepFacts(stories: seq<PlannedStory>)
    ensures Subsequence(Keep(stories), stories) && DisjointFiles(Keep(stories))
    ensures stories != [] ==> Keep(stories) != []
    ensures forall s :: s in stories ==> s in Keep(stories) || Clashes(s, Keep(stories))
  {
    if stories == [] {
      EmptySubsequence(stories);
    } else {
      var init, s := stories[..|stories| - 1], stories[|stories| - 1];
      KeepFacts(init);
      assert stories == init + [s];
      SubsequenceGrows(Keep(init), init, s);
      KeepIsJustified(init, s);
      KeepStep(init, s);
      if !Clashes(s, Keep(init)) {
        KeepIsDisjoint(Keep(init), s);
      }
    }
  }

  /** A dropped story clashes with a story kept *earlier*. */
  lemma {:induction false} DroppedForEarlier(stories: seq<PlannedStory>, n: nat)
    requires n < |stories| && stories[n] !in Keep(stories)
    ensures Clashes(stories[n], Keep(stories[..n]))
    ensures Keep(stories[..n]) <= Keep(stories)
  {
    KeepGrows(stories, n);
    KeepGrows(stories, n + 1);
    PrefixMembers(Keep(stories[..n + 1]), Keep(stories));
    KeptOrClashes(stories, n);
  }

  lemma KeptOrClashes(stories: seq<PlannedStory>, n: nat)
    requires n < |stories|
    ensures Clashes(stories[n], Keep(stories[..n])) || stories[n] in Keep(stories[..n + 1])
  {
    assert stories[..n + 1][..n] == stories[..n] && stories[..n + 1][n] == stories[n];
  }

  lemma PrefixMembers<T>(a: seq<T>, b: seq<T>)
    requires a <= b
    ensures forall x :: x in a ==> x in b
  {
  }

  lemma {:induction false} KeepGrows(stories: seq<PlannedStory>, n: nat)
    requires n <= |stories|
    ensures Keep(stories[..n]) <= Keep(stories)
    decreases |stories|
  {
    if n < |stories| {
      var init := stories[..|stories| - 1];
      KeepGrows(init, n);
      assert init[..n] == stories[..n];
    } else {
      assert stories[..n] == stories;
    }
  }

  ghost predicate HasSequential(ready: seq<PlannedStory>) {
    exists s :: s in ready && s.waveHint == SEQUENTIAL
  }

  /** What the dispatcher promises about a wave. */
  lemma SelectFacts(ready: seq<PlannedStory>)
    ensures Subsequence(Select(ready), ready) && DisjointFiles(Select(ready))
    ensures ready != [] ==> Select(ready) != []
    ensures HasSequential(ready) ==> |Select(ready)| == 1 && Select(ready)[0].waveHint == SEQUENTIAL
    ensures !HasSequential(ready) ==>
              forall s :: s in ready ==> s in Select(ready) || Clashes(s, Select(ready))
  {
    HintedIsSubsequence(ready, true);
    HintedIsSubsequence(ready, false);
    var seqs, pars := Hinted(ready, true), Hinted(ready, false);
    KeepFacts(pars);
    if ready != [] {
      assert ready[0] in ready;
      assert ready[0] in pars || ready[0] in seqs;
    }
    if seqs != [] {
      assert seqs[0] in seqs;
      assert Embeds([seqs[0]], seqs, [0]);
      SubsequenceTransitive([seqs[0]], seqs, ready);
    } else {
      SubsequenceTransitive(Keep(pars), pars, ready);
    }
  }

  lemma CapFacts(stories: seq<PlannedStory>, max: int)
    ensures Cap(stories, max) <= stories
    ensures DisjointFiles(stories) ==> DisjointFiles(Cap(stories, max))
    ensures max > 0 && |stories| > max ==> |Cap(stories, max)| == max
    ensures !(max > 0 && |stories| > max) ==> Cap(stories, max) == stories
    ensures stories != [] ==> Cap(stories, max) != []
  {
  }

  // ----- The dispatcher as it runs -----

  /** The story statuses the projection store holds. */
  class Projection {
    var status: map<string, string>

    constructor (status: map<string, string>)
      ensures this.status == status
    {
      this.status := status;
    }
  }

  predicate IsStoryComplete(status: string) {
    status == "merged" || status == "pr_submitted" || status == "split" || status == "awaiting_approval"
  }

  predicate StoryDispatchable(status: map<string, string>, id: string) {
    id !in status || status[id] == "draft" || status[id] == "estimated"
  }

  predicate OwnsShared(s: PlannedStory, isShared: string -> bool) {
    exists f :: f in s.ownedFiles && isShared(f)
  }

  function Tag(s: PlannedStory, isShared: string -> bool): PlannedStory {
    if s.waveHint != "" then s
    else if OwnsShared(s, isShared) then s.(waveHint := SEQUENTIAL)
    else s.(waveHint := PARALLEL)
  }

  function TagAll(stories: seq<PlannedStory>, isShared: string -> bool): seq<PlannedStory> {
    seq(|stories|, i requires 0 <= i < |stories| => Tag(stories[i], isShared))
  }

  /** On a resumed plan tagging has nothing left to do: every story has a hint. */
  lemma ResumedPlanIsNotTagged(stories: seq<PlannedStory>, corrupt: string -> bool, isShared: string -> bool)
    ensures TagAll(RebuildPlan(stories, corrupt), isShared) == RebuildPlan(stories, corrupt)
  {
    var plan := RebuildPlan(stories, corrupt);
    forall i | 0 <= i < |plan| ensures TagAll(plan, isShared)[i] == plan[i] {
      assert plan[i] == Rebuilt(stories[i], corrupt(stories[i].id));
    }
    assert |TagAll(plan, isShared)| == |plan|;
  }

  /** So a story whose files can be read runs alone on a resumed run exactly when it was planned to;
      the hint that tagging would give it is lost exactly when it had none and owns a shared file. A story
      whose files cannot be read runs alone. */
  lemma ResumeKeepsTagIff(s: PlannedStory, isShared: string -> bool)
    ensures Tag(Rebuilt(s, false), isShared).waveHint == SEQUENTIAL <==> s.waveHint == SEQUENTIAL
    ensures Tag(Rebuilt(s, false), isShared).waveHint == Tag(s, isShared).waveHint
            <==> s.waveHint != "" || !OwnsShared(s, isShared)
    ensures Rebuilt(s, true).waveHint == SEQUENTIAL && Rebuilt(s, true).ownedFiles == []
    ensures Rebuilt(s, false).ownedFiles == s.ownedFiles && Rebuilt(s, false).waveHint in {s.waveHint, PARALLEL}
  {
  }

  /** The last planned story of an identifier wins. */
  function StoryMap(stories: seq<PlannedStory>): map<string, PlannedStory> {
    if stories == [] then map[]
    else StoryMap(stories[..|stories| - 1])[stories[|stories| - 1].id := stories[|stories| - 1]]
  }

  lemma {:induction false} LastPlannedWins(stories: seq<PlannedStory>, id: string)
    ensures id in StoryMap(stories) <==> exists i :: 0 <= i < |stories| && stories[i].id == id
    ensures id in StoryMap(stories) ==>
              exists i :: 0 <= i < |stories| && StoryMap(stories)[id] == stories[i] && stories[i].id == id
                          && forall j :: i < j < |stories| ==> stories[j].id != id
  {
    if stories != [] {
      var n := |stories| - 1;
      LastPlannedWins(stories[..n], id);
      if stories[n].id != id && id in StoryMap(stories[..n]) {
        var i :| 0 <= i < n && StoryMap(stories[..n])[id] == stories[..n][i] && stories[..n][i].id == id
                 && forall j :: i < j < n ==> stories[..n][j].id != id;
        assert stories[i].id == id;
        assert forall j :: i < j < n ==> stories[j].id == stories[..n][j].id;
      }
    }
  }

  function Candidates(ready: seq<string>, plan: map<string, PlannedStory>, status: map<string, string>): seq<PlannedStory> {
    if ready == [] then []
    else
      var rest, id := Candidates(ready[..|ready| - 1], plan, status), ready[|ready| - 1];
      if StoryDispatchable(status, id) && id in plan then rest + [plan[id]] else rest
  }

  /** The stories a wave may draw from: the planned ones of the ready nodes that nothing has happened to. */
  lemma {:induction false} CandidateIff(ready: seq<string>, plan: map<string, PlannedStory>,
                                        status: map<string, string>, p: PlannedStory)
    ensures p in Candidates(ready, plan, status) <==>
            exists i :: 0 <= i < |ready| && ready[i] in plan && plan[ready[i]] == p
                        && (ready[i] in status ==> status[ready[i]] in {"draft", "estimated"})
  {
    if ready != [] {
      var n := |ready| - 1;
      CandidateIff(ready[..n], plan, status, p);
    }
  }

  /** A story routed to an agent; the session name ends in the agent's number in the wave. */
  datatype Assignment = Assignment(story: PlannedStory, agent: nat)

  function Assigned(status: map<string, string>, stories: seq<PlannedStory>): map<string, string> {
    if stories == [] then status
    else Assigned(status, stories[..|stories| - 1])[stories[|stories| - 1].id := "assigned"]
  }

  class Dispatcher {
    const isShared: string -> bool
    const maxConcurrentAgents: int
    const proj: Projection

    constructor (isShared: string -> bool, maxConcurrentAgents: int, proj: Projection)
      ensures this.isShared == isShared && this.maxConcurrentAgents == maxConcurrentAgents && this.proj == proj
    {
      this.isShared, this.maxConcurrentAgents, this.proj := isShared, maxConcurrentAgents, proj;
    }

    method AutoTagWaveHints(stories: array<PlannedStory>)
      modifies stories
      ensures stories[..] == TagAll(old(stories[..]), isShared)
    {
      for i := 0 to stories.Length
        invariant forall k :: 0 <= k < i ==> stories[k] == Tag(old(stories[k]), isShared)
        invariant forall k :: i <= k < stories.Length ==> stories[k] == old(stories[k])
      {
        if stories[i].waveHint != "" {
          continue;
        }
        var files := stories[i].ownedFiles;
        var shared := false;
        for j := 0 to |files|
          invariant !shared && forall l :: 0 <= l < j ==> !isShared(files[l])
        {
          if isShared(files[j]) {
            shared := true;
            break;
          }
        }
        stories[i] := stories[i].(waveHint := if shared then SEQUENTIAL else PARALLEL);
      }
    }

    method FilterOverlapping(stories: seq<PlannedStory>) returns (dispatched: seq<PlannedStory>)
      ensures dispatched == Keep(stories)
    {
      dispatched := [];
      var claimedFiles: set<string> := {};
      for n := 0 to |stories|
        invariant dispatched == Keep(stories[..n])
        invariant forall f :: f in claimedFiles <==> Owned(dispatched, f)
      {
        var s := stories[n];
        assert stories[..n + 1][..n] == stories[..n];
        var conflict := HasFileConflict(s, claimedFiles);
        ClashIsOwned(s, dispatched);
        if conflict {
          continue;
        }
        OwnedGrows(dispatched, s);
        claimedFiles := claimedFiles + Elements(s.ownedFiles);
        dispatched := dispatched + [s];
      }
      assert stories[..|stories|] == stories;
    }

    method HasFileConflict(s: PlannedStory, claimed: set<string>) returns (r: bool)
      ensures r <==> exists f :: f in s.ownedFiles && f in claimed
    {
      for i := 0 to |s.ownedFiles|
        invariant forall j :: 0 <= j < i ==> s.ownedFiles[j] !in claimed
      {
        if s.ownedFiles[i] in claimed {
          return true;
        }
      }
      r := false;
    }

    method SelectDispatchable(ready: seq<PlannedStory>) returns (r: seq<PlannedStory>)
      ensures r == Select(ready)
    {
      var sequential, parallel := [], [];
      for n := 0 to |ready|
        invariant sequential == Hinted(ready[..n], true) && parallel == Hinted(ready[..n], false)
      {
        assert ready[..n + 1][..n] == ready[..n];
        if ready[n].waveHint == SEQUENTIAL {
          sequential := sequential + [ready[n]];
        } else {
          parallel := parallel + [ready[n]];
        }
      }
      assert ready[..|ready|] == ready;
      if |sequential| > 0 {
        return [sequential[0]];
      }
      r := FilterOverlapping(parallel);
    }

    method ReadyStories(readyIDs: seq<string>, stories: seq<PlannedStory>) returns (r: array<PlannedStory>)
      ensures fresh(r) && r[..] == Candidates(readyIDs, StoryMap(stories), proj.status)
    {
      var storyMap: map<string, PlannedStory> := map[];
      for n := 0 to |stories|
        invariant storyMap == StoryMap(stories[..n])
      {
        assert stories[..n + 1][..n] == stories[..n];
        storyMap := storyMap[stories[n].id := stories[n]];
      }
      assert stories[..|stories|] == stories;
      var found := [];
      for n := 0 to |readyIDs|
        invariant found == Candidates(readyIDs[..n], storyMap, proj.status)
      {
        var id := readyIDs[n];
        assert readyIDs[..n + 1][..n] == readyIDs[..n];
        if StoryDispatchable(proj.status, id) && id in storyMap {
          found := found + [storyMap[id]];
        }
      }
      assert readyIDs[..|readyIDs|] == readyIDs;
      r := new PlannedStory[|found|](i requires 0 <= i < |found| => found[i]);
    }

    /** One agent a story, numbered in order; each story is projected as assigned. The first
        story that the stores do not take ends it, with the ones before it assigned. */
    method AssignAll(wave: seq<PlannedStory>, taken: nat -> bool) returns (r: Option<seq<Assignment>>, ghost n: nat)
      modifies proj
      ensures n <= |wave| && (forall i :: 0 <= i < n ==> taken(i)) && (n < |wave| ==> !taken(n))
      ensures proj.status == Assigned(old(proj.status), wave[..n])
      ensures r.Some? <==> n == |wave|
      ensures r.Some? ==> |r.value| == |wave| && forall i :: 0 <= i < |wave| ==> r.value[i] == Assignment(wave[i], i + 1)
    {
      var assignments := [];
      for i := 0 to |wave|
        invariant |assignments| == i && proj.status == Assigned(old(proj.status), wave[..i])
        invariant forall j :: 0 <= j < i ==> taken(j) && assignments[j] == Assignment(wave[j], j + 1)
      {
        if !taken(i) {
          return None, i;
        }
        assert wave[..i + 1][..i] == wave[..i];
        assignments := assignments + [Assignment(wave[i], i + 1)];
        proj.status := proj.status[wave[i].id := "assigned"];
      }
      return Some(assignments), |wave|;
    }

    /** Assigns agents to the wave drawn from the ready nodes. None is an error: an unsafe ID,
        which changes nothing, or a store that did not take one of the wave's stories, which
        leaves the n stories before it assigned. */
    method DispatchWave(dag: DAG, completed: set<string>, stories: seq<PlannedStory>, taken: nat -> bool)
      returns (r: Option<seq<Assignment>>, ghost ready: seq<string>, ghost n: nat)
      modifies proj
      ensures Sorted(ready) && NoDup(ready) && Elements(ready) == ReadySet(dag.View(), completed)
      ensures var cands := TagAll(Candidates(ready, StoryMap(stories), old(proj.status)), isShared);
              var wave := Cap(Select(cands), maxConcurrentAgents);
              && n <= |wave| && proj.status == Assigned(old(proj.status), wave[..n])
              && (r.None? <==> (exists s :: s in cands && !SafeId(s.id)) || exists i :: 0 <= i < |wave| && !taken(i))
              && ((exists s :: s in cands && !SafeId(s.id)) ==> n == 0)
              && (!(exists s :: s in cands && !SafeId(s.id)) ==>
                    (forall i :: 0 <= i < n ==> taken(i)) && (n < |wave| ==> !taken(n)))
              && (r.Some? ==> n == |wave| == |r.value|
                              && forall i :: 0 <= i < |wave| ==> r.value[i] == Assignment(wave[i], i + 1))
    {
      var readyIDs := dag.ReadyNodes(completed);
      ready := readyIDs;
      var readyStories := ReadyStories(readyIDs, stories);
      AutoTagWaveHints(readyStories);
      for i := 0 to readyStories.Length
        invariant forall j :: 0 <= j < i ==> SafeId(readyStories[j].id)
      {
        if !SafeId(readyStories[i].id) {
          assert readyStories[..][i] in readyStories[..];
          return None, ready, 0;
        }
      }
      var wave := SelectDispatchable(readyStories[..]);
      if maxConcurrentAgents > 0 && |wave| > maxConcurrentAgents {
        wave := wave[..maxConcurrentAgents];
      }
      r, n := AssignAll(wave, taken);
    }
  }
}
