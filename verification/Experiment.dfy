/** Autonomous experiments: one run from worktree to verdict, the sampler's counters that runs share,
    and the bank that reads wins off the event log. The agent, the metric, the judge, the gate and
    the event store are oracles; scores are exact reals. */
module Experiment {
  import opened Strings
  import opened Doublestar

  // ----- The sampler's counters -----

  function Key(repo: string, cls: string): string {
    repo + "|" + cls
  }

  /** Some text moves over the bar from the front of the first class to the end of the second
      repository. */
  ghost predicate Shift(r1: string, c1: string, r2: string, c2: string) {
    exists x :: ShiftBy(x, r1, c1, r2, c2)
  }

  predicate ShiftBy(x: string, r1: string, c1: string, r2: string, c2: string) {
    r2 == r1 + "|" + x && c1 == x + "|" + c2
  }

  lemma ShiftCollides(r1: string, c1: string, r2: string, c2: string)
    requires Shift(r1, c1, r2, c2)
    ensures Key(r1, c1) == Key(r2, c2) && r1 != r2 && '|' in r2 && '|' in c1
  {
    var x :| ShiftBy(x, r1, c1, r2, c2);
    assert r2[|r1|] == '|' && c1[|x|] == '|';
    assert r1 + "|" + (x + "|" + c2) == (r1 + "|" + x) + "|" + c2;
  }

  lemma LongerIsShift(r1: string, c1: string, r2: string, c2: string)
    requires Key(r1, c1) == Key(r2, c2) && |r1| < |r2|
    ensures Shift(r1, c1, r2, c2)
  {
    var key, x := Key(r1, c1), r2[|r1| + 1..];
    assert r2 == key[..|r2|] && c2 == key[|r2| + 1..];
    assert r1 == key[..|r1|] && c1 == key[|r1| + 1..];
    assert r2 == r1 + "|" + x;
    assert c1 == x + "|" + c2;
    assert ShiftBy(x, r1, c1, r2, c2);
  }

  lemma SameLengthIsSame(r1: string, c1: string, r2: string, c2: string)
    requires Key(r1, c1) == Key(r2, c2) && |r1| == |r2|
    ensures r1 == r2 && c1 == c2
  {
    var k1, k2 := Key(r1, c1), Key(r2, c2);
    assert k1[..|r1|] == r1 && k2[..|r1|] == r2;
    assert k1[|r1| + 1..] == c1 && k2[|r1| + 1..] == c2;
  }

  /** Two different pairs share a key exactly when one is the other with text moved over the bar. */
  lemma KeysCollideIff(r1: string, c1: string, r2: string, c2: string)
    ensures Key(r1, c1) == Key(r2, c2) && (r1 != r2 || c1 != c2) <==> Shift(r1, c1, r2, c2) || Shift(r2, c2, r1, c1)
  {
    hide Shift, Key;
    if Shift(r1, c1, r2, c2) {
      ShiftCollides(r1, c1, r2, c2);
    }
    if Shift(r2, c2, r1, c1) {
      ShiftCollides(r2, c2, r1, c1);
    }
    if Key(r1, c1) == Key(r2, c2) {
      if |r1| < |r2| {
        LongerIsShift(r1, c1, r2, c2);
      } else if |r2| < |r1| {
        LongerIsShift(r2, c2, r1, c1);
      } else {
        SameLengthIsSame(r1, c1, r2, c2);
      }
    }
  }

  /** In particular no pairs collide when the bar is kept out of all repositories, or of all classes. */
  lemma KeysAreDistinct(r1: string, c1: string, r2: string, c2: string)
    requires ('|' !in r1 && '|' !in r2) || ('|' !in c1 && '|' !in c2)
    ensures Key(r1, c1) == Key(r2, c2) ==> r1 == r2 && c1 == c2
  {
    hide Shift, Key;
    KeysCollideIff(r1, c1, r2, c2);
    if Shift(r1, c1, r2, c2) {
      ShiftCollides(r1, c1, r2, c2);
    }
    if Shift(r2, c2, r1, c1) {
      ShiftCollides(r2, c2, r1, c1);
    }
  }

  lemma BarsCanCollide()
    ensures Key("a|b", "c") == Key("a", "b|c")
  {
  }

  /** Alpha and beta, as a value. */
  datatype Beta = Beta(alpha: real, beta: real)

  class BetaPrior {
    var alpha: real
    var beta: real

    constructor (alpha: real, beta: real)
      ensures this.alpha == alpha && this.beta == beta
    {
      this.alpha, this.beta := alpha, beta;
    }
  }

  function Bump(b: Beta, kept: bool): Beta {
    if kept then b.(alpha := b.alpha + 1.0) else b.(beta := b.beta + 1.0)
  }

  class BayesSampler {
    const prior: Beta
    var priors: map<string, BetaPrior>

    constructor (prior: Beta)
      ensures this.prior == prior && Valid() && forall k :: At(k) == prior
    {
      this.prior := prior;
      priors := map[];
    }

    /** No two keys share a counter. */
    ghost predicate Valid()
      reads this
    {
      forall k, l :: k in priors && l in priors && k != l ==> priors[k] != priors[l]
    }

    /** What a key stands for, counters that do not exist yet included. */
    ghost function At(key: string): Beta
      reads this, priors.Values
    {
      if key in priors then Beta(priors[key].alpha, priors[key].beta) else prior
    }

    method PriorFor(repo: string, cls: string) returns (p: BetaPrior)
      requires Valid()
      modifies this
      ensures Valid() && Key(repo, cls) in priors && p == priors[Key(repo, cls)]
      ensures p in old(priors.Values) || fresh(p)
      ensures priors.Values <= old(priors.Values) + {p}
      ensures forall k :: At(k) == old(At(k))
    {
      var key := Key(repo, cls);
      if key in priors {
        return priors[key];
      }
      p := new BetaPrior(prior.alpha, prior.beta);
      priors := priors[key := p];
    }

    method Update(repo: string, cls: string, kept: bool)
      requires Valid()
      modifies this, priors.Values
      ensures Valid() && fresh(priors.Values - old(priors.Values))
      ensures forall k :: At(k) == if k == Key(repo, cls) then Bump(old(At(k)), kept) else old(At(k))
    {
      ghost var key := Key(repo, cls);
      var p := PriorFor(repo, cls);
      label Found:
      if kept {
        p.alpha := p.alpha + 1.0;
      } else {
        p.beta := p.beta + 1.0;
      }
      forall k ensures At(k) == if k == key then Bump(old@Found(At(k)), kept) else old@Found(At(k)) {
        if k in priors && k != key {
          assert priors[k] != p;
        }
      }
    }

    method Posterior(repo: string, cls: string) returns (b: Beta)
      requires Valid()
      modifies this
      ensures b == old(At(Key(repo, cls)))
      ensures Valid() && forall k :: At(k) == old(At(k))
    {
      var p := PriorFor(repo, cls);
      b := Beta(p.alpha, p.beta);
      assert b == At(Key(repo, cls));
    }
  }

  // ----- Growth of a posterior -----

  /** One update of the counters. */
  datatype Credit = Credit(key: string, kept: bool)

  function Count(us: seq<Credit>, key: string, kept: bool): nat {
    if us == [] then 0 else Count(us[..|us| - 1], key, kept) + if us[|us| - 1] == Credit(key, kept) then 1 else 0
  }

  lemma CountSnoc(us: seq<Credit>, u: Credit, key: string, kept: bool)
    ensures Count(us + [u], key, kept) == Count(us, key, kept) + if u == Credit(key, kept) then 1 else 0
  {
    assert (us + [u])[..|us|] == us;
  }

  /** Counters count occurrences, so the order in which concurrent runs update them does not matter. */
  lemma {:induction false} CountIsMultiplicity(us: seq<Credit>, key: string, kept: bool)
    ensures Count(us, key, kept) == multiset(us)[Credit(key, kept)]
  {
    if us != [] {
      CountIsMultiplicity(us[..|us| - 1], key, kept);
      assert us == us[..|us| - 1] + [us[|us| - 1]];
    }
  }

  /** The prior grown by successes and failures. */
  function Grown(prior: Beta, us: seq<Credit>, key: string): Beta {
    Beta(prior.alpha + Count(us, key, true) as real, prior.beta + Count(us, key, false) as real)
  }

  lemma InterleavingDoesNotMatter(prior: Beta, us: seq<Credit>, vs: seq<Credit>, key: string)
    requires multiset(us) == multiset(vs)
    ensures Grown(prior, us, key) == Grown(prior, vs, key)
  {
    CountIsMultiplicity(us, key, true);
    CountIsMultiplicity(us, key, false);
    CountIsMultiplicity(vs, key, true);
    CountIsMultiplicity(vs, key, false);
  }

  // ----- One run -----

  datatype Verdict = NoVerdict | OK | Suspicious | Rejected

  datatype Score = Score(final: real, lowerIsBetter: bool)

  predicate Improves(s: Score, baseline: real) {
    if s.lowerIsBetter then s.final < baseline else s.final > baseline
  }

  function SignedDelta(s: Score, baseline: real): real {
    if s.lowerIsBetter then baseline - s.final else s.final - baseline
  }

  /** Whatever the direction of the metric, a positive delta is an improvement. */
  lemma PositiveDeltaIff(s: Score, baseline: real)
    ensures SignedDelta(s, baseline) > 0.0 <==> Improves(s, baseline)
  {
  }

  datatype Proposal = Proposal(id: string, repo: string, cls: string)

  datatype Outcome = Outcome(proposal: Proposal, baseline: real, diffHash: string, score: Score, delta: real,
                             verdict: Verdict, kept: bool, infraCaused: bool, failReason: string)

  datatype Kind = Running | Measured | Kept | Discarded | Tripwired | Failed

  /** A decoded event; a field its payload does not carry is empty. */
  datatype Event = Event(kind: Kind, id: string, repo: string, cls: string, diffHash: string, delta: real, verdict: Verdict,
                         at: int)

  function OutcomeEvent(kind: Kind, o: Outcome, at: int): Event {
    Event(kind, o.proposal.id, o.proposal.repo, o.proposal.cls, o.diffHash, o.delta, o.verdict, at)
  }

  /** A keep on record is a judged improvement of the run it belongs to. */
  predicate KeepIsEarned(e: Event) {
    e.kind == Kept ==> e.verdict == OK && e.delta > 0.0 && e.diffHash != ""
  }

  ghost predicate KeepsAreEarned(events: seq<Event>) {
    forall i :: 0 <= i < |events| ==> KeepIsEarned(events[i])
  }

  class Runner {
    const sampler: BayesSampler
    const filter: PathFilter
    var events: seq<Event>
    var worktrees: set<string>
    /** Worktrees whose removal failed; nobody looks at the error. */
    var leftovers: set<string>
    /** How many events the store refused; nobody looks at that either. */
    var refused: nat
    ghost var credits: seq<Credit>

    constructor (sampler: BayesSampler, filter: PathFilter)
      requires sampler.Valid() && forall k :: sampler.At(k) == sampler.prior
      ensures this.sampler == sampler && this.filter == filter && Valid()
      ensures events == [] && worktrees == {} && credits == []
    {
      this.sampler, this.filter, events, worktrees, credits := sampler, filter, [], {}, [];
      leftovers, refused := {}, 0;
      new;
      assert forall k :: Grown(sampler.prior, [], k) == sampler.prior;
    }

    /** Every counter is the prior grown by the credits given so far. */
    ghost predicate Valid()
      reads this, sampler, sampler.priors.Values
    {
      && sampler.Valid()
      && (forall k :: sampler.At(k) == Grown(sampler.prior, credits, k))
      && KeepsAreEarned(events) && leftovers <= worktrees
    }

    /** How a run settles, from the point where its worktree stands. */
    twostate predicate Settled(sofar: Outcome, out: Outcome, err: bool)
      reads this
    {
      && out.proposal == sofar.proposal && out.baseline == sofar.baseline && (err <==> out.infraCaused)
      && (out.infraCaused <==> out.failReason in {"worktree_create", "diff_read", "gate_route"})
      && credits == old(credits) + CreditsOfRun(out)
      && (out.kept ==> EarnedKeep(out) && !out.infraCaused)
      && OwnEvents(old(events), events, out) && refused >= old(refused)
      && (refused == old(refused) ==> EndsWithOutcome(events, out))
      && worktrees - {out.proposal.id} == old(worktrees) - {out.proposal.id}
      && old(leftovers) <= leftovers <= old(leftovers) + {out.proposal.id}
      && (out.proposal.id in worktrees <==> out.kept || out.failReason == "gate_route" || out.proposal.id in leftovers)
    }

    /** Appending may fail, and the failure is ignored. */
    method Emit(e: Event)
      requires KeepsAreEarned(events) && KeepIsEarned(e)
      modifies this`events, this`refused
      ensures KeepsAreEarned(events)
      ensures (events == old(events) + [e] && refused == old(refused)) || (events == old(events) && refused == old(refused) + 1)
    {
      var appended: bool := *;
      if appended {
        events := events + [e];
      } else {
        refused := refused + 1;
      }
    }

    /** Removing a worktree may fail, and the failure is ignored. */
    method Remove(id: string)
      requires leftovers <= worktrees && id in worktrees
      modifies this`worktrees, this`leftovers
      ensures leftovers <= worktrees
      ensures (worktrees == old(worktrees) - {id} && leftovers == old(leftovers) - {id})
              || (worktrees == old(worktrees) && leftovers == old(leftovers) + {id})
    {
      var removed: bool := *;
      if removed {
        worktrees, leftovers := worktrees - {id}, leftovers - {id};
      } else {
        leftovers := leftovers + {id};
      }
    }

    method Credited(repo: string, cls: string, kept: bool)
      requires Valid()
      modifies this`credits, sampler, sampler.priors.Values
      ensures Valid() && credits == old(credits) + [Credit(Key(repo, cls), kept)]
      ensures fresh(sampler.priors.Values - old(sampler.priors.Values))
    {
      ghost var before := credits;
      sampler.Update(repo, cls, kept);
      credits := credits + [Credit(Key(repo, cls), kept)];
      assert credits[..|before|] == before;
    }

    /** Unless the store refused something, exactly these events are new. */
    twostate predicate Adds(added: seq<Event>)
      reads this
    {
      refused == old(refused) ==> events == old(events) + added
    }

    /** A run that goes wrong through no fault of the infrastructure: its event, a loss, its worktree
        removed. */
    method Discard(kind: Kind, o: Outcome, at: int)
      requires Valid() && kind in {Discarded, Tripwired} && Standing(o)
      modifies this, sampler, sampler.priors.Values
      ensures Valid() && fresh(sampler.priors.Values - old(sampler.priors.Values))
      ensures Settled(o, o, false) && Adds([OutcomeEvent(kind, o, at)])
    {
      hide KeepsAreEarned, Grown, EarnedKeep, Key;
      Emit(OutcomeEvent(kind, o, at));
      Credited(o.proposal.repo, o.proposal.cls, false);
      Remove(o.proposal.id);
    }

    /** A run at work in its worktree, with nothing decided. */
    predicate Standing(o: Outcome)
      reads this
    {
      && o.proposal.id in worktrees && o.proposal.id !in leftovers && !o.kept && !o.infraCaused
      && o.failReason !in {"worktree_create", "diff_read", "gate_route"}
    }

    /** A run is kept exactly when nothing failed on the way, its diff is not empty and within the
        filter, the judge says OK, the metric improved and the gate took it; the infrastructure failed it
        exactly when there was no worktree, no diff to read or no gate. It is credited exactly once, as
        kept or not, unless the infrastructure failed it; its worktree outlives it only if it was kept,
        the gate failed or the removal did; and unless the store refused one its events are the start, the
        measurement and the judge's word if it came to those, and its outcome. */
    method Run(p: Proposal, baseline: real, world: World) returns (out: Outcome, err: bool)
      requires Valid() && p.id !in worktrees
      modifies this, sampler, sampler.priors.Values
      ensures Valid() && fresh(sampler.priors.Values - old(sampler.priors.Values))
      ensures Settled(Started(p, baseline), out, err)
      ensures out.kept <==> Earns(filter, baseline, world) && world.routed
      ensures out.infraCaused <==>
                !world.created || (world.agentDone && world.diff.None?) || (Earns(filter, baseline, world) && !world.routed)
      ensures Measures(filter, world) ==>
                out.verdict == world.verdict && out.score == world.score.value
                && out.delta == SignedDelta(world.score.value, baseline) && out.diffHash == world.diff.value
      ensures !Measures(filter, world) ==> out.verdict == Rejected && out.delta == 0.0
      ensures Adds((if world.created then [StartEvent(p, world.at)] else [])
                   + (if Measures(filter, world) then [MeasureEvent(out, world.at), JudgeEvent(out, world.at)] else [])
                   + [OutcomeEvent(EndKind(filter, out, world), out, world.at)])
    {
      hide KeepsAreEarned, Grown, EarnedKeep, Key, SignedDelta, InScope;
      out := Started(p, baseline);
      if !world.created {
        out := out.(infraCaused := true, verdict := Rejected, failReason := "worktree_create");
        Emit(OutcomeEvent(Failed, out, world.at));
        return out, true;
      }
      worktrees := worktrees + {p.id};
      Emit(StartEvent(p, world.at));
      ghost var running := events;
      out, err := RunAgent(out, world);
      OwnEventsJoin(old(events), running, events, out);
    }

    /** The agent, and the diff it leaves. */
    method RunAgent(sofar: Outcome, world: World) returns (out: Outcome, err: bool)
      requires Valid() && Standing(sofar) && world.created && sofar.delta == 0.0
      modifies this, sampler, sampler.priors.Values
      ensures Valid() && fresh(sampler.priors.Values - old(sampler.priors.Values))
      ensures Settled(sofar, out, err)
      ensures out.kept <==> Earns(filter, sofar.baseline, world) && world.routed
      ensures out.infraCaused <==>
                (world.agentDone && world.diff.None?) || (Earns(filter, sofar.baseline, world) && !world.routed)
      ensures Measures(filter, world) ==>
                out.verdict == world.verdict && out.score == world.score.value
                && out.delta == SignedDelta(world.score.value, sofar.baseline) && out.diffHash == world.diff.value
      ensures !Measures(filter, world) ==> out.verdict == Rejected && out.delta == 0.0
      ensures Adds((if Measures(filter, world) then [MeasureEvent(out, world.at), JudgeEvent(out, world.at)] else [])
                   + [OutcomeEvent(EndKind(filter, out, world), out, world.at)])
    {
      hide KeepsAreEarned, Grown, EarnedKeep, Key, SignedDelta, InScope;
      out := sofar;
      if !world.agentDone {
        out := out.(verdict := Rejected, failReason := "timeout_or_agent_error");
        Discard(Discarded, out, world.at);
        return out, false;
      }
      if world.diff.None? {
        out := out.(infraCaused := true, verdict := Rejected, failReason := "diff_read");
        Emit(OutcomeEvent(Failed, out, world.at));
        Remove(out.proposal.id);
        return out, true;
      }
      if world.diff.value == "" {
        out := out.(verdict := Rejected, failReason := "no_diff");
        Discard(Discarded, out, world.at);
        return out, false;
      }
      out, err := JudgeDiff(out.(diffHash := world.diff.value), world);
    }

    /** The run from its diff on: scope and metric. */
    method JudgeDiff(sofar: Outcome, world: World) returns (out: Outcome, err: bool)
      requires Valid() && Standing(sofar) && HasDiff(world) && sofar.diffHash == world.diff.value && sofar.delta == 0.0
      modifies this, sampler, sampler.priors.Values
      ensures Valid() && fresh(sampler.priors.Values - old(sampler.priors.Values))
      ensures Settled(sofar, out, err)
      ensures out.kept <==> Earns(filter, sofar.baseline, world) && world.routed
      ensures out.infraCaused <==> Earns(filter, sofar.baseline, world) && !world.routed
      ensures Measures(filter, world) ==>
                out.verdict == world.verdict && out.score == world.score.value
                && out.delta == SignedDelta(world.score.value, sofar.baseline) && out.diffHash == world.diff.value
      ensures !Measures(filter, world) ==> out.verdict == Rejected && out.delta == 0.0
      ensures Adds((if Measures(filter, world) then [MeasureEvent(out, world.at), JudgeEvent(out, world.at)] else [])
                   + [OutcomeEvent(EndKind(filter, out, world), out, world.at)])
    {
      hide KeepsAreEarned, Grown, EarnedKeep, Key, SignedDelta;
      out := sofar;
      if world.paths.Some? {
        var offending, ok := filter.Check(world.paths.value);
        if !ok {
          out := out.(verdict := Rejected);
          Discard(Tripwired, out, world.at);
          return out, false;
        }
      }
      if world.score.None? {
        out := out.(verdict := Rejected, failReason := "metric_failed");
        Discard(Discarded, out, world.at);
        return out, false;
      }
      out := out.(score := world.score.value, delta := SignedDelta(world.score.value, out.baseline));
      Emit(MeasureEvent(out, world.at));
      ghost var measured, measuredEvents := MeasureEvent(out, world.at), events;
      out, err := JudgeScore(out, world);
      OwnEventsJoin(old(events), measuredEvents, events, out);
    }

    /** The run from its score on: tripwire, improvement and gate. */
    method JudgeScore(sofar: Outcome, world: World) returns (out: Outcome, err: bool)
      requires Valid() && Standing(sofar) && sofar.diffHash != "" && Measures(filter, world)
      requires sofar.score == world.score.value && sofar.diffHash == world.diff.value
      requires sofar.delta == SignedDelta(sofar.score, sofar.baseline)
      modifies this, sampler, sampler.priors.Values
      ensures Valid() && fresh(sampler.priors.Values - old(sampler.priors.Values))
      ensures Settled(sofar, out, err)
      ensures out.kept <==> Earns(filter, sofar.baseline, world) && world.routed
      ensures out.infraCaused <==> Earns(filter, sofar.baseline, world) && !world.routed
      ensures out.verdict == world.verdict && out.score == sofar.score && out.delta == sofar.delta && out.diffHash == sofar.diffHash
      ensures Adds([JudgeEvent(out, world.at)] + [OutcomeEvent(EndKind(filter, out, world), out, world.at)])
    {
      hide KeepsAreEarned, Grown, SignedDelta, Key, InScope;
      out := sofar.(verdict := world.verdict);
      Emit(JudgeEvent(out, world.at));
      ghost var tripwired := events;
      if !world.judged || world.verdict != OK {
        Discard(Discarded, out, world.at);
        OwnEventsJoin(old(events), tripwired, events, out);
        return out, false;
      }
      PositiveDeltaIff(out.score, out.baseline);
      if !Improves(out.score, out.baseline) {
        Discard(Discarded, out, world.at);
        OwnEventsJoin(old(events), tripwired, events, out);
        return out, false;
      }
      out, err := RouteThroughGate(out, world);
      OwnEventsJoin(old(events), tripwired, events, out);
    }

    method RouteThroughGate(sofar: Outcome, world: World) returns (out: Outcome, err: bool)
      requires Valid() && Standing(sofar) && EarnedKeep(sofar)
      modifies this, sampler, sampler.priors.Values
      ensures Valid() && fresh(sampler.priors.Values - old(sampler.priors.Values))
      ensures Settled(sofar, out, err) && (out.kept <==> world.routed) && (out.infraCaused <==> !world.routed)
      ensures out == sofar.(kept := out.kept, infraCaused := out.infraCaused, failReason := out.failReason)
      ensures Adds([OutcomeEvent(if world.routed then Kept else Failed, out, world.at)])
    {
      hide KeepsAreEarned, Grown, Improves, SignedDelta, Key;
      if !world.routed {
        out := sofar.(infraCaused := true, failReason := "gate_route");
        Emit(OutcomeEvent(Failed, out, world.at));
        return out, true;
      }
      out := sofar.(kept := true);
      Emit(OutcomeEvent(Kept, out, world.at));
      Credited(out.proposal.repo, out.proposal.cls, true);
      err := false;
    }
  }

  // ----- What a run meets -----

  /** What comes of the steps of a run, as far as it gets: the worktree, the agent, the hash of the diff
      (empty for an empty one), the paths it touches, the score, the judge's word and whether there was
      one, and the gate. None is a step that failed. */
  datatype World = World(at: int, created: bool, agentDone: bool, diff: Option<string>, paths: Option<seq<string>>,
                         score: Option<Score>, judged: bool, verdict: Verdict, routed: bool)

  /** Every path the diff touches is admitted; paths that cannot be read do not count against it. */
  ghost predicate InScope(filter: PathFilter, paths: Option<seq<string>>) {
    paths.Some? ==> forall path :: path in paths.value ==> filter.Admits(path)
  }

  predicate HasDiff(world: World) {
    world.created && world.agentDone && world.diff.Some? && world.diff.value != ""
  }

  /** The run comes as far as a score. */
  ghost predicate Measures(filter: PathFilter, world: World) {
    HasDiff(world) && InScope(filter, world.paths) && world.score.Some?
  }

  /** The run comes as far as the gate. */
  ghost predicate Earns(filter: PathFilter, baseline: real, world: World) {
    && Measures(filter, world) && world.judged && world.verdict == OK
    && if world.score.value.lowerIsBetter then world.score.value.final < baseline else world.score.value.final > baseline
  }

  /** The event a run ends with. */
  ghost function EndKind(filter: PathFilter, out: Outcome, world: World): Kind {
    if out.kept then Kept else if out.infraCaused then Failed
    else if HasDiff(world) && !InScope(filter, world.paths) then Tripwired else Discarded
  }

  function StartEvent(p: Proposal, at: int): Event {
    Event(Running, p.id, p.repo, p.cls, "", 0.0, NoVerdict, at)
  }

  function MeasureEvent(o: Outcome, at: int): Event {
    Event(Measured, o.proposal.id, o.proposal.repo, "", o.diffHash, o.delta, NoVerdict, at)
  }

  function JudgeEvent(o: Outcome, at: int): Event {
    Event(Tripwired, o.proposal.id, o.proposal.repo, "", o.diffHash, 0.0, o.verdict, at)
  }

  function Started(p: Proposal, baseline: real): Outcome {
    Outcome(p, baseline, "", Score(0.0, false), 0.0, NoVerdict, false, false, "")
  }

  /** What a keep takes: an OK verdict on a real diff, and an improvement. */
  predicate EarnedKeep(o: Outcome) {
    o.verdict == OK && o.delta == SignedDelta(o.score, o.baseline) && o.delta > 0.0 && o.diffHash != ""
  }

  function CreditOf(out: Outcome): Credit {
    Credit(Key(out.proposal.repo, out.proposal.cls), out.kept)
  }

  /** The updates one run makes: one, or none if the infrastructure failed it. */
  function CreditsOfRun(out: Outcome): seq<Credit> {
    if out.infraCaused then [] else [CreditOf(out)]
  }

  /** The log has grown by events of this run; a keep comes last, and only if the run was kept. */
  ghost predicate OwnEvents(before: seq<Event>, after: seq<Event>, out: Outcome) {
    && before <= after
    && forall i :: |before| <= i < |after| ==>
         && after[i].id == out.proposal.id && after[i].repo == out.proposal.repo
         && (after[i].kind == Kept ==> out.kept && i == |after| - 1)
  }

  lemma OwnEventsJoin(before: seq<Event>, mid: seq<Event>, after: seq<Event>, out: Outcome)
    requires OwnEvents(mid, after, out)
    requires mid == before || (|mid| == |before| + 1 && before <= mid && mid[|before|].kind != Kept
                               && mid[|before|].id == out.proposal.id && mid[|before|].repo == out.proposal.repo)
    ensures OwnEvents(before, after, out)
  {
    assert |before| < |mid| ==> after[|before|] == mid[|before|];
  }

  /** The last event is the run's outcome. */
  predicate EndsWithOutcome(events: seq<Event>, out: Outcome) {
    && events != []
    && var e := events[|events| - 1];
       && e == OutcomeEvent(e.kind, out, e.at)
       && (e.kind == Kept <==> out.kept) && (e.kind == Failed <==> out.infraCaused) && IsOutcomeEvent(e.kind)
  }

  // ----- Any set of concurrent runs -----

  /** One atomic update of the counters by one of several runs. */
  datatype Tick = Tick(run: nat, credit: Credit)

  function CreditsIn(trace: seq<Tick>): seq<Credit> {
    if trace == [] then [] else CreditsIn(trace[..|trace| - 1]) + [trace[|trace| - 1].credit]
  }

  /** The updates of one run, in its own order. */
  function TicksOf(trace: seq<Tick>, run: nat): seq<Credit> {
    if trace == [] then []
    else
      var rest, last := TicksOf(trace[..|trace| - 1], run), trace[|trace| - 1];
      if last.run == run then rest + [last.credit] else rest
  }

  function TicksBut(trace: seq<Tick>, run: nat): seq<Tick> {
    if trace == [] then []
    else
      var rest, last := TicksBut(trace[..|trace| - 1], run), trace[|trace| - 1];
      if last.run == run then rest else rest + [last]
  }

  /** The runs take turns at the lock in any order: each makes the updates that it makes by itself. */
  ghost predicate Interleaves(trace: seq<Tick>, outs: seq<Outcome>) {
    && (forall t :: t in trace ==> t.run < |outs|)
    && forall r: nat :: r < |outs| ==> TicksOf(trace, r) == CreditsOfRun(outs[r])
  }

  lemma {:induction false} TicksButMembers(trace: seq<Tick>, run: nat)
    ensures forall t :: t in TicksBut(trace, run) <==> t in trace && t.run != run
  {
    if trace != [] {
      TicksButMembers(trace[..|trace| - 1], run);
      assert trace == trace[..|trace| - 1] + [trace[|trace| - 1]];
    }
  }

  lemma TicksStep(trace: seq<Tick>, t: Tick, run: nat)
    ensures CreditsIn(trace + [t]) == CreditsIn(trace) + [t.credit]
    ensures TicksOf(trace + [t], run) == TicksOf(trace, run) + if t.run == run then [t.credit] else []
    ensures TicksBut(trace + [t], run) == if t.run == run then TicksBut(trace, run) else TicksBut(trace, run) + [t]
  {
    assert (trace + [t])[..|trace|] == trace;
  }

  lemma FirstIsMember(trace: seq<Tick>)
    requires trace != []
    ensures trace[0] in trace
  {
  }

  lemma {:induction false} TicksSplit(trace: seq<Tick>, run: nat)
    ensures multiset(CreditsIn(trace)) == multiset(CreditsIn(TicksBut(trace, run))) + multiset(TicksOf(trace, run))
  {
    if trace == [] {
      assert CreditsIn([]) == [] && TicksBut([], run) == [] && TicksOf([], run) == [];
    } else {
      hide *;
      var init, last := trace[..|trace| - 1], trace[|trace| - 1];
      assert trace == init + [last];
      TicksSplit(init, run);
      TicksStep(init, last, run);
      TicksStep(TicksBut(init, run), last, run);
    }
  }

  lemma {:induction false} TicksOfBut(trace: seq<Tick>, run: nat, other: nat)
    requires other != run
    ensures TicksOf(TicksBut(trace, run), other) == TicksOf(trace, other)
  {
    if trace != [] {
      var init, last := trace[..|trace| - 1], trace[|trace| - 1];
      TicksOfBut(init, run, other);
      if last.run != run {
        assert (TicksBut(init, run) + [last])[..|TicksBut(init, run)|] == TicksBut(init, run);
      }
    }
  }

  function CreditsOf(outs: seq<Outcome>): seq<Credit> {
    if outs == [] then [] else CreditsOf(outs[..|outs| - 1]) + CreditsOfRun(outs[|outs| - 1])
  }

  /** However runs interleave, together they make the updates they make one after the other. */
  lemma {:induction false} InterleavingPermutes(trace: seq<Tick>, outs: seq<Outcome>)
    requires Interleaves(trace, outs)
    ensures multiset(CreditsIn(trace)) == multiset(CreditsOf(outs))
    decreases |outs|
  {
    hide CreditsOfRun;
    if outs == [] {
      if trace != [] {
        FirstIsMember(trace);
        assert false;
      }
    } else {
      var n, init := |outs| - 1, outs[..|outs| - 1];
      var rest := TicksBut(trace, n);
      TicksSplit(trace, n);
      TicksButMembers(trace, n);
      forall r: nat | r < n ensures TicksOf(rest, r) == CreditsOfRun(init[r]) {
        TicksOfBut(trace, n, r);
      }
      InterleavingPermutes(rest, init);
    }
  }

  /** What a sequence of updates makes of a counter that starts at the prior. */
  function Replay(prior: Beta, us: seq<Credit>, key: string): Beta {
    if us == [] then prior
    else
      var b, u := Replay(prior, us[..|us| - 1], key), us[|us| - 1];
      if u.key == key then Bump(b, u.kept) else b
  }

  lemma {:induction false} ReplayGrows(prior: Beta, us: seq<Credit>, key: string)
    ensures Replay(prior, us, key) == Grown(prior, us, key)
  {
    if us != [] {
      ReplayGrows(prior, us[..|us| - 1], key);
    }
  }

  /** The runs of a repository and class that the infrastructure did not fail, kept or not kept. */
  function RunsOf(outs: seq<Outcome>, repo: string, cls: string, kept: bool): nat {
    if outs == [] then 0
    else
      var o := outs[|outs| - 1];
      RunsOf(outs[..|outs| - 1], repo, cls, kept)
      + if !o.infraCaused && o.proposal.repo == repo && o.proposal.cls == cls && o.kept == kept then 1 else 0
  }

  /** A run of another repository or class that is counted under the same key. */
  ghost predicate IsForeign(o: Outcome, repo: string, cls: string) {
    !o.infraCaused && (Shift(o.proposal.repo, o.proposal.cls, repo, cls) || Shift(repo, cls, o.proposal.repo, o.proposal.cls))
  }

  ghost function Foreign(outs: seq<Outcome>, repo: string, cls: string, kept: bool): nat {
    if outs == [] then 0
    else
      var o := outs[|outs| - 1];
      Foreign(outs[..|outs| - 1], repo, cls, kept) + if IsForeign(o, repo, cls) && o.kept == kept then 1 else 0
  }

  lemma {:induction false} ForeignZero(outs: seq<Outcome>, repo: string, cls: string)
    ensures Foreign(outs, repo, cls, true) + Foreign(outs, repo, cls, false) == 0
            <==> forall o :: o in outs ==> !IsForeign(o, repo, cls)
  {
    hide IsForeign;
    if outs != [] {
      ForeignZero(outs[..|outs| - 1], repo, cls);
      assert outs == outs[..|outs| - 1] + [outs[|outs| - 1]];
    }
  }

  lemma {:induction false} CreditsCountRuns(outs: seq<Outcome>, repo: string, cls: string, kept: bool)
    ensures Count(CreditsOf(outs), Key(repo, cls), kept) == RunsOf(outs, repo, cls, kept) + Foreign(outs, repo, cls, kept)
  {
    if outs != [] {
      hide Key, Count, Shift;
      var o, before := outs[|outs| - 1], outs[..|outs| - 1];
      CreditsCountRuns(before, repo, cls, kept);
      KeysCollideIff(o.proposal.repo, o.proposal.cls, repo, cls);
      if o.infraCaused {
        assert CreditsOf(outs) == CreditsOf(before);
      } else {
        CountSnoc(CreditsOf(before), CreditOf(o), Key(repo, cls), kept);
      }
    }
  }

  /** The prior plus a pair's own runs, kept and not. */
  function OwnRuns(prior: Beta, outs: seq<Outcome>, repo: string, cls: string): Beta {
    Beta(prior.alpha + RunsOf(outs, repo, cls, true) as real, prior.beta + RunsOf(outs, repo, cls, false) as real)
  }

  /** Whatever the order in which concurrent runs update the counters: the posterior of a repository
      and class ends as the prior plus its own runs, plus those of the pairs that share its key. */
  lemma PosteriorCountsRuns(prior: Beta, outs: seq<Outcome>, trace: seq<Tick>, repo: string, cls: string)
    requires Interleaves(trace, outs)
    ensures var own := OwnRuns(prior, outs, repo, cls);
            Replay(prior, CreditsIn(trace), Key(repo, cls))
            == Beta(own.alpha + Foreign(outs, repo, cls, true) as real, own.beta + Foreign(outs, repo, cls, false) as real)
  {
    hide Interleaves, Key, IsForeign;
    InterleavingPermutes(trace, outs);
    ReplayGrows(prior, CreditsIn(trace), Key(repo, cls));
    InterleavingDoesNotMatter(prior, CreditsIn(trace), CreditsOf(outs), Key(repo, cls));
    CreditsCountRuns(outs, repo, cls, true);
    CreditsCountRuns(outs, repo, cls, false);
  }

  /** So it counts the pair's own runs and nothing else exactly when no run that the infrastructure
      let through is of another pair with the same key. */
  lemma PosteriorIsOwnIff(prior: Beta, outs: seq<Outcome>, trace: seq<Tick>, repo: string, cls: string)
    requires Interleaves(trace, outs)
    ensures Replay(prior, CreditsIn(trace), Key(repo, cls)) == OwnRuns(prior, outs, repo, cls)
            <==> forall o :: o in outs ==> !IsForeign(o, repo, cls)
  {
    hide Interleaves, Key, IsForeign, Replay, CreditsIn, RunsOf, Foreign;
    PosteriorCountsRuns(prior, outs, trace, repo, cls);
    ForeignZero(outs, repo, cls);
  }

  // ----- The bank -----

  /** What the bank reads off an event: the event, with its verdict filled in. */
  datatype Record = Record(id: string, repo: string, diffHash: string, delta: real, verdict: Verdict, kept: bool, at: int)

  predicate IsOutcomeEvent(k: Kind) {
    k == Kept || k == Discarded || k == Tripwired || k == Failed
  }

  predicate Counts(e: Event, repo: string) {
    IsOutcomeEvent(e.kind) && (repo == "" || e.repo == repo) && e.diffHash != ""
  }

  function RecordOf(e: Event): Record {
    var verdict := if e.verdict != NoVerdict then e.verdict
                   else match e.kind case Kept => OK case Tripwired => Suspicious case _ => Rejected;
    Record(e.id, e.repo, e.diffHash, e.delta, verdict, e.kind == Kept, e.at)
  }

  function ByDiff(events: seq<Event>, repo: string): map<string, Record> {
    if events == [] then map[]
    else
      var e, before := events[|events| - 1], ByDiff(events[..|events| - 1], repo);
      if Counts(e, repo) then before[e.diffHash := RecordOf(e)] else before
  }

  /** The event ends an experiment with the diff, in the repository asked for. */
  ghost predicate IsOutcomeOf(e: Event, repo: string, hash: string) {
    && e.kind in {Kept, Discarded, Tripwired, Failed} && e.diffHash == hash && hash != ""
    && (repo == "" || repo == e.repo)
  }

  lemma CountsIff(e: Event, repo: string, hash: string)
    ensures IsOutcomeOf(e, repo, hash) <==> Counts(e, repo) && e.diffHash == hash
  {
  }

  /** Event `i` is the last outcome of the diff. */
  ghost predicate IsLastFor(events: seq<Event>, repo: string, hash: string, i: int) {
    && 0 <= i < |events| && IsOutcomeOf(events[i], repo, hash)
    && forall j :: i < j < |events| ==> !IsOutcomeOf(events[j], repo, hash)
  }

  /** What the record says is what the event says; an event without a verdict has the one of its kind. */
  ghost predicate Tells(r: Record, e: Event) {
    && r.id == e.id && r.repo == e.repo && r.diffHash == e.diffHash && r.delta == e.delta && r.at == e.at
    && (r.kept <==> e.kind == Kept)
    && (e.verdict != NoVerdict ==> r.verdict == e.verdict)
    && (e.verdict == NoVerdict ==>
          && (e.kind == Kept ==> r.verdict == OK)
          && (e.kind == Tripwired ==> r.verdict == Suspicious)
          && (e.kind != Kept && e.kind != Tripwired ==> r.verdict == Rejected))
  }

  lemma {:induction false} LastEventWins(events: seq<Event>, repo: string, hash: string)
    ensures hash in ByDiff(events, repo) <==> exists i :: IsLastFor(events, repo, hash, i)
    ensures forall i :: IsLastFor(events, repo, hash, i) ==>
              ByDiff(events, repo)[hash] == RecordOf(events[i]) && Tells(ByDiff(events, repo)[hash], events[i])
  {
    forall e ensures Tells(RecordOf(e), e) {
    }
    hide Counts, RecordOf, IsOutcomeOf, Tells;
    if events != [] {
      var n := |events| - 1;
      var before, e := events[..n], events[n];
      LastEventWins(before, repo, hash);
      CountsIff(e, repo, hash);
      if Counts(e, repo) && e.diffHash == hash {
        assert IsLastFor(events, repo, hash, n);
        assert forall i :: IsLastFor(events, repo, hash, i) ==> i == n;
      } else {
        assert forall i :: IsLastFor(events, repo, hash, i) <==> IsLastFor(before, repo, hash, i);
        if exists i :: IsLastFor(before, repo, hash, i) {
          var i :| IsLastFor(before, repo, hash, i);
          assert IsLastFor(events, repo, hash, i);
        }
      }
    }
  }

  /** The record is one the bank lists among its wins. */
  predicate IsWin(events: seq<Event>, repo: string, r: Record) {
    r.diffHash in ByDiff(events, repo) && ByDiff(events, repo)[r.diffHash] == r && r.kept
  }

  /** A diff is a win exactly when its last outcome event is a keep. */
  lemma WinIffLastIsKeep(events: seq<Event>, repo: string, r: Record)
    ensures IsWin(events, repo, r) <==>
            exists i :: IsLastFor(events, repo, r.diffHash, i) && events[i].kind == Kept && RecordOf(events[i]) == r
  {
    hide Counts, ByDiff, IsOutcomeOf;
    LastEventWins(events, repo, r.diffHash);
    if IsWin(events, repo, r) {
      var i :| IsLastFor(events, repo, r.diffHash, i);
      assert RecordOf(events[i]) == r;
    }
  }

  /** A kept run whose events all reached the log is a win from then on, until its diff comes up again. */
  lemma KeptRunIsWin(events: seq<Event>, out: Outcome)
    requires EndsWithOutcome(events, out) && out.kept && out.diffHash != ""
    ensures IsWin(events, out.proposal.repo, RecordOf(events[|events| - 1]))
  {
    hide ByDiff;
    var r := RecordOf(events[|events| - 1]);
    WinIffLastIsKeep(events, out.proposal.repo, r);
    assert IsLastFor(events, out.proposal.repo, r.diffHash, |events| - 1);
  }

  /** On a log of runs every win is an improvement under an OK verdict. */
  lemma WinsAreImprovements(events: seq<Event>, repo: string, r: Record)
    requires KeepsAreEarned(events) && IsWin(events, repo, r)
    ensures r.delta > 0.0 && r.verdict == OK
  {
    hide Counts, ByDiff, IsWin;
    WinIffLastIsKeep(events, repo, r);
    var i :| IsLastFor(events, repo, r.diffHash, i) && events[i].kind == Kept && RecordOf(events[i]) == r;
    assert KeepIsEarned(events[i]);
  }

  method ExperimentsByDiff(events: seq<Event>, repo: string) returns (out: map<string, Record>)
    ensures out == ByDiff(events, repo)
  {
    hide Counts, RecordOf;
    out := map[];
    ghost var seen: seq<Event> := [];
    for i := 0 to |events|
      invariant seen == events[..i] && out == ByDiff(seen, repo)
    {
      var e := events[i];
      assert (seen + [e])[..|seen|] == seen;
      seen := seen + [e];
      if Counts(e, repo) {
        out := out[e.diffHash := RecordOf(e)];
      }
    }
    assert seen == events;
  }

  function Abs(x: real): (r: real)
    ensures r >= 0.0 && (r == x || r == -x)
  {
    if x < 0.0 then -x else x
  }

  predicate Sorted(rs: seq<Record>) {
    forall i, j :: 0 <= i < j < |rs| ==> Abs(rs[i].delta) >= Abs(rs[j].delta)
  }

  predicate OnePerDiff(rs: seq<Record>) {
    forall i, j :: 0 <= i < j < |rs| ==> rs[i].diffHash != rs[j].diffHash
  }

  function Insert(rs: seq<Record>, r: Record): (out: seq<Record>)
    ensures forall x :: x in out <==> x in rs || x == r
  {
    if rs == [] || Abs(rs[0].delta) < Abs(r.delta) then [r] + rs else [rs[0]] + Insert(rs[1..], r)
  }

  lemma {:induction false} InsertKeepsOrder(rs: seq<Record>, r: Record)
    requires Sorted(rs) && OnePerDiff(rs) && forall i :: 0 <= i < |rs| ==> rs[i].diffHash != r.diffHash
    ensures Sorted(Insert(rs, r)) && OnePerDiff(Insert(rs, r))
  {
    if rs != [] && Abs(rs[0].delta) >= Abs(r.delta) {
      InsertKeepsOrder(rs[1..], r);
      var tail := Insert(rs[1..], r);
      forall i | 0 <= i < |tail| ensures Abs(rs[0].delta) >= Abs(tail[i].delta) && rs[0].diffHash != tail[i].diffHash {
        assert tail[i] in tail;
        assert tail[i] in rs[1..] || tail[i] == r;
      }
    }
  }

  /** The wins with the largest improvement first, at most `k` of them when `k` is positive; the order
      of the map does not matter beyond ties. */
  method TopWins(events: seq<Event>, repo: string, k: int) returns (wins: seq<Record>)
    ensures Sorted(wins) && OnePerDiff(wins) && (k > 0 ==> |wins| <= k)
    ensures forall r :: r in wins ==> IsWin(events, repo, r)
    ensures forall r :: IsWin(events, repo, r) && r !in wins ==>
              0 < k == |wins| && forall w :: w in wins ==> Abs(w.delta) >= Abs(r.delta)
  {
    hide ByDiff;
    var byDiff := ExperimentsByDiff(events, repo);
    wins := [];
    var left := byDiff.Keys;
    while left != {}
      invariant left <= byDiff.Keys && Sorted(wins) && OnePerDiff(wins)
      invariant forall r :: r in wins <==> IsWin(events, repo, r) && r.diffHash !in left
      decreases |left|
    {
      var hash :| hash in left;
      DiffHashIsKey(events, repo, hash);
      var e := byDiff[hash];
      if e.kept {
        InsertKeepsOrder(wins, e);
        wins := Insert(wins, e);
      }
      left := left - {hash};
    }
    if k > 0 && |wins| > k {
      wins := wins[..k];
    }
  }

  lemma {:induction false} DiffHashIsKey(events: seq<Event>, repo: string, hash: string)
    requires hash in ByDiff(events, repo)
    ensures ByDiff(events, repo)[hash].diffHash == hash
  {
    hide Counts;
    if events != [] {
      var e := events[|events| - 1];
      if !(Counts(e, repo) && e.diffHash == hash) {
        DiffHashIsKey(events[..|events| - 1], repo, hash);
      }
    }
  }
}
