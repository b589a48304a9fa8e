/** The resume command once its stories are loaded: decide whether only the completion gate is left
    to run, let the monitor run, and turn what it left behind into the command's error. Stores, the
    agents and other commands at work on the same requirement are oracles. */
module Resume {
  import opened Strings
  import opened CompletionGate
  import opened Dispatch

  datatype ResumeError = RequirementBlocked | NoVerdict | Incomplete | Other

  predicate RequirementSettled(status: string) {
    status == "completed" || status == "archived"
  }

  /** Nothing is left to do for the story's agents. */
  ghost predicate IsDone(status: string) {
    status in {"merged", "pr_submitted", "split", "awaiting_approval"}
  }

  ghost predicate AllComplete(stories: seq<string>) {
    stories != [] && forall s :: s in stories ==> IsDone(s)
  }

  /** Every story's work is on the base branch. */
  ghost predicate Composed(stories: seq<string>) {
    stories != [] && forall s :: s in stories ==> s == "merged" || s == "split"
  }

  lemma ComposedIsComplete(stories: seq<string>)
    ensures Composed(stories) ==> AllComplete(stories)
    ensures AllComplete(stories) && !Composed(stories) ==>
              exists s :: s in stories && s in {"pr_submitted", "awaiting_approval"}
  {
  }

  ghost predicate AllDone(stories: seq<string>) {
    forall s :: s in stories ==> IsDone(s)
  }

  method GateOnlyReady(stories: seq<string>) returns (ready: bool)
    ensures ready <==> Composed(stories)
  {
    for i := 0 to |stories|
      invariant forall j :: 0 <= j < i ==> stories[j] == "merged" || stories[j] == "split"
    {
      if stories[i] != "merged" && stories[i] != "split" {
        assert stories[i] in stories;
        return false;
      }
    }
    ready := |stories| > 0;
  }

  method CountComplete(stories: seq<string>) returns (n: nat)
    ensures n <= |stories|
    ensures n == |stories| <==> AllDone(stories)
  {
    n := 0;
    for i := 0 to |stories|
      invariant n <= i && (n == i <==> forall j :: 0 <= j < i ==> IsDone(stories[j]))
    {
      if IsStoryComplete(stories[i]) {
        n := n + 1;
      }
    }
    assert forall j :: 0 <= j < |stories| ==> stories[j] in stories;
  }

  method AllStoriesComplete(stories: seq<string>) returns (all: bool)
    ensures all <==> AllComplete(stories)
  {
    if |stories| == 0 {
      return false;
    }
    for i := 0 to |stories|
      invariant forall j :: 0 <= j < i ==> IsDone(stories[j])
    {
      if !IsStoryComplete(stories[i]) {
        assert !IsDone(stories[i]) && stories[i] in stories;
        return false;
      }
    }
    all := true;
  }

  // ----- The two decisions -----

  datatype GateOnly = GateOnly(allComplete: bool, composed: bool, gateWired: bool, dryRun: bool, dirty: bool)

  /** Go on with agents, go on with the gate alone, or stop with this error. */
  datatype Decision = Agents | GateAlone | Stop(err: Option<ResumeError>)

  /** `status` is None when the requirement cannot be read. */
  function PrepareGateOnly(input: GateOnly, status: Option<string>): Decision {
    if !input.allComplete then Agents
    else if status.None? then Stop(Some(Other))
    else if RequirementSettled(status.value) then Stop(None)
    else if !input.composed then Stop(Some(if status.value == "blocked" then RequirementBlocked else NoVerdict))
    else if !input.gateWired && status.value == "blocked" then Stop(Some(RequirementBlocked))
    else if input.dryRun then Stop(Some(NoVerdict))
    else if input.dirty then Stop(Some(if status.value == "blocked" then RequirementBlocked else NoVerdict))
    else GateAlone
  }

  /** Stopping is not passing: a stop succeeds exactly on a settled requirement and reports a blocked
      one as blocked; the gate runs alone exactly over a composed, clean mainline without a verdict,
      or with a red one that there is a real gate to replace. */
  lemma StoppingIsNotPassing(input: GateOnly, status: string)
    requires input.dryRun ==> !input.gateWired
    ensures var d := PrepareGateOnly(input, Some(status));
            && (d == Agents <==> !input.allComplete)
            && (d == GateAlone <==> input.allComplete && status !in {"completed", "archived"} && input.composed && !input.dirty
                                    && !input.dryRun && (status == "blocked" ==> input.gateWired))
            && (d == Stop(None) <==> input.allComplete && status in {"completed", "archived"})
            && (d.Stop? && status == "blocked" ==> d == Stop(Some(RequirementBlocked)))
            && (d.Stop? && status != "blocked" && !RequirementSettled(status) ==> d == Stop(Some(NoVerdict)))
  {
  }

  /** A requirement that cannot be read stops a run with nothing left to dispatch. */
  lemma UnreadableStops(input: GateOnly)
    ensures PrepareGateOnly(input, None) == if input.allComplete then Stop(Some(Other)) else Agents
  {
  }

  function ResumeOutcome(status: string, allComplete: bool, interrupted: bool): Option<ResumeError> {
    if status == "completed" then None
    else if status == "blocked" then Some(RequirementBlocked)
    else if status == "paused" then None
    else if interrupted && allComplete then Some(NoVerdict)
    else if interrupted then None
    else if allComplete then Some(NoVerdict)
    else Some(Incomplete)
  }

  /** What the exit of a run says: success means completed, paused or a detach from agents still at
      work; every other end has its own error, and with all stories complete there is no detach. */
  lemma ExitIsExact(status: string, allComplete: bool, interrupted: bool)
    ensures var err := ResumeOutcome(status, allComplete, interrupted);
            var open := status !in {"completed", "paused", "blocked"};
            && (err == None <==> status in {"completed", "paused"} || (open && interrupted && !allComplete))
            && (err == Some(RequirementBlocked) <==> status == "blocked")
            && (err == Some(NoVerdict) <==> open && allComplete)
            && (err == Some(Incomplete) <==> open && !allComplete && !interrupted)
  {
  }

  // ----- The whole command -----

  /** How the world answers a run, step by step: whether the stores open; what they do with a resumption
      of a paused requirement; the working tree; whether the requirement can be read; whether agents are
      ready and start; whether the run can be set up; whether the requirement can be read again to
      unblock it, and what the stores do with that; then, once the agents are done, whether it can be
      read and the stories be listed, what the stores do with the verdict, and whether its status can be
      read in the end. */
  datatype Env = Env(storesOpen: bool, resumed: Took, dirty: bool, readable: bool, noneReady: bool, noAgents: bool,
                     setUp: bool, rereadable: bool, unblocked: Took, seenReadable: bool, listed: bool, took: Took,
                     statusReadable: bool)

  /** What came of the monitor's last wave: whether it was reached, the status it found, whether the
      context was live after it, and the gate's verdict if the gate ran. */
  datatype Ending = Ending(reached: bool, seen: string, live: bool, verdict: Option<Verdict>)

  class Session {
    const req: Requirement
    const gate: Gate
    const dryRun: bool
    const gateDisabled: bool
    const gateWired := !dryRun && !gateDisabled
    var stories: seq<string>

    constructor (req: Requirement, gate: Gate, dryRun: bool, gateDisabled: bool, stories: seq<string>)
      ensures this.req == req && this.gate == gate && this.dryRun == dryRun && this.gateDisabled == gateDisabled
      ensures this.stories == stories
    {
      this.req, this.gate, this.dryRun, this.gateDisabled, this.stories := req, gate, dryRun, gateDisabled, stories;
    }

    /** Appends and projects a resumption; unlike an outcome, a failure here is an error. */
    method EmitReqResumed(took: Took) returns (ok: bool)
      modifies req
      ensures ok <==> took.appended && took.projected
      ensures req.events == if took.appended then old(req.events) + [ReqResumed] else old(req.events)
      ensures req.status == if ok then "planned" else old(req.status)
    {
      if !took.appended {
        return false;
      }
      req.events := req.events + [ReqResumed];
      if !took.projected {
        return false;
      }
      req.status := StatusAfter(ReqResumed);
      ok := true;
    }

    method UnblockForGate(gateOnly: bool, env: Env) returns (ok: bool)
      modifies req
      ensures !gateOnly || (env.rereadable && old(req.status) != "blocked") ==>
                ok && req.status == old(req.status) && req.events == old(req.events)
      ensures gateOnly && !env.rereadable ==> !ok && req.status == old(req.status) && req.events == old(req.events)
      ensures gateOnly && env.rereadable && old(req.status) == "blocked" ==>
                && (ok <==> env.unblocked.appended && env.unblocked.projected)
                && req.events == (if env.unblocked.appended then old(req.events) + [ReqResumed] else old(req.events))
                && req.status == if ok then "planned" else "blocked"
    {
      if !gateOnly {
        return true;
      }
      if !env.rereadable {
        return false;
      }
      if req.status != "blocked" {
        return true;
      }
      ok := EmitReqResumed(env.unblocked);
    }

    /** Agents and pipelines move stories, and may pause the requirement; another command may pause
        or archive it. None of them records a completion verdict. */
    method AgentsWork()
      modifies this`stories, req`status
      ensures req.status == old(req.status) || req.status == "paused" || req.status == "archived"
    {
      stories := *;
      var paused: bool, archived: bool := *, *;
      req.status := if paused then "paused" else if archived then "archived" else req.status;
    }

    /** The monitor after its last agent: the verdict on a requirement all of whose stories are done. A
        requirement that cannot be read does not stop it, stories that cannot be listed do. */
    method DispatchNextWave(env: Env) returns (verdict: Option<Verdict>)
      requires gate.log == []
      modifies req, gate
      ensures LastWave(env, old(req.status), AllDone(stories), !gate.cancelled, verdict, old(req.events), req.events, req.status)
    {
      hide IsDone, IsStoryComplete, IsLog, EndsClean, NothingLeftToTry;
      verdict := None;
      if env.seenReadable && req.status == "paused" {
        return;
      }
      if !env.listed {
        return;
      }
      var n := CountComplete(stories);
      if n < |stories| {
        return;
      }
      gate.gapsFile := None;
      if gateWired {
        var v := gate.Run();
        req.RecordGateOutcome(v, env.took);
        return Some(v);
      }
      var ended := gate.Ended();
      if ended {
        return;
      }
      var res: VerificationResult := *;
      ended := gate.Ended();
      req.RecordAdvisoryOutcome(gate, res, ended, env.took);
    }

    /** What the last wave does, given the status it finds: nothing on a paused requirement, or with
        stories that cannot be listed or are not done. Else the gate runs, and its verdict goes to the
        stores; without a gate the requirement completes unless the run was interrupted. */
    ghost predicate LastWave(env: Env, seen: string, done: bool, live: bool, verdict: Option<Verdict>,
                             events: seq<ReqEvent>, events': seq<ReqEvent>, status: string)
      reads gate`log
    {
      if (env.seenReadable && seen == "paused") || !env.listed || !done then
        verdict == None && gate.log == [] && Stores(Took(false, false), ReqCompleted, seen, events, events', status)
      else if gateWired then
        && verdict.Some? && IsLog(gate.log)
        && (verdict.value == Passed <==> live && EndsClean(gate.log))
        && (verdict.value == Interrupted <==> !live)
        && (verdict.value == Blocked ==> NothingLeftToTry(gate.log, gate.client, gate.maxCycles))
        && match verdict.value
           case Interrupted => Stores(Took(false, false), ReqCompleted, seen, events, events', status)
           case Passed => Stores(env.took, ReqCompleted, seen, events, events', status)
           case Blocked => Stores(env.took, ReqBlocked, seen, events, events', status)
      else
        verdict == None && gate.log == []
        && Stores(if live then env.took else Took(false, false), ReqCompleted, seen, events, events', status)
    }

    /** The event is appended and projected exactly as the stores took it. */
    predicate Stores(took: Took, e: ReqEvent, seen: string, events: seq<ReqEvent>, events': seq<ReqEvent>, status: string) {
      && events' == (if took.appended then events + [e] else events)
      && status == if took.projected then (if e == ReqCompleted then "completed" else "blocked") else seen
    }

    /** What a run may do to the verdict: nothing, complete it on a clean verification (always, when
        no gate is wired), or block it on a red one. */
    ghost predicate Verdicts(before: string, after: string, events: seq<ReqEvent>, events': seq<ReqEvent>)
      reads gate`log
    {
      && (after == before || (after == "completed" && Certified()) || (after == "blocked" && Refused()))
      && (events' == events || (events' == events + [ReqCompleted] && Certified())
          || (events' == events + [ReqBlocked] && Refused()))
    }

    ghost predicate Certified()
      reads gate`log
    {
      gateWired ==> IsLog(gate.log) && EndsClean(gate.log)
    }

    ghost predicate Refused()
      reads gate`log
    {
      gateWired && IsLog(gate.log) && NothingLeftToTry(gate.log, gate.client, gate.maxCycles)
    }

    /** What the last wave did is something a run may do to the verdict. */
    lemma LastWaveKeepsVerdicts(env: Env, seen: string, done: bool, live: bool, verdict: Option<Verdict>,
                                events: seq<ReqEvent>, events': seq<ReqEvent>, status: string)
      requires LastWave(env, seen, done, live, verdict, events, events', status)
      ensures Verdicts(seen, status, events, events')
    {
      hide IsLog, EndsClean, NothingLeftToTry;
    }

    method RunWithContext(env: Env) returns (end: Ending)
      requires gate.log == []
      modifies this, req, gate
      ensures end.seen == old(req.status) || end.seen in {"paused", "archived"}
      ensures !end.reached ==> gate.cancelled && req.status == end.seen && req.events == old(req.events) && gate.log == []
                               && end.verdict == None
      ensures end.reached ==> end.live == !gate.cancelled
                              && LastWave(env, end.seen, AllDone(stories), end.live, end.verdict, old(req.events), req.events, req.status)
      ensures Verdicts(end.seen, req.status, old(req.events), req.events)
    {
      hide IsDone, IsStoryComplete, IsLog, EndsClean, NothingLeftToTry, LastWave, Verdicts;
      AgentsWork();
      var seen := req.status;
      var ended := gate.Ended();
      if ended {
        NoVerdicts(seen, req.events);
        return Ending(false, seen, false, None);
      }
      var verdict := DispatchNextWave(env);
      LastWaveKeepsVerdicts(env, seen, AllDone(stories), !gate.cancelled, verdict, old(req.events), req.events, req.status);
      end := Ending(true, seen, !gate.cancelled, verdict);
    }

    lemma NoVerdicts(status: string, events: seq<ReqEvent>)
      ensures Verdicts(status, status, events, events)
    {
    }

    /** The command's error, from what can be read in the end: none on completed or paused, or on a detach
        from agents still at work; a blocked requirement has its own. */
    method FinishResume(env: Env) returns (err: Option<ResumeError>)
      modifies gate`cancelled
      ensures old(gate.cancelled) ==> gate.cancelled
      ensures !env.statusReadable ==> err == Some(NoVerdict)
      ensures env.statusReadable ==>
                && (req.status in {"completed", "paused"} ==> err == None)
                && (req.status == "blocked" ==> err == Some(RequirementBlocked))
                && (req.status !in {"completed", "paused", "blocked"} ==>
                      err == if AllComplete(stories) then Some(NoVerdict) else if gate.cancelled then None else Some(Incomplete))
    {
      if !env.statusReadable {
        return Some(NoVerdict);
      }
      var all := AllStoriesComplete(stories);
      var interrupted := gate.Ended();
      hide ResumeOutcome;
      ExitIsExact(req.status, all, interrupted);
      err := ResumeOutcome(req.status, all, interrupted);
    }

    /** The run gets to its monitor, unless the context ends first: the stores open, a paused requirement is
        resumed, the requirement can be read, the run can be set up, and there is something to do: stories
        left for agents that start, or a composed clean mainline without a verdict, or with a red one that
        a real gate can replace and that can be unblocked. */
    ghost predicate GetsToWork(env: Env, status: string, stories: seq<string>) {
      var now := if status == "paused" then "planned" else status;
      && env.storesOpen && (status == "paused" ==> env.resumed.appended && env.resumed.projected)
      && stories != [] && env.setUp
      && if !AllDone(stories) then !env.noneReady && !env.noAgents
         else
           && env.readable && now !in {"completed", "archived"} && Composed(stories) && !env.dirty && !dryRun && env.rereadable
           && (now == "blocked" ==> gateWired && env.unblocked.appended && env.unblocked.projected)
    }

    /** Opening the stores and setting up the run may fail before anything of the verdict is touched.
        With a gate wired, a run that ends with every story complete succeeds only if the requirement
        is completed, archived or paused, and it becomes completed only on a clean verification.
        A blocked requirement that nothing can verify again stays blocked, and says so. Over an open
        pull request or in a dry run a finished requirement gets no verdict, and no success either.
        A run that gets to work comes to its last wave if the context lives, and what the gate says there is
        what the stores and the caller are told. */
    method RunResume(env: Env) returns (err: Option<ResumeError>, end: Ending)
      requires gate.log == []
      modifies this, req, gate
      ensures err == None && AllComplete(stories) ==> req.status in {"completed", "archived", "paused"}
      ensures req.status == "completed" ==> old(req.status) == "completed" || Certified()
      ensures req.status == "blocked" ==> (old(req.status) == "blocked" || Refused())
                                          && (err != None || !AllComplete(stories))
      ensures forall e :: e in req.events ==> e in old(req.events) || e == ReqResumed
                                              || (e == ReqCompleted && Certified()) || (e == ReqBlocked && Refused())
      ensures old(AllComplete(stories)) && old(req.status) == "blocked" && !gateWired
              ==> err in {Some(RequirementBlocked), Some(Other)} && req.status == "blocked" && req.events == old(req.events)
      ensures old(AllComplete(stories)) && (!old(Composed(stories)) || dryRun)
              ==> req.events in {old(req.events), old(req.events) + [ReqResumed]}
                  && (err == None ==> old(req.status) in {"completed", "archived"})
      ensures GetsToWork(env, old(req.status), old(stories)) && !gate.cancelled ==> end.reached && end.live
      ensures end.reached && gateWired && AllDone(stories) && env.listed && (end.seen != "paused" || !env.seenReadable) ==>
                && end.verdict.Some? && (end.live ==> (end.verdict.value == Passed <==> EndsClean(gate.log)))
                && (env.took.projected && env.statusReadable ==>
                      && (end.verdict.value == Passed ==> req.status == "completed" && err == None)
                      && (end.verdict.value == Blocked ==> req.status == "blocked" && err == Some(RequirementBlocked)))
                && (env.took.appended ==>
                      && (end.verdict.value == Passed ==> req.events != [] && req.events[|req.events| - 1] == ReqCompleted)
                      && (end.verdict.value == Blocked ==> req.events != [] && req.events[|req.events| - 1] == ReqBlocked))
    {
      hide IsDone, IsStoryComplete, IsLog, EndsClean, NothingLeftToTry, GetsToWork, LastWave, AllDone, Composed;
      end := Ending(false, "", false, None);
      var go;
      go, err := Prepare(env);
      if !go {
        return;
      }
      ghost var status, events := req.status, req.events;
      end := RunWithContext(env);
      err := FinishResume(env);
      WaveTells(env, end, AllDone(stories), events, req.events, req.status);
    }

    /** The part of the run before its monitor: it goes on exactly when there is something to do and
        nothing in the way. */
    method Prepare(env: Env) returns (go: bool, err: Option<ResumeError>)
      modifies req
      ensures go <==> GetsToWork(env, old(req.status), stories)
      ensures req.events in {old(req.events), old(req.events) + [ReqResumed]}
      ensures req.status == old(req.status) || (req.status == "planned" && (old(req.status) == "paused" || go))
      ensures !go && err == None && AllComplete(stories) ==> old(req.status) in {"completed", "archived"} && req.status == old(req.status)
      ensures go && AllComplete(stories) ==> req.status != "blocked" && Composed(stories) && !dryRun
      ensures AllComplete(stories) && old(req.status) == "blocked" && !gateWired ==>
                !go && err in {Some(RequirementBlocked), Some(Other)} && req.status == "blocked" && req.events == old(req.events)
      ensures !go && req.status == "blocked" ==> err != None || !AllComplete(stories)
    {
      hide IsDone, IsStoryComplete, PrepareGateOnly;
      go, err := false, Some(Other);
      if !env.storesOpen {
        return;
      }
      if req.status == "paused" {
        var resumed := EmitReqResumed(env.resumed);
        if !resumed {
          return;
        }
      }
      if |stories| == 0 {
        return false, None;
      }
      var n := CountComplete(stories);
      var composed := GateOnlyReady(stories);
      var input := GateOnly(n == |stories|, composed, gateWired, dryRun, env.dirty);
      ComposedIsComplete(stories);
      StoppingIsNotPassing(input, req.status);
      UnreadableStops(input);
      var decision := PrepareGateOnly(input, if env.readable then Some(req.status) else None);
      if decision.Stop? {
        return false, decision.err;
      }
      if decision == Agents {
        if env.noneReady {
          return false, None;
        }
        if env.noAgents {
          return;
        }
      }
      if !env.setUp {
        return;
      }
      go := UnblockForGate(decision == GateAlone, env);
    }

    /** What the gate said in the last wave is in the stores as far as they took it. */
    lemma WaveTells(env: Env, end: Ending, done: bool, events: seq<ReqEvent>, events': seq<ReqEvent>, status: string)
      requires end.reached ==> LastWave(env, end.seen, done, end.live, end.verdict, events, events', status)
      ensures end.reached && gateWired && done && env.listed && (end.seen != "paused" || !env.seenReadable) ==>
                && end.verdict.Some? && (end.live ==> (end.verdict.value == Passed <==> EndsClean(gate.log)))
                && (env.took.projected ==>
                      && (end.verdict.value == Passed ==> status == "completed")
                      && (end.verdict.value == Blocked ==> status == "blocked"))
                && (env.took.appended ==>
                      && (end.verdict.value == Passed ==> events' != [] && events'[|events'| - 1] == ReqCompleted)
                      && (end.verdict.value == Blocked ==> events' != [] && events'[|events'| - 1] == ReqBlocked))
    {
      hide IsLog, EndsClean, NothingLeftToTry;
    }
  }
}
