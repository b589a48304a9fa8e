/** The gate in front of the "requirement completed" signal: verify the composed mainline, let a
    fix agent repair a red one a bounded number of times, and report a verdict, or none when the
    run is interrupted. Verification, the fix agent and the clock of the context are oracles. */
module CompletionGate {
  import opened Strings

  // ----- Verification results -----

  datatype GapKind = Timeout | OtherGap

  datatype Gap = Gap(severity: string, kind: GapKind, detail: string)

  datatype VerificationResult = VerificationResult(buildPasses: bool, testsFailing: int, gaps: seq<Gap>)

  /** The mainline is not fit to be certified. */
  ghost predicate Red(res: VerificationResult) {
    !res.buildPasses || res.testsFailing > 0 || exists g :: g in res.gaps && g.severity in {"critical", "high"}
  }

  /** No fix agent can help: the suite did not finish. */
  ghost predicate Unfixable(res: VerificationResult) {
    exists g :: g in res.gaps && g.kind == Timeout
  }

  method ShouldRunFixCycle(res: VerificationResult) returns (red: bool)
    ensures red <==> Red(res)
  {
    if !res.buildPasses || res.testsFailing > 0 {
      return true;
    }
    for i := 0 to |res.gaps|
      invariant forall j :: 0 <= j < i ==> res.gaps[j].severity !in {"critical", "high"}
    {
      if res.gaps[i].severity == "critical" || res.gaps[i].severity == "high" {
        return true;
      }
    }
    red := false;
  }

  method HasUnfixableGap(res: VerificationResult) returns (found: bool)
    ensures found <==> Unfixable(res)
  {
    for i := 0 to |res.gaps|
      invariant forall j :: 0 <= j < i ==> res.gaps[j].kind != Timeout
    {
      if res.gaps[i].kind == Timeout {
        return true;
      }
    }
    found := false;
  }

  /** What the gaps file says: the gaps, or the bare counts when there is none. */
  datatype Document = GapList(gaps: seq<Gap>) | Summary(buildPasses: bool, testsFailing: int)

  function DocumentFor(res: VerificationResult): Document {
    if res.gaps == [] then Summary(res.buildPasses, res.testsFailing) else GapList(res.gaps)
  }

  // ----- The log of a run -----

  /** `Recorded` is an attempt to write the gaps file; `Pulled` removes it. */
  datatype Act =
    | Verified(cycle: nat, res: VerificationResult)
    | Recorded(doc: Document)
    | Fixed(ok: bool)
    | Pulled

  function Last(log: seq<Act>): (a: Act)
    requires log != []
  {
    log[|log| - 1]
  }

  function Verifications(log: seq<Act>): nat {
    if log == [] then 0 else Verifications(log[..|log| - 1]) + if Last(log).Verified? then 1 else 0
  }

  /** Calls of the fix agent. */
  function Dispatches(log: seq<Act>): nat {
    if log == [] then 0 else Dispatches(log[..|log| - 1]) + if Last(log).Fixed? then 1 else 0
  }

  /** Calls of the fix agent that went through. */
  function Fixes(log: seq<Act>): nat {
    if log == [] then 0 else Fixes(log[..|log| - 1]) + if Last(log) == Fixed(true) then 1 else 0
  }

  /** The result the gate decides on. */
  function Latest(log: seq<Act>): Option<VerificationResult> {
    if log == [] then None
    else if Last(log).Verified? then Some(Last(log).res)
    else Latest(log[..|log| - 1])
  }

  /** When an act may follow a log: verify first and after every pull, under the next cycle number;
      record a red result, after its verification and when giving up; fix only what was just found
      red and fixable, and recorded; pull after every fix. */
  ghost predicate MayFollow(log: seq<Act>, a: Act) {
    match a
    case Verified(cycle, _) => (log == [] || Last(log) == Pulled) && cycle == Verifications(log) + 1
    case Recorded(doc) =>
      && log != [] && Last(log) != Fixed(true) && Last(log) != Pulled
      && Latest(log).Some? && Red(Latest(log).value) && doc == DocumentFor(Latest(log).value)
    case Fixed(_) =>
      && |log| >= 2 && Last(log).Recorded? && log[|log| - 2].Verified?
      && Red(log[|log| - 2].res) && !Unfixable(log[|log| - 2].res)
    case Pulled => log != [] && Last(log) == Fixed(true)
  }

  ghost predicate IsLog(log: seq<Act>) {
    log == [] || (IsLog(log[..|log| - 1]) && MayFollow(log[..|log| - 1], Last(log)))
  }

  lemma Grow(log: seq<Act>, a: Act)
    requires IsLog(log) && MayFollow(log, a)
    ensures IsLog(log + [a]) && Last(log + [a]) == a
    ensures Verifications(log + [a]) == Verifications(log) + if a.Verified? then 1 else 0
    ensures Dispatches(log + [a]) == Dispatches(log) + if a.Fixed? then 1 else 0
    ensures Fixes(log + [a]) == Fixes(log) + if a == Fixed(true) then 1 else 0
  {
    assert (log + [a])[..|log|] == log;
  }

  /** One verification more than completed fixes, once the fix in hand has been verified. */
  lemma {:induction false} VerificationsOneAhead(log: seq<Act>)
    requires IsLog(log) && log != []
    ensures Verifications(log) == Fixes(log) + if Last(log) == Fixed(true) || Last(log) == Pulled then 0 else 1
  {
    var before := log[..|log| - 1];
    if before != [] {
      VerificationsOneAhead(before);
    }
  }

  /** After a fix that did not go through, the latest result is still the one it was sent to repair. */
  lemma {:induction false} FailedFixWasNeeded(log: seq<Act>)
    requires IsLog(log) && log != [] && Last(log).Fixed?
    ensures Latest(log).Some? && Red(Latest(log).value) && !Unfixable(Latest(log).value)
  {
    hide Red, Unfixable;
    var before := log[..|log| - 1];
    assert before[..|before| - 1][|before| - 2] == log[|log| - 3];
    assert Latest(log) == Latest(before) == Latest(before[..|before| - 1]);
  }

  ghost predicate EndsClean(log: seq<Act>) {
    log != [] && Last(log).Verified? && !Red(Last(log).res)
  }

  /** A clean verification is never followed by anything: the run stops there. */
  lemma {:induction false} CleanIsLast(log: seq<Act>, i: nat)
    requires IsLog(log) && i < |log| && log[i].Verified? && !Red(log[i].res)
    ensures i == |log| - 1
  {
    hide Unfixable, Red, DocumentFor;
    if i < |log| - 1 {
      CleanIsLast(log[..|log| - 1], i);
    }
  }

  // ----- What the gaps file says after a run -----

  /** The gaps file, given what it held before. */
  function OnFile(log: seq<Act>, writable: bool, before: Option<Document>): Option<Document> {
    if log == [] then before
    else match Last(log)
      case Recorded(doc) => if writable then Some(doc) else OnFile(log[..|log| - 1], writable, before)
      case Pulled => None
      case _ => OnFile(log[..|log| - 1], writable, before)
  }

  /** Something has been recorded and not been pulled away since. */
  ghost predicate RecordStands(log: seq<Act>) {
    exists i :: 0 <= i < |log| && log[i].Recorded? && Pulled !in log[i..]
  }

  lemma RecordStandsStep(log: seq<Act>, a: Act)
    ensures RecordStands(log + [a]) <==> a.Recorded? || (RecordStands(log) && a != Pulled)
  {
    var longer := log + [a];
    if a.Recorded? {
      assert longer[|log|].Recorded? && longer[|log|..] == [a];
    }
    if RecordStands(log) && a != Pulled {
      var i :| 0 <= i < |log| && log[i].Recorded? && Pulled !in log[i..];
      assert longer[i].Recorded? && longer[i..] == log[i..] + [a];
    }
    if RecordStands(longer) && !a.Recorded? {
      var i :| 0 <= i < |longer| && longer[i].Recorded? && Pulled !in longer[i..];
      assert longer[i..] == log[i..] + [a];
      assert a in longer[i..];
      assert log[i].Recorded?;
    }
  }

  /** While a record stands it is of the latest result: verifying again takes a pull in between. */
  lemma {:induction false} StandingIsLatest(log: seq<Act>, before: Option<Document>)
    requires IsLog(log)
    ensures RecordStands(log) ==> Latest(log).Some? && Red(Latest(log).value)
    ensures OnFile(log, true, before) == if RecordStands(log) then Some(DocumentFor(Latest(log).value))
                                         else if Pulled in log then None else before
    ensures RecordStands(log) ==> Last(log).Recorded? || Last(log).Fixed?
  {
    if log != [] {
      hide RecordStands, Red, Unfixable, DocumentFor, Verifications;
      var init, a := log[..|log| - 1], Last(log);
      assert log == init + [a];
      StandingIsLatest(init, before);
      RecordStandsStep(init, a);
    } else {
      assert !RecordStands(log);
    }
  }

  /** Of the logs a run can end with, those in which the latest red result is still on record are
      exactly those that do not end with its verification. */
  lemma StandsUnlessJustVerified(log: seq<Act>)
    requires IsLog(log) && log != []
    requires Last(log).Verified? || Last(log).Recorded? || Last(log) == Fixed(false)
    ensures RecordStands(log) <==> !Last(log).Verified?
  {
    hide Red, Unfixable, DocumentFor, Verifications;
    var init, a := log[..|log| - 1], Last(log);
    assert log == init + [a];
    RecordStandsStep(init, a);
    if a.Verified? {
      StandingIsLatest(log, None);
    } else if a.Fixed? {
      assert init == init[..|init| - 1] + [Last(init)];
      RecordStandsStep(init[..|init| - 1], Last(init));
    }
  }

  /** An interruption that leaves nothing on file: after the pull that follows a fix, the mainline
      still being red. */
  lemma InterruptedAfterPull(res: VerificationResult, before: Option<Document>)
    requires Red(res) && !Unfixable(res)
    ensures var log := [Verified(1, res), Recorded(DocumentFor(res)), Fixed(true), Pulled, Verified(2, res)];
            IsLog(log) && Red(Latest(log).value) && OnFile(log, true, before) == None
  {
    hide Red, Unfixable, DocumentFor;
    var a, b, c, d, e := Verified(1, res), Recorded(DocumentFor(res)), Fixed(true), Pulled, Verified(2, res);
    StartOfLog([]);
    Grow([], a);
    assert [] + [a] == [a];
    assert Latest([a]) == Some(res);
    Grow([a], b);
    assert [a] + [b] == [a, b];
    Grow([a, b], c);
    assert [a, b] + [c] == [a, b, c];
    Grow([a, b, c], d);
    assert [a, b, c] + [d] == [a, b, c, d];
    Grow([a, b, c, d], e);
    assert [a, b, c, d] + [e] == [a, b, c, d, e];
    assert [a, b, c, d, e][..4] == [a, b, c, d];
  }

  // ----- The gate -----

  datatype Verdict = Passed | Blocked | Interrupted

  /** Why a red mainline was not worked on any further. */
  ghost predicate NothingLeftToTry(log: seq<Act>, client: bool, maxCycles: int) {
    && Latest(log).Some? && Red(Latest(log).value)
    && (Unfixable(Latest(log).value) || !client || FixFailed(log) || Dispatches(log) >= maxCycles)
  }

  /** The last fix did not go through; what it was to repair may have been recorded once more. */
  predicate FixFailed(log: seq<Act>) {
    log != [] && (Last(log) == Fixed(false) || (|log| >= 2 && Last(log).Recorded? && log[|log| - 2] == Fixed(false)))
  }

  function Budget(maxCycles: int): nat {
    if maxCycles > 0 then maxCycles else 0
  }

  class Gate {
    const client: bool
    const maxCycles: int
    /** Whether the gaps file can be written at all. */
    const writable: bool
    /** The context has ended; it never comes back. */
    var cancelled: bool
    var log: seq<Act>
    var gapsFile: Option<Document>

    constructor (client: bool, maxCycles: int, writable: bool)
      ensures this.client == client && this.maxCycles == maxCycles && this.writable == writable
      ensures !cancelled && log == []
    {
      this.client, this.maxCycles, this.writable := client, maxCycles, writable;
      cancelled, log, gapsFile := false, [], None;
    }

    method Ended() returns (ended: bool)
      modifies this`cancelled
      ensures ended == cancelled && (old(cancelled) ==> cancelled)
    {
      var now: bool := *;
      cancelled := cancelled || now;
      ended := cancelled;
    }

    method Verify(cycle: nat) returns (res: VerificationResult)
      modifies this`log
      ensures log == old(log) + [Verified(cycle, res)]
    {
      res := *;
      log := log + [Verified(cycle, res)];
    }

    method ApplyFix() returns (ok: bool)
      modifies this`log
      ensures log == old(log) + [Fixed(ok)]
    {
      ok := *;
      log := log + [Fixed(ok)];
    }

    /** Pulling the base branch removes the gaps file. */
    method Pull()
      modifies this`log, this`gapsFile
      ensures log == old(log) + [Pulled] && gapsFile == None
    {
      log := log + [Pulled];
      gapsFile := None;
    }

    method WriteGaps(doc: Document)
      modifies this`gapsFile
      ensures gapsFile == if writable then Some(doc) else old(gapsFile)
    {
      if writable {
        gapsFile := Some(doc);
      }
    }

    method RecordRedCycle(res: VerificationResult)
      modifies this`log, this`gapsFile
      ensures log == old(log) + [Recorded(DocumentFor(res))]
      ensures gapsFile == if writable then Some(DocumentFor(res)) else old(gapsFile)
      ensures writable ==>
                gapsFile == Some(if res.gaps != [] then GapList(res.gaps) else Summary(res.buildPasses, res.testsFailing))
    {
      log := log + [Recorded(DocumentFor(res))];
      WriteGaps(DocumentFor(res));
    }

    /** The gaps file is what the log makes of the one there was at the start. */
    ghost predicate Files(start: Option<Document>)
      reads this
    {
      gapsFile == OnFile(log, writable, start)
    }

    /** One attempt. `fixed` says that a fix ran and `next` is the fresh result; otherwise `next` is
        the result it started from, and nothing more can be tried unless the context has ended. */
    method FixCycle(cycle: nat, res: VerificationResult, ghost start: Option<Document>)
      returns (next: VerificationResult, fixed: bool, interrupted: bool)
      requires IsLog(log) && log != [] && Last(log) == Verified(cycle, res) && cycle == Verifications(log)
      requires Red(res) && !cancelled && Files(start)
      modifies this
      ensures IsLog(log) && log != [] && Latest(log) == Some(next) && (interrupted <==> cancelled) && Files(start)
      ensures Dispatches(log) <= Dispatches(old(log)) + 1
      ensures Fixes(log) - Fixes(old(log)) <= Dispatches(log) - Dispatches(old(log))
      ensures fixed ==> Last(log) == Verified(cycle + 1, next) && Verifications(log) == cycle + 1
                        && Dispatches(log) == Dispatches(old(log)) + 1 && !interrupted
      ensures !fixed ==> Last(log) == Fixed(false) || interrupted || Unfixable(res) || !client
      ensures !fixed && !interrupted ==> next == res
      ensures (Last(log).Verified? || Last(log).Recorded? || Last(log) == Fixed(false)) && Verifications(log) == Fixes(log) + 1
      ensures !client ==> Dispatches(log) == Dispatches(old(log))
    {
      hide Red, Unfixable, IsLog, Verifications, Dispatches, Fixes, DocumentFor, OnFile;
      VerificationsOneAhead(log);
      var unfixable := HasUnfixableGap(res);
      if unfixable {
        return res, false, false;
      }
      ghost var before := log;
      var doc := DocumentFor(res);
      RecordRedCycle(res);
      FileStep(before, Recorded(doc), writable, start);
      Grow(before, Recorded(doc));
      LatestUnchanged(before, Recorded(doc));
      VerificationsOneAhead(log);
      if !client {
        return res, false, false;
      }
      interrupted := Ended();
      if interrupted {
        return res, false, true;
      }
      before := log;
      var ok := ApplyFix();
      FileStep(before, Fixed(ok), writable, start);
      Grow(before, Fixed(ok));
      LatestUnchanged(before, Fixed(ok));
      if !ok {
        VerificationsOneAhead(log);
        interrupted := Ended();
        return res, false, interrupted;
      }
      before := log;
      Pull();
      FileStep(before, Pulled, writable, start);
      Grow(before, Pulled);
      before := log;
      next := Verify(cycle + 1);
      FileStep(before, Verified(cycle + 1, next), writable, start);
      Grow(before, Verified(cycle + 1, next));
      VerificationsOneAhead(log);
      interrupted := Ended();
      fixed := !interrupted;
    }

    /** Passes exactly when the context is still live after a clean verification; blocks only on a
        red result that is on file and that nothing is left to try on. The gaps file is what the log
        says, and the red result of a run that does not pass stands recorded exactly when the run did
        not end with its verification: always when it blocks, and when it is interrupted before or
        during a fix. */
    method Run() returns (verdict: Verdict)
      requires log == []
      modifies this
      ensures IsLog(log) && Dispatches(log) <= Budget(maxCycles) && (!client ==> Dispatches(log) == 0)
      ensures log != [] ==> Verifications(log) == Fixes(log) + 1 && Fixes(log) <= Budget(maxCycles)
      ensures verdict == Interrupted <==> cancelled
      ensures verdict == Passed <==> !cancelled && EndsClean(log)
      ensures verdict == Blocked ==> NothingLeftToTry(log, client, maxCycles) && Last(log).Recorded?
      ensures verdict == Blocked && writable ==> gapsFile == Some(DocumentFor(Latest(log).value))
      ensures gapsFile == OnFile(log, writable, old(gapsFile))
      ensures log != [] ==> (RecordStands(log) <==> !Last(log).Verified?) && Latest(log).Some?
      ensures verdict == Interrupted && writable && log != [] && !Last(log).Verified?
              ==> gapsFile == Some(DocumentFor(Latest(log).value))
      ensures old(cancelled) ==> log == []
      ensures log != [] ==> Last(log).Verified? || Last(log).Recorded? || Last(log) == Fixed(false)
    {
      ghost var start := gapsFile;
      verdict := Decide(start);
      if log != [] {
        StandsUnlessJustVerified(log);
        StandingIsLatest(log, start);
        LatestExists(log);
      }
    }

    method Decide(ghost start: Option<Document>) returns (verdict: Verdict)
      requires log == [] && gapsFile == start
      modifies this
      ensures IsLog(log) && Dispatches(log) <= Budget(maxCycles) && (!client ==> Dispatches(log) == 0)
      ensures log != [] ==> Verifications(log) == Fixes(log) + 1 && Fixes(log) <= Budget(maxCycles)
      ensures verdict == Interrupted <==> cancelled
      ensures verdict == Passed <==> !cancelled && EndsClean(log)
      ensures verdict == Blocked ==> NothingLeftToTry(log, client, maxCycles) && Last(log).Recorded?
      ensures Files(start) && (old(cancelled) ==> log == [])
      ensures log != [] ==> Last(log).Verified? || Last(log).Recorded? || Last(log) == Fixed(false)
    {
      hide Red, Unfixable, IsLog, Verifications, Dispatches, Fixes, DocumentFor, OnFile;
      StartOfLog(log);
      NothingFiled(writable, start);
      var ended := Ended();
      if ended {
        return Interrupted;
      }
      var cycle, fixes := 1, 0;
      var res := Verify(cycle);
      Grow([], Verified(1, res));
      FileStep([], Verified(1, res), writable, start);
      assert [] + [Verified(1, res)] == log;
      VerificationsOneAhead(log);
      ended := Ended();
      if ended {
        return Interrupted;
      }
      var red := ShouldRunFixCycle(res);
      if !red {
        return Passed;
      }
      var attempt := 1;
      while attempt <= maxCycles
        invariant 1 <= attempt && (attempt <= maxCycles + 1 || attempt == 1)
        invariant IsLog(log) && log != [] && Last(log) == Verified(cycle, res) && cycle == Verifications(log)
        invariant Red(res) && !cancelled && Verifications(log) == Fixes(log) + 1 && Fixes(log) <= Dispatches(log)
        invariant Dispatches(log) == attempt - 1 && (!client ==> Dispatches(log) == 0) && Files(start)
      {
        var next, fixed, interrupted := FixCycle(cycle, res, start);
        if interrupted {
          return Interrupted;
        }
        res := next;
        if !fixed {
          break;
        }
        cycle := cycle + 1;
        fixes := fixes + 1;
        red := ShouldRunFixCycle(res);
        if !red {
          return Passed;
        }
        attempt := attempt + 1;
      }
      Block(res, start);
      verdict := Blocked;
    }

    /** Puts the final red state on file. */
    method Block(res: VerificationResult, ghost start: Option<Document>)
      requires IsLog(log) && log != [] && Latest(log) == Some(res) && Red(res) && Files(start)
      requires Last(log).Verified? || Last(log).Recorded? || Last(log) == Fixed(false)
      modifies this`log, this`gapsFile
      ensures IsLog(log) && log == old(log) + [Recorded(DocumentFor(res))] && Latest(log) == Some(res) && Files(start)
      ensures Verifications(log) == Verifications(old(log)) && Dispatches(log) == Dispatches(old(log))
      ensures Fixes(log) == Fixes(old(log)) && (Last(old(log)) == Fixed(false) ==> FixFailed(log))
    {
      hide Red, Unfixable, IsLog, Verifications, Dispatches, Fixes, DocumentFor, OnFile;
      ghost var before := log;
      RecordRedCycle(res);
      FileStep(before, Recorded(DocumentFor(res)), writable, start);
      Grow(before, Recorded(DocumentFor(res)));
      LatestUnchanged(before, Recorded(DocumentFor(res)));
    }
  }

  lemma {:induction false} LatestExists(log: seq<Act>)
    requires IsLog(log) && log != []
    ensures Latest(log).Some?
  {
    if |log| > 1 {
      LatestExists(log[..|log| - 1]);
    }
  }

  lemma NothingFiled(writable: bool, start: Option<Document>)
    ensures OnFile([], writable, start) == start
  {
  }

  lemma FileStep(log: seq<Act>, a: Act, writable: bool, start: Option<Document>)
    ensures OnFile(log + [a], writable, start)
            == match a
               case Recorded(doc) => if writable then Some(doc) else OnFile(log, writable, start)
               case Pulled => None
               case _ => OnFile(log, writable, start)
  {
    assert (log + [a])[..|log|] == log;
  }

  lemma StartOfLog(log: seq<Act>)
    requires log == []
    ensures IsLog(log) && Verifications(log) == 0 && Dispatches(log) == 0 && Fixes(log) == 0
  {
  }

  lemma LatestUnchanged(log: seq<Act>, a: Act)
    requires !a.Verified?
    ensures Latest(log + [a]) == Latest(log)
  {
    assert (log + [a])[..|log|] == log;
  }

  // ----- What the monitor records -----

  datatype ReqEvent = ReqCompleted | ReqBlocked | ReqResumed | ReqPaused

  /** What the two stores did with an event. */
  datatype Took = Took(appended: bool, projected: bool)

  function StatusAfter(e: ReqEvent): string {
    match e
    case ReqCompleted => "completed"
    case ReqBlocked => "blocked"
    case ReqResumed => "planned"
    case ReqPaused => "paused"
  }

  /** A requirement as the stores know it: the status of the projection and the event log. */
  class Requirement {
    var status: string
    var events: seq<ReqEvent>

    constructor (status: string)
      ensures this.status == status && events == []
    {
      this.status, events := status, [];
    }

    /** Appends and projects; either may fail, and a failure is only logged. */
    method EmitOutcome(e: ReqEvent, took: Took)
      modifies this
      ensures events == if took.appended then old(events) + [e] else old(events)
      ensures status == if took.projected then StatusAfter(e) else old(status)
    {
      if took.appended {
        events := events + [e];
      }
      if took.projected {
        status := StatusAfter(e);
      }
    }

    method RecordGateOutcome(verdict: Verdict, took: Took)
      modifies this
      ensures verdict == Interrupted ==> events == old(events) && status == old(status)
      ensures verdict == Passed ==> events == (if took.appended then old(events) + [ReqCompleted] else old(events))
                                    && status == if took.projected then "completed" else old(status)
      ensures verdict == Blocked ==> events == (if took.appended then old(events) + [ReqBlocked] else old(events))
                                     && status == if took.projected then "blocked" else old(status)
    {
      match verdict
      case Interrupted =>
      case Passed => EmitOutcome(ReqCompleted, took);
      case Blocked => EmitOutcome(ReqBlocked, took);
    }

    /** Without a gate a red result is put on file, if there is a gap to list, and the requirement
        completes all the same; an interrupted run still records nothing. */
    method RecordAdvisoryOutcome(g: Gate, res: VerificationResult, interrupted: bool, took: Took)
      modifies this, g`gapsFile
      ensures interrupted ==> events == old(events) && status == old(status) && g.gapsFile == old(g.gapsFile)
      ensures !interrupted ==> events == (if took.appended then old(events) + [ReqCompleted] else old(events))
                               && status == if took.projected then "completed" else old(status)
      ensures !interrupted && Red(res) && res.gaps != [] && g.writable ==> g.gapsFile == Some(GapList(res.gaps))
      ensures !Red(res) || res.gaps == [] || !g.writable ==> g.gapsFile == old(g.gapsFile)
    {
      hide Red;
      if interrupted {
        return;
      }
      var red := ShouldRunFixCycle(res);
      if red && res.gaps != [] {
        g.WriteGaps(GapList(res.gaps));
      }
      EmitOutcome(ReqCompleted, took);
    }
  }
}
