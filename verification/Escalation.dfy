/** The escalation ladder: tiers and retry counts are recomputed from an append-only event
    log by comparing timestamps. */
module Escalation {

  datatype Kind = Escalated(toTier: int) | ReviewFailed | QaFailed | Reset | OtherKind

  /** Time 0 is Go's zero time; a recorded event is later than that. */
  datatype Event = Event(story: string, kind: Kind, time: nat)

  predicate IsFailure(e: Event) {
    e.kind.ReviewFailed? || e.kind.QaFailed?
  }

  function Max(a: int, b: int): int {
    if a >= b then a else b
  }

  // ----- What the queries answer, by timestamps -----

  function LatestReset(log: seq<Event>, story: string): nat {
    if log == [] then 0
    else
      var r, e := LatestReset(log[..|log| - 1], story), log[|log| - 1];
      if e.story == story && e.kind.Reset? && e.time > r then e.time else r
  }

  /** The highest target tier of the escalations after time t, and 0 if there is none. */
  function TierSince(log: seq<Event>, story: string, t: nat): int {
    if log == [] then 0
    else
      var m, e := TierSince(log[..|log| - 1], story, t), log[|log| - 1];
      if e.story == story && e.kind.Escalated? && e.time > t && e.kind.toTier > m then e.kind.toTier else m
  }

  function LatestEscalation(log: seq<Event>, story: string, floor: nat): nat {
    if log == [] then floor
    else
      var r, e := LatestEscalation(log[..|log| - 1], story, floor), log[|log| - 1];
      if e.story == story && e.kind.Escalated? && e.time > r then e.time else r
  }

  function FailuresSince(log: seq<Event>, story: string, after: nat): nat {
    if log == [] then 0
    else
      var e := log[|log| - 1];
      FailuresSince(log[..|log| - 1], story, after)
      + if e.story == story && IsFailure(e) && (after == 0 || e.time > after) then 1 else 0
  }

  function TierOf(log: seq<Event>, story: string): int {
    TierSince(log, story, LatestReset(log, story))
  }

  function RetriesOf(log: seq<Event>, story: string): nat {
    FailuresSince(log, story, LatestEscalation(log, story, LatestReset(log, story)))
  }

  // ----- What they mean: a two-counter automaton fed the events in order -----

  datatype Rung = Rung(tier: int, retries: nat)

  function Feed(r: Rung, e: Event, story: string): Rung {
    if e.story != story then r
    else match e.kind
      case Reset => Rung(0, 0)
      case Escalated(to) => Rung(Max(r.tier, to), 0)
      case ReviewFailed => Rung(r.tier, r.retries + 1)
      case QaFailed => Rung(r.tier, r.retries + 1)
      case OtherKind => r
  }

  function RungOf(log: seq<Event>, story: string): Rung {
    if log == [] then Rung(0, 0) else Feed(RungOf(log[..|log| - 1], story), log[|log| - 1], story)
  }

  /** Every event is later than the one before it, and than the zero time. */
  ghost predicate Chronological(log: seq<Event>) {
    && (forall i :: 0 <= i < |log| ==> log[i].time > 0)
    && forall i, j :: 0 <= i < j < |log| ==> log[i].time < log[j].time
  }

  ghost predicate NoLaterThan(log: seq<Event>, t: nat) {
    forall i :: 0 <= i < |log| ==> log[i].time <= t
  }

  /** Nothing in the log is later than t: the queries from t on find nothing. */
  lemma {:induction false} NothingSince(log: seq<Event>, story: string, t: nat)
    requires NoLaterThan(log, t) && t > 0
    ensures LatestReset(log, story) <= t && TierSince(log, story, t) == 0
    ensures LatestEscalation(log, story, t) == t && FailuresSince(log, story, t) == 0
  {
    if log != [] {
      NothingSince(log[..|log| - 1], story, t);
    }
  }

  lemma {:induction false} QueriesBounded(log: seq<Event>, story: string, t: nat, floor: nat)
    requires NoLaterThan(log, t) && floor <= t
    ensures LatestReset(log, story) <= t && floor <= LatestEscalation(log, story, floor) <= t
    ensures TierSince(log, story, floor) >= 0
  {
    if log != [] {
      QueriesBounded(log[..|log| - 1], story, t, floor);
    }
  }

  /** On a chronological log the timestamp queries compute the automaton. */
  lemma {:induction false} QueriesFollowAutomaton(log: seq<Event>, story: string)
    requires Chronological(log)
    ensures RungOf(log, story) == Rung(TierOf(log, story), RetriesOf(log, story))
  {
    if log != [] {
      var init, e := log[..|log| - 1], log[|log| - 1];
      QueriesFollowAutomaton(init, story);
      var reset := LatestReset(init, story);
      QueriesBounded(init, story, e.time - 1, 0);
      QueriesBounded(init, story, e.time - 1, reset);
      NothingSince(init, story, e.time);
    }
  }

  datatype Routing = Routing(maxRetriesBeforeEscalation: int, maxSeniorRetries: int, maxManagerAttempts: int)

  function MaxRetriesForTier(cfg: Routing, tier: int): int {
    match tier
    case 0 => cfg.maxRetriesBeforeEscalation
    case 1 => cfg.maxSeniorRetries
    case 2 => cfg.maxManagerAttempts
    case 3 => 1
    case _ => 0
  }

  predicate LimitReached(cfg: Routing, log: seq<Event>, story: string) {
    RetriesOf(log, story) >= MaxRetriesForTier(cfg, TierOf(log, story))
  }

  predicate Pauses(cfg: Routing, log: seq<Event>, story: string) {
    LimitReached(cfg, log, story) && TierOf(log, story) + 1 >= 4
  }

  /** The log after the monitor's resetStoryToDraft, when the store answers. */
  function AfterReset(cfg: Routing, log: seq<Event>, story: string, at: nat, later: nat): seq<Event> {
    if Pauses(cfg, log, story) then log
    else if LimitReached(cfg, log, story) then
      log + [Event(story, Escalated(TierOf(log, story) + 1), at)] + [Event(story, ReviewFailed, later)]
    else log + [Event(story, ReviewFailed, at)]
  }

  /** What the store did: whether the ladder could be read, and which of the appends took. */
  datatype Answers = Answers(read: bool, first: bool, second: bool)

  /** The same with a store that may fail: an unreadable ladder does not escalate, and an append
      that fails is only logged. */
  function AfterResetWith(cfg: Routing, log: seq<Event>, story: string, at: nat, later: nat, a: Answers): seq<Event> {
    if a.read && Pauses(cfg, log, story) then log
    else if a.read && LimitReached(cfg, log, story) then
      log + (if a.first then [Event(story, Escalated(TierOf(log, story) + 1), at)] else [])
      + if a.second then [Event(story, ReviewFailed, later)] else []
    else log + if a.first then [Event(story, ReviewFailed, at)] else []
  }

  /** Whatever the store does, the old log stays, at most these two events come after it in this order, and
      each of them is there exactly when it was due and its append took. */
  lemma StoreFaultsOnlyDrop(cfg: Routing, log: seq<Event>, story: string, at: nat, later: nat, a: Answers)
    ensures var after := AfterResetWith(cfg, log, story, at, later, a);
            var tier := TierOf(log, story);
            var climbs := a.read && LimitReached(cfg, log, story) && tier < 3;
            var fails := !a.read || !LimitReached(cfg, log, story) || tier < 3;
            var up := Event(story, Escalated(tier + 1), at);
            var again := Event(story, ReviewFailed, if climbs then later else at);
            && log <= after
            && (up in after[|log|..] <==> climbs && a.first)
            && (again in after[|log|..] <==> fails && if climbs then a.second else a.first)
            && (forall e :: e in after[|log|..] ==> e == up || e == again)
            && |after| <= |log| + 2
            && (|after| == |log| + 2 ==> after[|log|] == up)
  {
    hide TierOf, RetriesOf, MaxRetriesForTier;
    var after := AfterResetWith(cfg, log, story, at, later, a);
    var up := Event(story, Escalated(TierOf(log, story) + 1), at);
    if a.read && Pauses(cfg, log, story) {
      assert after[|log|..] == [];
    } else if a.read && LimitReached(cfg, log, story) {
      var first, second := if a.first then [up] else [], if a.second then [Event(story, ReviewFailed, later)] else [];
      assert after == log + first + second;
      assert after[|log|..] == first + second;
    } else {
      assert after[|log|..] == if a.first then [Event(story, ReviewFailed, at)] else [];
    }
  }

  // ----- The queries as they run -----

  class EventStore {
    var log: seq<Event>

    constructor ()
      ensures log == []
    {
      log := [];
    }

    method Append(e: Event) returns (ok: bool)
      modifies this
      ensures log == old(log) + if ok then [e] else []
    {
      ok := *;
      if ok {
        log := log + [e];
      }
    }
  }

  class EscalationMachine {
    const store: EventStore
    const routing: Routing

    constructor (store: EventStore, routing: Routing)
      ensures this.store == store && this.routing == routing
    {
      this.store, this.routing := store, routing;
    }

    method LatestResetTime(story: string) returns (latest: nat)
      ensures latest == LatestReset(store.log, story)
    {
      latest := 0;
      for i := 0 to |store.log|
        invariant latest == LatestReset(store.log[..i], story)
      {
        var e := store.log[i];
        assert store.log[..i + 1][..i] == store.log[..i];
        if e.story == story && e.kind.Reset? && e.time > latest {
          latest := e.time;
        }
      }
      assert store.log[..|store.log|] == store.log;
    }

    method CurrentTier(story: string) returns (maxTier: int)
      ensures maxTier == TierOf(store.log, story)
    {
      var resetAt := LatestResetTime(story);
      maxTier := 0;
      for i := 0 to |store.log|
        invariant maxTier == TierSince(store.log[..i], story, resetAt)
      {
        var e := store.log[i];
        assert store.log[..i + 1][..i] == store.log[..i];
        if e.story != story || !e.kind.Escalated? || !(e.time > resetAt) {
          continue;
        }
        if e.kind.toTier > maxTier {
          maxTier := e.kind.toTier;
        }
      }
      assert store.log[..|store.log|] == store.log;
    }

    method LastEscalationTime(story: string) returns (latest: nat)
      ensures latest == LatestEscalation(store.log, story, LatestReset(store.log, story))
    {
      var resetAt := LatestResetTime(story);
      latest := resetAt;
      for i := 0 to |store.log|
        invariant latest == LatestEscalation(store.log[..i], story, resetAt)
      {
        var e := store.log[i];
        assert store.log[..i + 1][..i] == store.log[..i];
        if e.story == story && e.kind.Escalated? && e.time > latest {
          latest := e.time;
        }
      }
      assert store.log[..|store.log|] == store.log;
    }

    method RetryCountAtCurrentTier(story: string) returns (count: nat)
      ensures count == RetriesOf(store.log, story)
    {
      var after := LastEscalationTime(story);
      var reviewCount, qaCount := 0, 0;
      for i := 0 to |store.log|
        invariant reviewCount + qaCount == FailuresSince(store.log[..i], story, after)
      {
        var e := store.log[i];
        assert store.log[..i + 1][..i] == store.log[..i];
        if e.story == story && (after == 0 || e.time > after) {
          if e.kind.ReviewFailed? {
            reviewCount := reviewCount + 1;
          } else if e.kind.QaFailed? {
            qaCount := qaCount + 1;
          }
        }
      }
      assert store.log[..|store.log|] == store.log;
      count := reviewCount + qaCount;
    }

    method ShouldEscalate(story: string) returns (escalate: bool, tier: int)
      ensures escalate <==> LimitReached(routing, store.log, story)
      ensures TierOf(store.log, story) == 0 ==>
                (escalate <==> RetriesOf(store.log, story) >= routing.maxRetriesBeforeEscalation)
      ensures TierOf(store.log, story) == 1 ==>
                (escalate <==> RetriesOf(store.log, story) >= routing.maxSeniorRetries)
      ensures TierOf(store.log, story) == 2 ==>
                (escalate <==> RetriesOf(store.log, story) >= routing.maxManagerAttempts)
      ensures TierOf(store.log, story) == 3 ==> (escalate <==> RetriesOf(store.log, story) >= 1)
      ensures TierOf(store.log, story) > 3 ==> escalate
      ensures tier == TierOf(store.log, story) + if escalate then 1 else 0
    {
      tier := CurrentTier(story);
      var count := RetryCountAtCurrentTier(story);
      escalate := count >= MaxRetriesForTier(routing, tier);
      if escalate {
        tier := tier + 1;
      }
    }

    /** The monitor's resetStoryToDraft, at the given times. Returns true when the ladder is
        exhausted and the requirement is paused instead. */
    method ResetStoryToDraft(story: string, at: nat, later: nat) returns (paused: bool, answers: Answers)
      modifies store
      ensures paused <==> answers.read && Pauses(routing, old(store.log), story)
      ensures store.log == AfterResetWith(routing, old(store.log), story, at, later, answers)
      ensures answers == Answers(true, true, true) ==>
                store.log == AfterReset(routing, old(store.log), story, at, later)
    {
      var readable: bool := *;
      answers := Answers(readable, true, true);
      var escalate, next := false, 0;
      if readable {
        escalate, next := ShouldEscalate(story);
      }
      paused := escalate && next >= 4;
      if paused {
        return;
      }
      var ok;
      if escalate {
        ok := store.Append(Event(story, Escalated(next), at));
        answers := answers.(first := ok);
        ok := store.Append(Event(story, ReviewFailed, later));
        answers := answers.(second := ok);
      } else {
        ok := store.Append(Event(story, ReviewFailed, at));
        answers := answers.(first := ok);
      }
    }
  }

  // ----- What follows for every log -----

  /** Between resets the tier never drops, whatever is appended; a reset restarts it. */
  lemma TierNeverDrops(log: seq<Event>, story: string, e: Event)
    requires Chronological(log + [e])
    ensures e.story == story && e.kind.Reset? ==>
              TierOf(log + [e], story) == 0 && RetriesOf(log + [e], story) == 0
    ensures !(e.story == story && e.kind.Reset?) ==> TierOf(log + [e], story) >= TierOf(log, story)
    ensures e.story == story && e.kind.Escalated? && e.kind.toTier >= TierOf(log, story) ==>
              TierOf(log + [e], story) == e.kind.toTier
    ensures e.story != story ==>
              TierOf(log + [e], story) == TierOf(log, story) && RetriesOf(log + [e], story) == RetriesOf(log, story)
  {
    hide TierOf, RetriesOf, RungOf, Chronological;
    Appended(log, story, e);
  }

  lemma Appended(log: seq<Event>, story: string, e: Event)
    requires Chronological(log + [e])
    ensures Chronological(log)
    ensures RungOf(log, story) == Rung(TierOf(log, story), RetriesOf(log, story))
    ensures Rung(TierOf(log + [e], story), RetriesOf(log + [e], story)) == Feed(RungOf(log, story), e, story)
    ensures RungOf(log + [e], story) == Feed(RungOf(log, story), e, story)
  {
    assert (log + [e])[..|log|] == log;
    assert forall i :: 0 <= i < |log| ==> log[i] == (log + [e])[i];
    QueriesFollowAutomaton(log, story);
    QueriesFollowAutomaton(log + [e], story);
  }

  /** The manager's "retry at a lower tier" records an escalation to that tier, but the tier
      is a maximum: it changes only when the requested tier is higher than the current one. */
  lemma ManagerRetryNeverLowers(log: seq<Event>, story: string, resetTier: int, at: nat, later: nat)
    requires Chronological(log + [Event(story, Escalated(resetTier), at)] + [Event(story, ReviewFailed, later)])
    ensures var after := log + [Event(story, Escalated(resetTier), at)] + [Event(story, ReviewFailed, later)];
            && TierOf(after, story) == Max(TierOf(log, story), resetTier)
            && RetriesOf(after, story) == 1
            && (TierOf(after, story) == resetTier <==> resetTier >= TierOf(log, story))
  {
    var first := log + [Event(story, Escalated(resetTier), at)];
    Appended(first, story, Event(story, ReviewFailed, later));
    Appended(log, story, Event(story, Escalated(resetTier), at));
  }

  /** What one retry by the manager leaves in the log. */
  datatype Retry = Retry(tier: int, at: nat, later: nat)

  function RetryEvents(story: string, r: Retry): seq<Event> {
    [Event(story, Escalated(r.tier), r.at), Event(story, ReviewFailed, r.later)]
  }

  function AfterRetries(log: seq<Event>, story: string, rs: seq<Retry>): seq<Event> {
    if rs == [] then log else AfterRetries(log, story, rs[..|rs| - 1]) + RetryEvents(story, rs[|rs| - 1])
  }

  function HighestOf(tier: int, rs: seq<Retry>): int {
    if rs == [] then tier else Max(HighestOf(tier, rs[..|rs| - 1]), rs[|rs| - 1].tier)
  }

  lemma ChronologicalPrefix(log: seq<Event>, more: seq<Event>)
    requires Chronological(log + more)
    ensures Chronological(log)
  {
    assert forall i :: 0 <= i < |log| ==> (log + more)[i] == log[i];
  }

  /** However often the manager retries a story, it stays at its tier, or at the highest one asked
      for, with a single failure on record: retries alone never reach a limit above one. */
  lemma {:induction false} ManagerRetriesKeepOne(cfg: Routing, log: seq<Event>, story: string, rs: seq<Retry>)
    requires rs != [] && Chronological(AfterRetries(log, story, rs))
    ensures var after := AfterRetries(log, story, rs);
            && TierOf(after, story) == HighestOf(TierOf(log, story), rs)
            && RetriesOf(after, story) == 1
            && (LimitReached(cfg, after, story) <==> MaxRetriesForTier(cfg, TierOf(after, story)) <= 1)
  {
    hide TierOf, RetriesOf, Chronological;
    var init, last := rs[..|rs| - 1], rs[|rs| - 1];
    var before := AfterRetries(log, story, init);
    ChronologicalPrefix(before, RetryEvents(story, last));
    if init != [] {
      ManagerRetriesKeepOne(cfg, log, story, init);
    }
    assert before + RetryEvents(story, last)
           == before + [Event(story, Escalated(last.tier), last.at)] + [Event(story, ReviewFailed, last.later)];
    ManagerRetryNeverLowers(before, story, last.tier, last.at, last.later);
  }

  /** An SLA breach escalates by one tier, but never to the pause; like the manager's retry it leaves
      one failure on record. */
  function AfterBreach(log: seq<Event>, story: string, at: nat, later: nat): seq<Event> {
    if TierOf(log, story) + 1 >= 4 then log
    else log + RetryEvents(story, Retry(TierOf(log, story) + 1, at, later))
  }

  lemma BreachNeverPauses(log: seq<Event>, story: string, at: nat, later: nat)
    requires Chronological(AfterBreach(log, story, at, later))
    ensures var after := AfterBreach(log, story, at, later);
            if TierOf(log, story) < 3 then TierOf(after, story) == TierOf(log, story) + 1 && RetriesOf(after, story) == 1
            else after == log
  {
    hide TierOf, RetriesOf, Chronological;
    var to := TierOf(log, story) + 1;
    if to < 4 {
      assert log + RetryEvents(story, Retry(to, at, later))
             == log + [Event(story, Escalated(to), at)] + [Event(story, ReviewFailed, later)];
      ManagerRetryNeverLowers(log, story, to, at, later);
    }
  }

  // ----- Routing looks at the same log, but not at resets -----

  /** The highest target tier ever, as the dispatcher's routeStory reads it. */
  function RouteTier(log: seq<Event>, story: string): int {
    if log == [] then 0
    else
      var m, e := RouteTier(log[..|log| - 1], story), log[|log| - 1];
      if e.story == story && e.kind.Escalated? then Max(m, e.kind.toTier) else m
  }

  datatype Role = ByComplexity | Senior

  function RouteStory(log: seq<Event>, story: string): Role {
    if RouteTier(log, story) >= 1 then Senior else ByComplexity
  }

  /** The dispatcher's look at the log; when it cannot be read the story is routed as if it had
      never been escalated. */
  method RouteFromLog(store: EventStore, story: string) returns (readable: bool, role: Role)
    ensures role == if readable then RouteStory(store.log, story) else ByComplexity
  {
    readable := *;
    if readable {
      var maxTier := 0;
      for i := 0 to |store.log|
        invariant maxTier == RouteTier(store.log[..i], story)
      {
        var e := store.log[i];
        assert store.log[..i + 1][..i] == store.log[..i];
        if e.story == story && e.kind.Escalated? && e.kind.toTier > maxTier {
          maxTier := e.kind.toTier;
        }
      }
      assert store.log[..|store.log|] == store.log;
      if maxTier >= 1 {
        return true, Senior;
      }
    }
    role := ByComplexity;
  }

  /** The highest target tier up to time t. */
  function TierUntil(log: seq<Event>, story: string, t: nat): int {
    if log == [] then 0
    else
      var m, e := TierUntil(log[..|log| - 1], story, t), log[|log| - 1];
      if e.story == story && e.kind.Escalated? && e.time <= t then Max(m, e.kind.toTier) else m
  }

  lemma {:induction false} RouteTierSplits(log: seq<Event>, story: string, t: nat)
    ensures RouteTier(log, story) == Max(TierSince(log, story, t), TierUntil(log, story, t))
    ensures TierSince(log, story, t) >= 0 && TierUntil(log, story, t) >= 0
  {
    if log != [] {
      RouteTierSplits(log[..|log| - 1], story, t);
    }
  }

  /** Routing and the ladder agree on the tier exactly when no escalation from before the
      last reset reached higher than the current tier. */
  lemma RoutingAgreesIff(log: seq<Event>, story: string)
    ensures RouteTier(log, story) == TierOf(log, story)
            <==> TierUntil(log, story, LatestReset(log, story)) <= TierOf(log, story)
    ensures TierOf(log, story) == 0 && RouteStory(log, story) == Senior
            <==> TierOf(log, story) == 0 && TierUntil(log, story, LatestReset(log, story)) >= 1
  {
    RouteTierSplits(log, story, LatestReset(log, story));
  }

  /** A reset restarts the ladder, but routing does not notice: a story once escalated still
      goes to a senior. */
  lemma ResetDoesNotReroute(log: seq<Event>, story: string, e: Event)
    requires Chronological(log + [e]) && e.story == story && e.kind.Reset?
    ensures TierOf(log + [e], story) == 0 && RetriesOf(log + [e], story) == 0
    ensures RouteStory(log + [e], story) == RouteStory(log, story)
  {
    hide TierOf, RetriesOf, Chronological;
    TierNeverDrops(log, story, e);
    assert (log + [e])[..|log|] == log;
  }

  // ----- How long the climb takes -----

  /** A discipline of reporting failures: how many failure events precede the check, how many
      follow it when the story stays on its tier, and how many follow an escalation. */
  datatype Discipline = Discipline(before: nat, stay: nat, enter: nat)

  datatype Climb = On(rung: Rung) | Exhausted

  function Attempt(d: Discipline, cfg: Routing, c: Climb): Climb {
    if c.Exhausted? then c
    else
      var n := c.rung.retries + d.before;
      if n < MaxRetriesForTier(cfg, c.rung.tier) then On(Rung(c.rung.tier, n + d.stay))
      else if c.rung.tier + 1 >= 4 then Exhausted
      else On(Rung(c.rung.tier + 1, d.enter))
  }

  function Attempts(d: Discipline, cfg: Routing, c: Climb, k: nat): Climb {
    if k == 0 then c else Attempt(d, cfg, Attempts(d, cfg, c, k - 1))
  }

  /** The number of attempts spent on a tier entered with n retries already counted. */
  function StayOn(d: Discipline, limit: int, n: nat): nat
    requires d.before + d.stay > 0
    decreases limit - n
  {
    if n + d.before >= limit then 1 else 1 + StayOn(d, limit, n + d.before + d.stay)
  }

  lemma {:induction false} StayOnByOne(d: Discipline, limit: int, n: nat)
    requires d.before + d.stay == 1
    ensures StayOn(d, limit, n) == Max(1, limit - n - d.before + 1)
    decreases limit - n
  {
    if n + d.before < limit {
      StayOnByOne(d, limit, n + 1);
    }
  }

  lemma {:induction false} StayOnByTwo(limit: int, n: nat)
    ensures StayOn(REPORTED, limit, n) == if limit <= n + 1 then 1 else 1 + (limit - n) / 2
    decreases limit - n
  {
    if n + 1 < limit {
      StayOnByTwo(limit, n + 2);
    }
  }

  function Total(d: Discipline, cfg: Routing, tier: int, n: nat): nat
    requires d.before + d.stay > 0 && 0 <= tier <= 3
    decreases 4 - tier
  {
    StayOn(d, MaxRetriesForTier(cfg, tier), n) + if tier == 3 then 0 else Total(d, cfg, tier + 1, d.enter)
  }

  lemma {:induction false} AttemptsShift(d: Discipline, cfg: Routing, c: Climb, k: nat)
    requires k > 0
    ensures Attempts(d, cfg, c, k) == Attempts(d, cfg, Attempt(d, cfg, c), k - 1)
  {
    if k > 1 {
      AttemptsShift(d, cfg, c, k - 1);
    }
  }

  lemma {:induction false} StaysExhausted(d: Discipline, cfg: Routing, k: nat)
    ensures Attempts(d, cfg, Exhausted, k).Exhausted?
  {
    if k > 0 {
      StaysExhausted(d, cfg, k - 1);
    }
  }

  /** From any tier, the ladder is exhausted after exactly Total attempts and not before. */
  lemma {:induction false} ClimbTakesTotal(d: Discipline, cfg: Routing, tier: int, n: nat, k: nat)
    requires d.before + d.stay > 0 && 0 <= tier <= 3
    ensures Attempts(d, cfg, On(Rung(tier, n)), k).Exhausted? <==> k >= Total(d, cfg, tier, n)
    decreases k
  {
    if k > 0 {
      AttemptsShift(d, cfg, On(Rung(tier, n)), k);
      var limit := MaxRetriesForTier(cfg, tier);
      if n + d.before < limit {
        ClimbTakesTotal(d, cfg, tier, n + d.before + d.stay, k - 1);
      } else if tier == 3 {
        StaysExhausted(d, cfg, k - 1);
      } else {
        ClimbTakesTotal(d, cfg, tier + 1, d.enter, k - 1);
      }
    }
  }

  /** The total of a ladder on which every check follows one failure event. */
  lemma OneEventPerFailure(cfg: Routing)
    ensures Total(PLAIN, cfg, 0, 0)
            == Max(1, cfg.maxRetriesBeforeEscalation) + Max(1, cfg.maxSeniorRetries) + Max(1, cfg.maxManagerAttempts) + 1
  {
    StayOnByOne(PLAIN, cfg.maxRetriesBeforeEscalation, 0);
    StayOnByOne(PLAIN, cfg.maxSeniorRetries, 0);
    StayOnByOne(PLAIN, cfg.maxManagerAttempts, 0);
  }

  /** One failure event, then the check, then the escalation event if there is one. */
  const PLAIN := Discipline(1, 0, 0)

  /** A failure of which nothing is on the log before resetStoryToDraft puts it there: no changes,
      conflict markers, a timeout, an error of review, QA or merge ahead of any red verdict. */
  const SILENT := Discipline(0, 1, 1)

  /** A red verdict of review or QA on the log: an event of its own, recorded before the check, and
      resetStoryToDraft records another. */
  const REPORTED := Discipline(1, 1, 1)

  lemma MonitorFailureCounts(cfg: Routing)
    ensures Total(SILENT, cfg, 0, 0)
            == Max(0, cfg.maxRetriesBeforeEscalation) + 1
               + Max(1, cfg.maxSeniorRetries) + Max(1, cfg.maxManagerAttempts) + 1
    ensures Total(REPORTED, cfg, 0, 0)
            == Max(0, cfg.maxRetriesBeforeEscalation) / 2 + 1
               + Max(1, (cfg.maxSeniorRetries + 1) / 2) + Max(1, (cfg.maxManagerAttempts + 1) / 2) + 1
  {
    StayOnByOne(SILENT, cfg.maxRetriesBeforeEscalation, 0);
    StayOnByOne(SILENT, cfg.maxSeniorRetries, 1);
    StayOnByOne(SILENT, cfg.maxManagerAttempts, 1);
    StayOnByTwo(cfg.maxRetriesBeforeEscalation, 0);
    StayOnByTwo(cfg.maxSeniorRetries, 1);
    StayOnByTwo(cfg.maxManagerAttempts, 1);
  }

  // ----- One failed attempt in the log -----

  datatype Stage = Review | Qa

  /** How an attempt fails: by a red verdict, which the stage appends and projects, or otherwise. If
      either store fails the monitor sees an error in place of the verdict and resets all the same. */
  datatype Failure = RedVerdict(stage: Stage, appended: bool, projected: bool) | Unreported

  /** The verdict is on the log, whether or not the monitor got to see it. */
  predicate OnLog(f: Failure) {
    f.RedVerdict? && f.appended
  }

  function PolicyOf(f: Failure): Discipline {
    if OnLog(f) then REPORTED else SILENT
  }

  /** The log when the monitor comes to resetStoryToDraft. */
  function Judged(log: seq<Event>, story: string, f: Failure, t: nat): seq<Event> {
    if OnLog(f) then log + [Event(story, if f.stage.Review? then ReviewFailed else QaFailed, t)] else log
  }

  /** What one failing attempt at time t leaves in the log. */
  function Recorded(cfg: Routing, log: seq<Event>, story: string, f: Failure, t: nat): seq<Event> {
    AfterReset(cfg, Judged(log, story, f, t), story, t + 1, t + 2)
  }

  lemma ExtendChronological(log: seq<Event>, e: Event)
    requires Chronological(log) && e.time > 0 && NoLaterThan(log, e.time - 1)
    ensures Chronological(log + [e]) && NoLaterThan(log + [e], e.time)
  {
  }

  lemma JudgedClimbs(log: seq<Event>, story: string, f: Failure, t: nat)
    requires Chronological(log) && t > 0 && NoLaterThan(log, t - 1)
    ensures var judged := Judged(log, story, f, t);
            && Chronological(judged) && NoLaterThan(judged, t)
            && RungOf(judged, story) == Rung(TierOf(judged, story), RetriesOf(judged, story))
            && TierOf(judged, story) == TierOf(log, story)
            && RetriesOf(judged, story) == RetriesOf(log, story) + PolicyOf(f).before
            && PolicyOf(f).before == (if f.RedVerdict? && f.appended then 1 else 0)
  {
    hide TierOf, RetriesOf, RungOf, Chronological;
    QueriesFollowAutomaton(log, story);
    if OnLog(f) {
      var e := Event(story, if f.stage.Review? then ReviewFailed else QaFailed, t);
      ExtendChronological(log, e);
      Appended(log, story, e);
    }
  }

  /** An attempt moves the story one step up the abstract climb. */
  lemma AttemptClimbs(cfg: Routing, log: seq<Event>, story: string, f: Failure, t: nat)
    requires Chronological(log) && t > 0 && NoLaterThan(log, t - 1)
    ensures var log' := Recorded(cfg, log, story, f, t);
            var c := Attempt(PolicyOf(f), cfg, On(Rung(TierOf(log, story), RetriesOf(log, story))));
            && Chronological(log') && NoLaterThan(log', t + 2)
            && (c.Exhausted? <==> Pauses(cfg, Judged(log, story, f, t), story))
            && (c.On? ==> c.rung == Rung(TierOf(log', story), RetriesOf(log', story)))
  {
    hide TierOf, RetriesOf, RungOf, Chronological;
    JudgedClimbs(log, story, f, t);
    var judged := Judged(log, story, f, t);
    if !Pauses(cfg, judged, story) {
      var next := Event(story, if LimitReached(cfg, judged, story) then Escalated(TierOf(judged, story) + 1)
                               else ReviewFailed, t + 1);
      ExtendChronological(judged, next);
      Appended(judged, story, next);
      ExtendChronological(judged + [next], Event(story, ReviewFailed, t + 2));
      Appended(judged + [next], story, Event(story, ReviewFailed, t + 2));
    }
  }

  // ----- A whole history of failures -----

  /** Events that say nothing about the story's ladder. */
  ghost predicate Quiet(events: seq<Event>, story: string) {
    forall i :: 0 <= i < |events| ==> events[i].story != story || events[i].kind.OtherKind?
  }

  /** A failing attempt, after whatever else has gone into the log meanwhile. */
  datatype Try = Try(meanwhile: seq<Event>, failure: Failure, at: nat)

  datatype Story = Story(log: seq<Event>, paused: bool)

  /** The story after failing attempts of any kinds, one after the other. */
  function Fail(cfg: Routing, log: seq<Event>, story: string, tries: seq<Try>): Story {
    if tries == [] then Story(log, false)
    else
      var s, last := Fail(cfg, log, story, tries[..|tries| - 1]), tries[|tries| - 1];
      if s.paused then s
      else
        var now := s.log + last.meanwhile;
        Story(Recorded(cfg, now, story, last.failure, last.at), Pauses(cfg, Judged(now, story, last.failure, last.at), story))
  }

  /** Time moves on through the attempts and what happens between them. */
  ghost predicate Timely(cfg: Routing, log: seq<Event>, story: string, tries: seq<Try>) {
    tries != [] ==>
      && Timely(cfg, log, story, tries[..|tries| - 1])
      && var s, last := Fail(cfg, log, story, tries[..|tries| - 1]), tries[|tries| - 1];
         s.paused || Follows(s.log + last.meanwhile, last)
  }

  ghost predicate Follows(now: seq<Event>, last: Try) {
    Chronological(now) && last.at > 0 && NoLaterThan(now, last.at - 1)
  }

  function FeedAll(r: Rung, events: seq<Event>, story: string): Rung {
    if events == [] then r else Feed(FeedAll(r, events[..|events| - 1], story), events[|events| - 1], story)
  }

  lemma {:induction false} RungOfConcat(log: seq<Event>, events: seq<Event>, story: string)
    ensures RungOf(log + events, story) == FeedAll(RungOf(log, story), events, story)
  {
    hide Feed;
    if events == [] {
      assert log + events == log;
    } else {
      var init := events[..|events| - 1];
      RungOfConcat(log, init, story);
      assert (log + events)[..|log + events| - 1] == log + init;
    }
  }

  /** The climb of the abstract ladder: the events in between move the rung, an attempt climbs. */
  function Climbs(cfg: Routing, r: Rung, story: string, tries: seq<Try>): Climb {
    if tries == [] then On(r)
    else
      var c, last := Climbs(cfg, r, story, tries[..|tries| - 1]), tries[|tries| - 1];
      if c.Exhausted? then c
      else Attempt(PolicyOf(last.failure), cfg, On(FeedAll(c.rung, last.meanwhile, story)))
  }

  lemma MeanwhileMoves(log: seq<Event>, events: seq<Event>, story: string)
    requires Chronological(log) && Chronological(log + events)
    ensures Rung(TierOf(log + events, story), RetriesOf(log + events, story))
            == FeedAll(Rung(TierOf(log, story), RetriesOf(log, story)), events, story)
  {
    hide TierOf, RetriesOf, RungOf, Chronological, FeedAll;
    RungOfConcat(log, events, story);
    QueriesFollowAutomaton(log, story);
    QueriesFollowAutomaton(log + events, story);
  }

  /** Whatever goes into the log between the attempts (the manager's retries, SLA escalations, resets,
      other stories' events), the requirement pauses exactly when the abstract ladder is exhausted,
      and until then both stand at the same tier and count. */
  lemma {:induction false} FailClimbs(cfg: Routing, log: seq<Event>, story: string, tries: seq<Try>)
    requires Chronological(log) && Timely(cfg, log, story, tries)
    ensures var s := Fail(cfg, log, story, tries);
            var c := Climbs(cfg, Rung(TierOf(log, story), RetriesOf(log, story)), story, tries);
            && (s.paused <==> c.Exhausted?)
            && (!s.paused ==> Chronological(s.log) && c.rung == Rung(TierOf(s.log, story), RetriesOf(s.log, story)))
  {
    hide TierOf, RetriesOf, RungOf, Chronological, Recorded, Pauses, Judged, Attempt, FeedAll;
    if tries != [] {
      var init, last := tries[..|tries| - 1], tries[|tries| - 1];
      FailClimbs(cfg, log, story, init);
      var s := Fail(cfg, log, story, init);
      if !s.paused {
        assert Follows(s.log + last.meanwhile, last);
        MeanwhileMoves(s.log, last.meanwhile, story);
        AttemptClimbs(cfg, s.log + last.meanwhile, story, last.failure, last.at);
      }
    }
  }

  // ----- Failures with nothing in between -----

  function Failures(tries: seq<Try>): seq<Failure> {
    if tries == [] then [] else Failures(tries[..|tries| - 1]) + [tries[|tries| - 1].failure]
  }

  function Climbed(cfg: Routing, c: Climb, fs: seq<Failure>): Climb {
    if fs == [] then c else Attempt(PolicyOf(fs[|fs| - 1]), cfg, Climbed(cfg, c, fs[..|fs| - 1]))
  }

  /** Nothing but the attempts moves the story's ladder. */
  ghost predicate Undisturbed(tries: seq<Try>, story: string) {
    forall i :: 0 <= i < |tries| ==> Quiet(tries[i].meanwhile, story)
  }

  lemma {:induction false} QuietKeepsRung(r: Rung, events: seq<Event>, story: string)
    requires Quiet(events, story)
    ensures FeedAll(r, events, story) == r
  {
    if events != [] {
      QuietKeepsRung(r, events[..|events| - 1], story);
    }
  }

  lemma {:induction false} QuietClimbs(cfg: Routing, r: Rung, story: string, tries: seq<Try>)
    requires Undisturbed(tries, story)
    ensures Climbs(cfg, r, story, tries) == Climbed(cfg, On(r), Failures(tries))
  {
    hide Attempt, FeedAll, Quiet;
    if tries != [] {
      var init, last := tries[..|tries| - 1], tries[|tries| - 1];
      QuietClimbs(cfg, r, story, init);
      assert Failures(tries)[..|Failures(tries)| - 1] == Failures(init);
      var c := Climbs(cfg, r, story, init);
      if c.Exhausted? {
        StaysExhausted(PolicyOf(last.failure), cfg, 1);
      } else {
        assert Quiet(tries[|tries| - 1].meanwhile, story);
        QuietKeepsRung(c.rung, last.meanwhile, story);
      }
    }
  }

  lemma UndisturbedClimbs(cfg: Routing, log: seq<Event>, story: string, tries: seq<Try>)
    requires Chronological(log) && Timely(cfg, log, story, tries) && Undisturbed(tries, story)
    ensures Fail(cfg, log, story, tries).paused
            <==> Climbed(cfg, On(Rung(TierOf(log, story), RetriesOf(log, story))), Failures(tries)).Exhausted?
  {
    hide TierOf, RetriesOf, Chronological, Fail, Timely, Climbs, Climbed, Undisturbed;
    FailClimbs(cfg, log, story, tries);
    QuietClimbs(cfg, Rung(TierOf(log, story), RetriesOf(log, story)), story, tries);
  }

  // ----- When a history pauses -----

  /** Failure events that the given attempts put on record. */
  function Events(fs: seq<Failure>): nat {
    if fs == [] then 0 else PolicyOf(fs[0]).before + 1 + Events(fs[1..])
  }

  /** The first attempt at whose check a tier entered with n events has its limit on record. */
  ghost predicate LeavesAt(limit: int, n: nat, fs: seq<Failure>, i: nat) {
    i < |fs| && OnRecord(n, fs, i) >= limit && forall j: nat :: j < i ==> OnRecord(n, fs, j) < limit
  }

  function OnRecord(n: nat, fs: seq<Failure>, i: nat): nat
    requires i < |fs|
  {
    n + Events(fs[..i]) + PolicyOf(fs[i]).before
  }

  /** The attempts fall into one block for each tier left, every tier but the first being entered
      with one failure event already. */
  ghost predicate Exhausts(cfg: Routing, tier: int, n: nat, fs: seq<Failure>)
    requires 0 <= tier <= 3
    decreases 4 - tier
  {
    exists i: nat :: i < |fs| && LeavesAt(MaxRetriesForTier(cfg, tier), n, fs, i)
                     && (tier == 3 || Exhausts(cfg, tier + 1, 1, fs[i + 1..]))
  }

  lemma {:induction false} ClimbedFromFront(cfg: Routing, c: Climb, fs: seq<Failure>)
    requires fs != []
    ensures Climbed(cfg, c, fs) == Climbed(cfg, Attempt(PolicyOf(fs[0]), cfg, c), fs[1..])
  {
    hide Attempt;
    if |fs| > 1 {
      ClimbedFromFront(cfg, c, fs[..|fs| - 1]);
      assert fs[..|fs| - 1][1..] == fs[1..][..|fs| - 2];
    } else {
      assert fs[..0] == [] && fs[1..] == [];
    }
  }

  lemma {:induction false} ExhaustedStays(cfg: Routing, fs: seq<Failure>)
    ensures Climbed(cfg, Exhausted, fs) == Exhausted
  {
    if fs != [] {
      ExhaustedStays(cfg, fs[..|fs| - 1]);
    }
  }

  lemma LeavesLater(limit: int, n: nat, fs: seq<Failure>, i: nat)
    requires fs != [] && n + PolicyOf(fs[0]).before < limit
    ensures LeavesAt(limit, n, fs, i + 1) <==> LeavesAt(limit, n + PolicyOf(fs[0]).before + 1, fs[1..], i)
    ensures !LeavesAt(limit, n, fs, 0)
  {
    var m, rest := n + PolicyOf(fs[0]).before + 1, fs[1..];
    assert fs[..0] == [];
    assert OnRecord(n, fs, 0) < limit;
    forall j: nat | j < |rest| ensures OnRecord(n, fs, j + 1) == OnRecord(m, rest, j) {
      assert fs[..j + 1][1..] == rest[..j];
    }
    if LeavesAt(limit, m, rest, i) {
      forall j: nat | j < i + 1 ensures OnRecord(n, fs, j) < limit {
        assert j > 0 ==> OnRecord(n, fs, j) == OnRecord(m, rest, j - 1);
      }
    } else if LeavesAt(limit, n, fs, i + 1) {
      assert OnRecord(m, rest, i) >= limit;
      forall j: nat | j < i ensures OnRecord(m, rest, j) < limit {
        assert OnRecord(n, fs, j + 1) < limit;
      }
    }
  }

  lemma LeavesNow(limit: int, n: nat, fs: seq<Failure>)
    requires fs != [] && n + PolicyOf(fs[0]).before >= limit
    ensures forall i: nat :: LeavesAt(limit, n, fs, i) <==> i == 0
  {
    assert fs[..0] == [];
    assert OnRecord(n, fs, 0) >= limit;
  }

  /** The climb is exhausted exactly when the failures fall into such blocks. */
  lemma {:induction false} MixedClimb(cfg: Routing, tier: int, n: nat, fs: seq<Failure>)
    requires 0 <= tier <= 3
    ensures Climbed(cfg, On(Rung(tier, n)), fs).Exhausted? <==> Exhausts(cfg, tier, n, fs)
    decreases |fs|
  {
    hide LeavesAt;
    if fs != [] {
      var rest, m := fs[1..], n + PolicyOf(fs[0]).before + 1;
      ClimbedFromFront(cfg, On(Rung(tier, n)), fs);
      if n + PolicyOf(fs[0]).before >= MaxRetriesForTier(cfg, tier) {
        BlockOfOne(cfg, tier, n, fs);
        if tier == 3 {
          ExhaustedStays(cfg, rest);
        } else {
          MixedClimb(cfg, tier + 1, 1, rest);
        }
      } else {
        MixedClimb(cfg, tier, m, rest);
        LongerBlock(cfg, tier, n, fs);
      }
    }
  }

  lemma LongerBlock(cfg: Routing, tier: int, n: nat, fs: seq<Failure>)
    requires 0 <= tier <= 3 && fs != [] && n + PolicyOf(fs[0]).before < MaxRetriesForTier(cfg, tier)
    ensures Exhausts(cfg, tier, n, fs) <==> Exhausts(cfg, tier, n + PolicyOf(fs[0]).before + 1, fs[1..])
  {
    hide LeavesAt;
    var limit, m, rest := MaxRetriesForTier(cfg, tier), n + PolicyOf(fs[0]).before + 1, fs[1..];
    forall i: nat | i < |rest|
      ensures (LeavesAt(limit, n, fs, i + 1) <==> LeavesAt(limit, m, rest, i)) && fs[i + 1 + 1..] == rest[i + 1..]
    {
      LeavesLater(limit, n, fs, i);
    }
    LeavesLater(limit, n, fs, 0);
    if Exhausts(cfg, tier, n, fs) {
      var i: nat :| i < |fs| && LeavesAt(limit, n, fs, i) && (tier == 3 || Exhausts(cfg, tier + 1, 1, fs[i + 1..]));
      assert i > 0;
      assert LeavesAt(limit, m, rest, i - 1) && fs[i + 1..] == rest[i - 1 + 1..];
    }
    if Exhausts(cfg, tier, m, rest) {
      var i: nat :| i < |rest| && LeavesAt(limit, m, rest, i) && (tier == 3 || Exhausts(cfg, tier + 1, 1, rest[i + 1..]));
      assert LeavesAt(limit, n, fs, i + 1) && fs[i + 1 + 1..] == rest[i + 1..];
    }
  }

  lemma BlockOfOne(cfg: Routing, tier: int, n: nat, fs: seq<Failure>)
    requires 0 <= tier <= 3 && fs != [] && n + PolicyOf(fs[0]).before >= MaxRetriesForTier(cfg, tier)
    ensures Exhausts(cfg, tier, n, fs) <==> tier == 3 || Exhausts(cfg, tier + 1, 1, fs[1..])
  {
    hide LeavesAt;
    LeavesNow(MaxRetriesForTier(cfg, tier), n, fs);
    assert LeavesAt(MaxRetriesForTier(cfg, tier), n, fs, 0) && fs[0 + 1..] == fs[1..];
  }

  /** A story pauses its requirement exactly when its failures, of whatever kinds and whatever else is
      recorded in between about other things, fill the tiers left to it one after the other. */
  lemma PausesIffExhausts(cfg: Routing, log: seq<Event>, story: string, tries: seq<Try>)
    requires Chronological(log) && Timely(cfg, log, story, tries) && Undisturbed(tries, story)
    requires 0 <= TierOf(log, story) <= 3
    ensures Fail(cfg, log, story, tries).paused
            <==> Exhausts(cfg, TierOf(log, story), RetriesOf(log, story), Failures(tries))
  {
    hide TierOf, RetriesOf, Chronological, Exhausts, Fail, Timely, Undisturbed;
    UndisturbedClimbs(cfg, log, story, tries);
    MixedClimb(cfg, TierOf(log, story), RetriesOf(log, story), Failures(tries));
  }

  // ----- Bounds that hold for every mixture -----

  /** The second climb is at least as far as the first. */
  ghost predicate AtLeast(a: Climb, b: Climb) {
    b.Exhausted? || (a.On? && (a.rung.tier < b.rung.tier || (a.rung.tier == b.rung.tier && a.rung.retries <= b.rung.retries)))
  }

  lemma AttemptIsMonotone(cfg: Routing, d: Discipline, e: Discipline, a: Climb, b: Climb)
    requires d in {SILENT, REPORTED} && e in {SILENT, REPORTED} && d.before <= e.before && AtLeast(a, b)
    ensures AtLeast(Attempt(d, cfg, a), Attempt(e, cfg, b))
  {
  }

  lemma {:induction false} MixtureIsBetween(cfg: Routing, c: Climb, fs: seq<Failure>)
    ensures AtLeast(Attempts(SILENT, cfg, c, |fs|), Climbed(cfg, c, fs))
    ensures AtLeast(Climbed(cfg, c, fs), Attempts(REPORTED, cfg, c, |fs|))
  {
    hide Attempt;
    if fs != [] {
      var init, d := fs[..|fs| - 1], PolicyOf(fs[|fs| - 1]);
      MixtureIsBetween(cfg, c, init);
      AttemptIsMonotone(cfg, SILENT, d, Attempts(SILENT, cfg, c, |init|), Climbed(cfg, c, init));
      AttemptIsMonotone(cfg, d, REPORTED, Climbed(cfg, c, init), Attempts(REPORTED, cfg, c, |init|));
    }
  }

  /** Whatever the mixture, a story new to the ladder pauses at the latest after as many attempts as
      unreported failures take, and at the earliest after as many as verdicts take. */
  lemma PausesWithinTotals(cfg: Routing, log: seq<Event>, story: string, tries: seq<Try>)
    requires Chronological(log) && Timely(cfg, log, story, tries) && Undisturbed(tries, story)
    requires TierOf(log, story) == 0 && RetriesOf(log, story) == 0
    ensures |tries| >= Total(SILENT, cfg, 0, 0) ==> Fail(cfg, log, story, tries).paused
    ensures |tries| < Total(REPORTED, cfg, 0, 0) ==> !Fail(cfg, log, story, tries).paused
  {
    hide TierOf, RetriesOf, Chronological, Fail, Timely, Undisturbed, Climbed, Attempts, Total;
    var fs := Failures(tries);
    OneFailureEach(tries);
    UndisturbedClimbs(cfg, log, story, tries);
    MixtureIsBetween(cfg, On(Rung(0, 0)), fs);
    ClimbTakesTotal(SILENT, cfg, 0, 0, |fs|);
    ClimbTakesTotal(REPORTED, cfg, 0, 0, |fs|);
  }

  lemma {:induction false} OneFailureEach(tries: seq<Try>)
    ensures |Failures(tries)| == |tries|
    ensures forall i :: 0 <= i < |tries| ==> Failures(tries)[i] == tries[i].failure
  {
    if tries != [] {
      OneFailureEach(tries[..|tries| - 1]);
    }
  }

  /** When all failures are of one sort the number of attempts is exact. */
  lemma PausesAfterTotal(cfg: Routing, log: seq<Event>, story: string, tries: seq<Try>, reported: bool)
    requires Chronological(log) && Timely(cfg, log, story, tries) && Undisturbed(tries, story)
    requires TierOf(log, story) == 0 && RetriesOf(log, story) == 0
    requires forall i :: 0 <= i < |tries| ==> OnLog(tries[i].failure) == reported
    ensures Fail(cfg, log, story, tries).paused <==> |tries| >= Total(if reported then REPORTED else SILENT, cfg, 0, 0)
  {
    hide TierOf, RetriesOf, Chronological, Fail, Timely, Undisturbed, Climbed, Attempts, Total;
    var d := if reported then REPORTED else SILENT;
    OneFailureEach(tries);
    UndisturbedClimbs(cfg, log, story, tries);
    UniformClimb(cfg, On(Rung(0, 0)), Failures(tries), d);
    ClimbTakesTotal(d, cfg, 0, 0, |tries|);
  }

  lemma {:induction false} UniformClimb(cfg: Routing, c: Climb, fs: seq<Failure>, d: Discipline)
    requires forall i :: 0 <= i < |fs| ==> PolicyOf(fs[i]) == d
    ensures Climbed(cfg, c, fs) == Attempts(d, cfg, c, |fs|)
  {
    hide Attempt;
    if fs != [] {
      UniformClimb(cfg, c, fs[..|fs| - 1], d);
    }
  }

  // ----- The ladder by itself -----

  /** A failure event, then the check, then the escalation event if the limit is reached. */
  function Checked(cfg: Routing, log: seq<Event>, story: string, t: nat): seq<Event> {
    var judged := log + [Event(story, ReviewFailed, t)];
    if LimitReached(cfg, judged, story) then judged + [Event(story, Escalated(TierOf(judged, story) + 1), t + 1)]
    else judged
  }

  function CheckedTimes(cfg: Routing, log: seq<Event>, story: string, t: nat, k: nat): seq<Event> {
    if k == 0 then log else Checked(cfg, CheckedTimes(cfg, log, story, t, k - 1), story, t + 2 * (k - 1))
  }

  /** How far up a log has climbed. */
  function ClimbOf(log: seq<Event>, story: string): Climb {
    if TierOf(log, story) >= 4 then Exhausted else On(Rung(TierOf(log, story), RetriesOf(log, story)))
  }

  lemma CheckedClimbs(cfg: Routing, log: seq<Event>, story: string, t: nat)
    requires Chronological(log) && t > 0 && NoLaterThan(log, t - 1)
    ensures Chronological(Checked(cfg, log, story, t)) && NoLaterThan(Checked(cfg, log, story, t), t + 1)
    ensures ClimbOf(Checked(cfg, log, story, t), story) == Attempt(PLAIN, cfg, ClimbOf(log, story))
  {
    hide TierOf, RetriesOf, RungOf, Chronological;
    var fail := Event(story, ReviewFailed, t);
    ExtendChronological(log, fail);
    Appended(log, story, fail);
    var judged := log + [fail];
    if LimitReached(cfg, judged, story) {
      var next := Event(story, Escalated(TierOf(judged, story) + 1), t + 1);
      ExtendChronological(judged, next);
      Appended(judged, story, next);
    }
  }

  lemma {:induction false} CheckedTimesClimb(cfg: Routing, log: seq<Event>, story: string, t: nat, k: nat)
    requires Chronological(log) && t > 0 && NoLaterThan(log, t - 1)
    ensures var after := CheckedTimes(cfg, log, story, t, k);
            && Chronological(after) && NoLaterThan(after, t + 2 * k - 1)
            && ClimbOf(after, story) == Attempts(PLAIN, cfg, ClimbOf(log, story), k)
  {
    hide ClimbOf, Chronological, Attempt, Checked;
    if k > 0 {
      CheckedTimesClimb(cfg, log, story, t, k - 1);
      CheckedClimbs(cfg, CheckedTimes(cfg, log, story, t, k - 1), story, t + 2 * (k - 1));
    }
  }

  /** With one event to a failure, tier 4 is reached after exactly the sum of max(1, limit). */
  lemma TierFourAfterTotal(cfg: Routing, log: seq<Event>, story: string, t: nat, k: nat)
    requires Chronological(log) && t > 0 && NoLaterThan(log, t - 1)
    requires TierOf(log, story) == 0 && RetriesOf(log, story) == 0
    ensures TierOf(CheckedTimes(cfg, log, story, t, k), story) >= 4
            <==> k >= Max(1, cfg.maxRetriesBeforeEscalation) + Max(1, cfg.maxSeniorRetries)
                      + Max(1, cfg.maxManagerAttempts) + 1
  {
    hide TierOf, RetriesOf, Chronological, CheckedTimes, Attempts, Total;
    CheckedTimesClimb(cfg, log, story, t, k);
    ClimbTakesTotal(PLAIN, cfg, 0, 0, k);
    OneEventPerFailure(cfg);
  }
}
