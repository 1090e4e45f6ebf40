/**
 * What the factory of queues answers and tells, event by event and over whole
 * runs: whom `get` hands a queue, which errors are written, what the close waits
 * for.
 */
module QueueAnswers {
  import opened Wrappers
  import opened Queues

  // ------------------------------------------------------------------
  // The names of the registry.

  /** The registry stays, and every queue built has a name of it. */
  predicate NamesAgree(s: State, registry: set<Name>) {
    s.registry == registry && forall q | 0 <= q < |s.queues| :: s.queues[q].name in registry
  }

  lemma {:induction false} CloseEachKeepsNames(s: State, cached: seq<nat>)
    ensures var s' := CloseEach(s, cached);
      && s'.registry == s.registry && |s'.queues| == |s.queues|
      && forall q | 0 <= q < |s.queues| ::
           && s'.queues[q].name == s.queues[q].name && s'.queues[q].verdict == s.queues[q].verdict
           && s'.queues[q].closed == s.queues[q].closed
    decreases |cached|
  {
    if cached != [] {
      var q := cached[0];
      CloseEachKeepsNames(if q < |s.queues| then
                            s.(queues := s.queues[q := s.queues[q].(closing := ByTheClose)],
                               log := s.log + [QueueCloseStarted(q, true)])
                          else s,
                          cached[1..]);
    }
  }

  lemma StepKeepsNames(s: State, e: Event, registry: set<Name>)
    requires Sound(s) && NamesAgree(s, registry)
    ensures NamesAgree(Next(s, e), registry)
  {
    hide CloseEach, CachedBelow, Sound, TellsRefusal, RefusedBelow;
    match e
    case CloseCalled =>
      var begun := s.(log := s.log + [CloseBegun]);
      CloseEachKeepsNames(begun.(cache := map[], phase := Waiting(begun.forgotten)),
                          CachedBelow(begun, |begun.queues|));
    case DrainEnds(_) =>
      CloseEachKeepsNames(s.(cache := map[], phase := Waiting(s.forgotten)), CachedBelow(s, |s.queues|));
    case GetCalled(name) => CachedNamesAreBuilt(s);
    case UseCalled(name) => CachedNamesAreBuilt(s);
    case _ =>
  }

  lemma CachedNamesAreBuilt(s: State)
    requires Sound(s)
    ensures forall name <- s.cache :: s.cache[name] < |s.queues| && s.queues[s.cache[name]].name == name
  {
    hide LogAgrees, InOrder;
  }

  lemma {:induction false} RunKeepsNames(s: State, events: seq<Event>, registry: set<Name>)
    requires Sound(s) && NamesAgree(s, registry)
    ensures Sound(Run(s, events)) && NamesAgree(Run(s, events), registry)
    decreases |events|
  {
    hide Sound, NamesAgree, Next;
    if events != [] {
      NextIsSound(s, events[0]);
      StepKeepsNames(s, events[0], registry);
      RunKeepsNames(Next(s, events[0]), events[1..], registry);
    }
  }

  lemma RunsKeepNames(registry: set<Name>, readOnly: bool, events: seq<Event>)
    ensures var s := Run(Initial(registry, readOnly), events); Sound(s) && NamesAgree(s, registry)
  {
    hide Sound, Run;
    InitialIsSound(registry, readOnly);
    RunKeepsNames(Initial(registry, readOnly), events, registry);
  }

  /** Every queue ever built has a name of the registry. */
  lemma EveryQueueHasAKnownName(registry: set<Name>, readOnly: bool, events: seq<Event>, q: nat)
    requires q < |Run(Initial(registry, readOnly), events).queues|
    ensures Run(Initial(registry, readOnly), events).queues[q].name in registry
  {
    hide Sound, Run;
    RunsKeepNames(registry, readOnly, events);
  }

  /** The queue of a name that is neither closing nor refused, if the factory has one. */
  ghost predicate IsLive(s: State, q: nat, name: Name) {
    && q < |s.queues| && s.queues[q].name == name && s.queues[q].closing.NotClosing?
    && !s.queues[q].verdict.Refused?
  }

  /** A queue of the name was handed out: the live one if there was one, and else one built for it. */
  ghost predicate IsHandedOut(s: State, s': State, q: nat, name: Name) {
    && IsLive(s', q, name) && s'.log == s.log + [HandedOut(q)]
    && s'.phase == s.phase && s.queues <= s'.queues
    && if exists live: nat :: IsLive(s, live, name) then s'.queues == s.queues && IsLive(s, q, name)
       else |s'.queues| == |s.queues| + 1 && q == |s.queues|
  }

  /**
   * `get` and a read hand out a queue of the name exactly if the close has not
   * begun and the registry knows the name; it is the live one, and a new one is
   * built only if there is none. A read is in flight from then on. In every other
   * case nothing changes.
   */
  lemma GetHandsOutExactlyWhen(registry: set<Name>, readOnly: bool, events: seq<Event>, name: Name)
    ensures var s := Run(Initial(registry, readOnly), events);
      var got, used := Next(s, GetCalled(name)), Next(s, UseCalled(name));
      if CloseBegun !in s.log && name in registry
      then && (exists q: nat :: Answer(s, name) == Handed(q) && IsHandedOut(s, got, q, name))
           && used == got.(inFlight := s.inFlight + {s.passes}, passes := s.passes + 1)
           && got.inFlight == s.inFlight
      else got == s && used == s
           && Answer(s, name) == if CloseBegun in s.log then AfterClose else UnknownName
  {
    hide Sound, Run;
    RunsKeepNames(registry, readOnly, events);
    GetHandsOut(Run(Initial(registry, readOnly), events), name, registry);
  }

  lemma GetHandsOut(s: State, name: Name, registry: set<Name>)
    requires Sound(s) && NamesAgree(s, registry)
    ensures var got, used := Next(s, GetCalled(name)), Next(s, UseCalled(name));
      if CloseBegun !in s.log && name in registry
      then && (exists q: nat :: Answer(s, name) == Handed(q) && IsHandedOut(s, got, q, name))
           && used == got.(inFlight := s.inFlight + {s.passes}, passes := s.passes + 1)
           && got.inFlight == s.inFlight
      else got == s && used == s
           && Answer(s, name) == if CloseBegun in s.log then AfterClose else UnknownName
  {
    hide InOrder;
    assert CloseBegun in s.log <==> !s.phase.Open?;
    hide LogAgrees;
    var got := Next(s, GetCalled(name));
    if s.phase.Open? && name in s.cache {
      assert IsLive(s, s.cache[name], name);
      assert IsHandedOut(s, got, s.cache[name], name);
    } else if s.phase.Open? && name in registry {
      assert forall live: nat :: !IsLive(s, live, name);
      assert IsHandedOut(s, got, |s.queues|, name);
    }
  }

  // ------------------------------------------------------------------
  // Errors and refusals.

  /**
   * An error a queue hears is written exactly if it is not of the client, the close
   * has not begun and it is not what that queue's init was refused with; while the
   * verdict on the init is not in, it is put off, and judged so once the delay is
   * over.
   */
  lemma AnErrorIsWrittenExactlyWhen(registry: set<Name>, readOnly: bool, events: seq<Event>, q: nat, error: nat,
                                    ofClient: bool)
    requires q < |Run(Initial(registry, readOnly), events).queues|
    ensures var s := Run(Initial(registry, readOnly), events);
      var heard := Next(s, ErrorHeard(q, error, ofClient));
      var known := CloseBegun in s.log || InitRefused(q, error) in s.log;
      && (ofClient ==> heard == s)
      && (!ofClient && s.queues[q].verdict.Pending? ==> heard == s.(delayed := s.delayed + {(q, error)}))
      && (!ofClient && !s.queues[q].verdict.Pending? ==>
            heard == if known then s else s.(log := s.log + [ErrorLine(q, error)]))
      && ((q, error) in s.delayed ==>
            Next(s, DelayPasses(q, error))
            == s.(delayed := s.delayed - {(q, error)}, log := if known then s.log else s.log + [ErrorLine(q, error)]))
  {
    hide Sound, Run;
    InitialIsSound(registry, readOnly);
    RunIsSound(Initial(registry, readOnly), events);
    ErrorsAreWritten(Run(Initial(registry, readOnly), events), q, error);
  }

  lemma ErrorsAreWritten(s: State, q: nat, error: nat)
    requires Sound(s) && q < |s.queues|
    ensures WriteError(s, q, error)
            == if CloseBegun in s.log || InitRefused(q, error) in s.log then s
               else s.(log := s.log + [ErrorLine(q, error)])
  {
    hide InOrder, CacheAgrees;
  }

  /** A queue whose init was refused is being closed, whoever closes it. */
  lemma ARefusedQueueIsClosing(registry: set<Name>, readOnly: bool, events: seq<Event>, q: nat)
    requires WasRefused(Run(Initial(registry, readOnly), events).log, q)
    ensures HasStarted(Run(Initial(registry, readOnly), events).log, q)
  {
    hide Sound, Run;
    InitialIsSound(registry, readOnly);
    RunIsSound(Initial(registry, readOnly), events);
    RefusedIsClosing(Run(Initial(registry, readOnly), events), q);
  }

  lemma RefusedIsClosing(s: State, q: nat)
    requires Sound(s) && WasRefused(s.log, q)
    ensures HasStarted(s.log, q)
  {
    hide InOrder, WasRefused;
    RefusedIsLogged(s, q);
  }

  // ------------------------------------------------------------------
  // What a queue was told comes from an event of its own.

  /** The verdict and the end of each queue, and each error put off, are what an event brought. */
  predicate ComeFrom(s: State, events: seq<Event>) {
    && (forall q | 0 <= q < |s.queues| ::
          && (!s.queues[q].verdict.Pending? ==> InitSettles(q, s.queues[q].verdict) in events)
          && (s.queues[q].closed.Some? ==> QueueCloses(q, s.queues[q].closed.value) in events))
    && (forall put <- s.delayed :: ErrorHeard(put.0, put.1, false) in events)
    && (!s.phase.Open? <==> CloseCalled in events)
  }

  lemma ForgettingKeepsVerdicts(s: State, q: nat)
    requires q < |s.queues|
    ensures var s' := Forget(s, q);
      && |s'.queues| == |s.queues| && s'.phase == s.phase && s'.delayed == s.delayed
      && forall k | 0 <= k < |s.queues| ::
           s'.queues[k].verdict == s.queues[k].verdict && s'.queues[k].closed == s.queues[k].closed
  {
  }

  lemma ClosingKeepsVerdicts(s: State)
    ensures var s' := CloseQueues(s);
      && |s'.queues| == |s.queues| && s'.phase.Waiting? && s'.delayed == s.delayed
      && forall k | 0 <= k < |s.queues| ::
           s'.queues[k].verdict == s.queues[k].verdict && s'.queues[k].closed == s.queues[k].closed
  {
    hide CloseEach, CachedBelow;
    var emptied := s.(cache := map[], phase := Waiting(s.forgotten));
    CloseEachKeepsNames(emptied, CachedBelow(s, |s.queues|));
    CloseEachForgetsNone(emptied, CachedBelow(s, |s.queues|));
    CloseEachKeepsDelays(emptied, CachedBelow(s, |s.queues|));
  }

  lemma {:induction false} CloseEachKeepsDelays(s: State, cached: seq<nat>)
    ensures CloseEach(s, cached).delayed == s.delayed
    decreases |cached|
  {
    if cached != [] {
      var q := cached[0];
      CloseEachKeepsDelays(if q < |s.queues| then
                             s.(queues := s.queues[q := s.queues[q].(closing := ByTheClose)],
                                log := s.log + [QueueCloseStarted(q, true)])
                           else s,
                           cached[1..]);
    }
  }

  lemma StepComesFrom(s: State, events: seq<Event>, e: Event)
    requires ComeFrom(s, events)
    ensures ComeFrom(Next(s, e), events + [e])
  {
    hide Forget, CloseQueues, RefusedBelow, TellsRefusal;
    assert e in events + [e];
    match e
    case InitSettles(q, verdict) =>
      if Enabled(s, e) {
        VerdictComesFrom(s, q, verdict);
      }
    case CloseCalled => ClosingKeepsVerdicts(s.(log := s.log + [CloseBegun]));
    case DrainEnds(_) => ClosingKeepsVerdicts(s);
    case _ =>
  }

  lemma VerdictComesFrom(s: State, q: nat, verdict: Verdict)
    requires q < |s.queues|
    ensures var s' := TakeVerdict(s, q, verdict);
      && |s'.queues| == |s.queues| && s'.phase == s.phase && s'.delayed == s.delayed
      && forall k | 0 <= k < |s.queues| ::
           s'.queues[k].verdict == (if k == q then verdict else s.queues[k].verdict)
           && s'.queues[k].closed == s.queues[k].closed
  {
    hide TellsRefusal;
  }

  lemma {:induction false} RunComesFrom(s: State, before: seq<Event>, events: seq<Event>)
    requires ComeFrom(s, before)
    ensures ComeFrom(Run(s, events), before + events)
    decreases |events|
  {
    hide ComeFrom, Next;
    if events == [] {
      assert before + events == before;
    } else {
      StepComesFrom(s, before, events[0]);
      assert before + [events[0]] + events[1..] == before + events;
      RunComesFrom(Next(s, events[0]), before + [events[0]], events[1..]);
    }
  }

  /**
   * Of every run: a verdict is the one the queue's own init came to, a close ended
   * as its own event said, an error put off was heard, and not of the client, and
   * the close has begun exactly if it was called.
   */
  lemma WhatIsKnownWasHeard(registry: set<Name>, readOnly: bool, events: seq<Event>)
    ensures var s := Run(Initial(registry, readOnly), events);
      && ComeFrom(s, events)
      && (CloseBegun in s.log <==> CloseCalled in events)
      && (forall q: nat, error: nat :: InitRefused(q, error) in s.log ==>
            exists refusal: Refusal :: refusal.error == error && InitSettles(q, Refused(refusal)) in events)
  {
    hide InOrder, CacheAgrees, Run;
    InitialIsSound(registry, readOnly);
    RunIsSound(Initial(registry, readOnly), events);
    RunComesFrom(Initial(registry, readOnly), [], events);
    assert [] + events == events;
    var s := Run(Initial(registry, readOnly), events);
    forall q: nat, error: nat | InitRefused(q, error) in s.log
      ensures exists refusal: Refusal :: refusal.error == error && InitSettles(q, Refused(refusal)) in events
    {
      assert s.queues[q].verdict.refusal.error == error;
      assert s.queues[q].verdict == Refused(s.queues[q].verdict.refusal);
    }
  }

  // ------------------------------------------------------------------
  // The reads the close waits for.

  /** Neither did the drain time out nor the read settle. */
  predicate LeavesTheRead(events: seq<Event>, pass: nat) {
    DrainEnds(true) !in events && PassSettles(pass) !in events
  }

  lemma {:induction false} TheDrainWaits(s: State, events: seq<Event>, pass: nat)
    requires s.phase.Draining? && pass in s.phase.drained && pass in s.inFlight && LeavesTheRead(events, pass)
    ensures Run(s, events).phase == s.phase
    decreases |events|
  {
    hide CloseQueues, TakeVerdict, WriteError;
    if events != [] {
      var e := events[0];
      assert e in events;
      StepDrains(s, e, pass);
      forall other | other in events[1..] ensures other in events {
      }
      TheDrainWaits(Next(s, e), events[1..], pass);
    }
  }

  lemma StepDrains(s: State, e: Event, pass: nat)
    requires s.phase.Draining? && pass in s.phase.drained && pass in s.inFlight
    requires e != DrainEnds(true) && e != PassSettles(pass)
    ensures Next(s, e).phase == s.phase && pass in Next(s, e).inFlight
  {
    hide CloseQueues, TakeVerdict;
    assert pass in s.phase.drained * s.inFlight;
    match e
    case InitSettles(q, verdict) =>
      if Enabled(s, e) {
        VerdictKeepsReads(s, q, verdict);
      }
    case _ =>
  }

  lemma VerdictKeepsReads(s: State, q: nat, verdict: Verdict)
    requires q < |s.queues|
    ensures TakeVerdict(s, q, verdict).phase == s.phase && TakeVerdict(s, q, verdict).inFlight == s.inFlight
  {
    hide TellsRefusal;
  }

  /**
   * A close that closes its queues without having timed out has waited for every
   * read that was in flight as it began.
   */
  lemma TheCloseWaitsForItsReads(registry: set<Name>, readOnly: bool, before: seq<Event>, after: seq<Event>, pass: nat)
    requires CloseCalled !in before && pass in Run(Initial(registry, readOnly), before).inFlight
    requires var end := Run(Next(Run(Initial(registry, readOnly), before), CloseCalled), after);
             end.phase.Waiting? || end.phase.Settled?
    ensures DrainEnds(true) in after || PassSettles(pass) in after
  {
    hide Run, Sound, CloseQueues;
    var s := Run(Initial(registry, readOnly), before);
    RunComesFrom(Initial(registry, readOnly), [], before);
    assert [] + before == before;
    assert s.phase.Open?;
    var begun := Next(s, CloseCalled);
    assert begun.phase == Draining(s.inFlight) && begun.inFlight == s.inFlight;
    if LeavesTheRead(after, pass) {
      TheDrainWaits(begun, after, pass);
    }
  }

  // ------------------------------------------------------------------
  // A close comes to its end.

  /** Only a queue let go whose close is not over is waited for as such. */
  predicate ForgottenAreClosing(s: State) {
    forall q <- s.forgotten :: q < |s.queues| && s.queues[q].closing.Forgotten? && s.queues[q].closed.None?
  }

  lemma ClosingKeepsForgotten(s: State)
    requires CacheAgrees(s) && ForgottenAreClosing(s)
    ensures ForgottenAreClosing(CloseQueues(s))
  {
    hide CloseEach;
    CloseEachLeavesOthers(s.(cache := map[], phase := Waiting(s.forgotten)), CachedBelow(s, |s.queues|));
  }

  lemma {:induction false} CloseEachLeavesOthers(s: State, cached: seq<nat>)
    ensures var s' := CloseEach(s, cached);
      && |s'.queues| == |s.queues| && s'.forgotten == s.forgotten
      && forall q | 0 <= q < |s.queues| && q !in cached :: s'.queues[q] == s.queues[q]
    decreases |cached|
  {
    if cached != [] {
      var q := cached[0];
      CloseEachLeavesOthers(if q < |s.queues| then
                              s.(queues := s.queues[q := s.queues[q].(closing := ByTheClose)],
                                 log := s.log + [QueueCloseStarted(q, true)])
                            else s,
                            cached[1..]);
    }
  }

  lemma StepKeepsForgotten(s: State, e: Event)
    requires Sound(s) && ForgottenAreClosing(s)
    ensures ForgottenAreClosing(Next(s, e))
  {
    hide InOrder, LogAgrees, CloseQueues, RefusedBelow, TellsRefusal;
    match e
    case CloseCalled => ClosingKeepsForgotten(s.(log := s.log + [CloseBegun]));
    case DrainEnds(_) => ClosingKeepsForgotten(s);
    case _ =>
  }

  lemma {:induction false} RunKeepsForgotten(s: State, events: seq<Event>)
    requires Sound(s) && ForgottenAreClosing(s)
    ensures ForgottenAreClosing(Run(s, events))
    decreases |events|
  {
    hide Sound, ForgottenAreClosing, Next;
    if events != [] {
      NextIsSound(s, events[0]);
      StepKeepsForgotten(s, events[0]);
      RunKeepsForgotten(Next(s, events[0]), events[1..]);
    }
  }

  /** The queues whose close is not over. */
  function Unclosed(queues: seq<Queue>): nat {
    if queues == [] then 0 else Unclosed(queues[1..]) + if queues[0].closed.None? then 1 else 0
  }

  lemma {:induction false} OneMoreClosed(queues: seq<Queue>, q: nat, ok: bool)
    requires q < |queues| && queues[q].closed.None?
    ensures Unclosed(queues[q := queues[q].(closed := Some(ok))]) < Unclosed(queues)
    decreases |queues|
  {
    if q > 0 {
      assert queues[q := queues[q].(closed := Some(ok))][1..]
             == queues[1..][q - 1 := queues[1..][q - 1].(closed := Some(ok))];
      OneMoreClosed(queues[1..], q - 1, ok);
    }
  }

  predicate MayClose(s: State, q: nat) {
    Enabled(s, QueueCloses(q, true))
  }

  lemma ForgottenMayClose(s: State)
    requires ForgottenAreClosing(s)
    ensures forall q <- s.forgotten :: MayClose(s, q)
  {
  }

  /** What a close that has begun and not settled goes on with: a read, the drain, a queue, and then its end. */
  lemma TheCloseGoesOn(s: State) returns (e: Event)
    requires Sound(s) && ForgottenAreClosing(s) && (s.phase.Draining? || s.phase.Waiting?)
    ensures Enabled(s, e)
    ensures match e
      case PassSettles(pass) => s.phase.Draining? && pass in s.inFlight
      case DrainEnds(timedOut) => s.phase.Draining? && !timedOut
      case QueueCloses(q, ok) => s.phase.Waiting? && ok
      case CloseEnds(timedOut) => s.phase.Waiting? && !timedOut
      case _ => false
  {
    hide Sound;
    if s.phase.Draining? {
      if pass :| pass in s.phase.drained * s.inFlight {
        e := PassSettles(pass);
      } else {
        e := DrainEnds(false);
      }
    } else if q: nat :| MayClose(s, q) {
      e := QueueCloses(q, true);
    } else {
      e := CloseEnds(false);
      ForgottenMayClose(s);
      forall q | 0 <= q < |s.queues| && s.queues[q].closing.ByTheClose? ensures s.queues[q].closed.Some? {
        assert !MayClose(s, q);
      }
    }
  }

  /**
   * From wherever a close that has begun stands, it comes to its end in time by the
   * reads, the drain and the closes it waits for alone.
   */
  lemma {:induction false} ABegunCloseCanSettle(s: State) returns (events: seq<Event>)
    requires Sound(s) && ForgottenAreClosing(s) && !s.phase.Open?
    ensures forall e <- events :: e.PassSettles? || e == DrainEnds(false) || e.QueueCloses? || e == CloseEnds(false)
    ensures Run(s, events).phase.Settled?
    decreases if s.phase.Settled? then 0 else if s.phase.Waiting? then 1 else 2, |s.inFlight|, Unclosed(s.queues)
  {
    if s.phase.Settled? {
      return [];
    }
    hide Sound, ForgottenAreClosing, CloseQueues, RefusedBelow;
    var e := TheCloseGoesOn(s);
    var next := Next(s, e);
    NextIsSound(s, e);
    StepKeepsForgotten(s, e);
    match e {
      case PassSettles(pass) => OneReadLess(s.inFlight, pass);
      case DrainEnds(_) => ClosingKeepsVerdicts(s);
      case QueueCloses(q, ok) => OneMoreClosed(s.queues, q, ok);
      case _ =>
    }
    var rest := ABegunCloseCanSettle(next);
    events := [e] + rest;
    assert events[1..] == rest;
  }

  lemma OneReadLess(inFlight: set<nat>, pass: nat)
    requires pass in inFlight
    ensures |inFlight - {pass}| < |inFlight|
  {
  }

  /** The same of every run in which the close was called. */
  lemma ACalledCloseCanSettle(registry: set<Name>, readOnly: bool, before: seq<Event>) returns (events: seq<Event>)
    requires CloseCalled in before
    ensures forall e <- events :: e.PassSettles? || e == DrainEnds(false) || e.QueueCloses? || e == CloseEnds(false)
    ensures Run(Run(Initial(registry, readOnly), before), events).phase.Settled?
  {
    hide Sound, Run;
    var initial := Initial(registry, readOnly);
    InitialIsSound(registry, readOnly);
    RunIsSound(initial, before);
    RunKeepsForgotten(initial, before);
    RunComesFrom(initial, [], before);
    assert [] + before == before;
    events := ABegunCloseCanSettle(Run(initial, before));
  }
}
