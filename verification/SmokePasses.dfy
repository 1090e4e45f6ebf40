/**
 * The way of a smoke run that passes: what its job decides, and that a run that
 * passed and stops cleanly leaves with 0.
 */
module SmokePasses {
  import opened Wrappers
  import Shutdown
  import ShutdownProofs
  import opened ShutdownProgress
  import opened SmokeRun

  // ------------------------------------------------------------------
  // What the job of the run decides.

  /** Until its job is on the queue no job is; and while the run is open, the job enqueued is the one watched. */
  ghost predicate WatchesItsJob(s: State) {
    && (s.phase.Opening? || s.phase.AwaitingReady? || s.phase.Enqueuing? ==> forall job :: Enqueued(job) !in s.acts)
    && (forall job :: Enqueued(job) in s.acts && !s.over && !s.interrupted ==> s.phase == Watching(job))
  }

  lemma NextWatches(s: State, e: Event)
    requires WatchesItsJob(s)
    ensures WatchesItsJob(Next(s, e))
  {
    hide Shutdown.Next, Interrupt, Finish;
    if Enabled(s, e) {
      match e
      case Signal(_) => InterruptWatches(s);
      case RunOpens => FinishWatches(s.(phase := AwaitingReady), false);
      case ReadyFails => FinishWatches(s.(phase := Gone), false);
      case EnqueueFails => FinishWatches(s.(phase := Gone), false);
      case JobSays(job, completed) => FinishWatches(if completed then Log(s, JobCompleted(job)) else s, completed);
      case ProbeAnswers => FinishWatches(s, false);
      case _ =>
    }
  }

  /** A verdict ends what is to be watched. */
  lemma FinishWatches(s: State, ok: bool)
    requires forall job :: s.phase.Opening? || s.phase.AwaitingReady? || s.phase.Enqueuing? ==> Enqueued(job) !in s.acts
    requires s.verdict.None? || WatchesItsJob(s)
    ensures WatchesItsJob(Finish(s, ok))
  {
  }

  lemma InterruptWatches(s: State)
    requires WatchesItsJob(s)
    ensures WatchesItsJob(Interrupt(s))
  {
  }

  lemma {:induction false} RunWatches(s: State, events: seq<Event>)
    requires WatchesItsJob(s)
    ensures WatchesItsJob(Run(s, events))
    decreases |events|
  {
    hide Next, WatchesItsJob;
    if events != [] {
      NextWatches(s, events[0]);
      RunWatches(Next(s, events[0]), events[1..]);
    }
  }

  /**
   * While nothing has ended the run, its own job decides it: completed it passes,
   * failed it fails, and at once; what is told of another job changes nothing.
   */
  lemma TheOwnJobDecides(closeMs: nat, events: seq<Event>, job: JobId, told: JobId, completed: bool)
    requires var acts := Run(Initial(closeMs), events).acts; Enqueued(job) in acts && StillOpen(acts)
    ensures var s := Run(Initial(closeMs), events);
            var s' := Next(s, JobSays(told, completed));
            if told != job then s' == s
            else s'.acts == s.acts + (if completed then [JobCompleted(job)] else []) + [Decided(completed)]
  {
    hide Run, ShutdownProofs.Sound, InOrder;
    var s := Run(Initial(closeMs), events);
    InitialIsSound(closeMs);
    RunKeepsSound(Initial(closeMs), events);
    RunWatches(Initial(closeMs), events);
    assert s.verdict.None? && !s.over && !s.interrupted;
  }

  /** The run can end with nothing but these: what it decides then, and what is written of it. */
  function DecidedBy(s: State, e: Event): seq<Act> {
    match e
    case ReadyFails => [Decided(false)]
    case EnqueueFails => [Decided(false)]
    case ProbeAnswers => [Decided(false)]
    case Signal(_) => if s.phase.Opening? then [Interrupted] else [Interrupted, Decided(false)]
    case _ => []
  }

  /**
   * Where nothing has ended a run yet, a refusal on its way to the queue ends it, and
   * so does a signal once it listens; past its deadline the answer of the probe does.
   * It has failed then.
   */
  lemma ARunThatIsCutShortFails(closeMs: nat, events: seq<Event>, e: Event)
    requires var s := Run(Initial(closeMs), events); Enabled(s, e) && s.verdict.None? && !s.interrupted && !s.returned
    requires e.ReadyFails? || e.EnqueueFails? || e.Signal? ==> StillOpen(Run(Initial(closeMs), events).acts)
    requires e.ReadyFails? || e.EnqueueFails? || e.Signal? || e.ProbeAnswers?
    ensures var s := Run(Initial(closeMs), events);
            Next(s, e).acts == s.acts + DecidedBy(s, e)
  {
    hide Run, ShutdownProofs.Sound, InOrder, Shutdown.Next;
    InitialIsSound(closeMs);
    RunKeepsSound(Initial(closeMs), events);
  }

  // ------------------------------------------------------------------
  // A run that passed.

  predicate NoCallIn(log: seq<Shutdown.Act>) {
    forall act <- log :: !act.Called?
  }

  predicate NoCallFailed(log: seq<Shutdown.Act>) {
    forall act <- log :: act.Called? ==> !act.failing
  }

  /** The stop is asked for by a signal or by a run that came back, and without a failure once the run passed. */
  ghost predicate CallsAgree(s: State) {
    && (!s.interrupted && !s.returned ==> s.outcome == s.verdict)
    && (!s.interrupted && s.verdict.Some? ==> s.ran)
    && (s.verdict.None? && !s.interrupted && !s.returned ==> NoCallIn(s.stop.log))
    && (s.verdict == Some(true) ==> !s.interrupted && s.outcome == Some(true) && NoCallFailed(s.stop.log))
  }

  lemma StopAgrees(s: State, e: Shutdown.Event)
    requires CallsAgree(s) && (e.Call? ==> s.interrupted || s.returned || s.verdict.Some?)
    requires e.Call? ==> e.failing == (s.outcome != Some(true))
    ensures CallsAgree(s.(stop := Shutdown.Next(s.stop, e)))
  {
    hide Shutdown.Next;
    OnlyACallIsLogged(s.stop, e);
  }

  lemma InterruptAgrees(s: State)
    requires Sound(s) && CallsAgree(s)
    ensures CallsAgree(Interrupt(s)) && (Interrupt(s).interrupted || s.returned || s.verdict.Some?)
  {
    hide ShutdownProofs.Sound, InOrder, NoCallIn, NoCallFailed;
  }

  lemma FinishAgrees(s: State, ok: bool)
    requires CallsAgree(s) && (s.verdict.None? ==> !s.returned && (ok ==> !s.interrupted))
    requires s.ran && s.verdict.None? ==> s.returned
    ensures CallsAgree(Finish(s, ok))
  {
  }

  lemma RunEventAgrees(s: State, e: Event)
    requires Sound(s) && CallsAgree(s) && Enabled(s, e) && !e.Signal? && !e.Stop?
    ensures CallsAgree(Next(s, e))
  {
    hide ShutdownProofs.Sound, InOrder, Shutdown.Next, NoCallIn, NoCallFailed, Finish;
    match e
    case RunThrows =>
      StopAgrees(s.(ran := true, returned := true, phase := Gone), Shutdown.Call(SMOKE_DONE, s.outcome != Some(true)));
    case RunOpens => FinishAgrees(s.(phase := AwaitingReady), false);
    case ReadyFails => FinishAgrees(s.(phase := Gone), false);
    case EnqueueFails => FinishAgrees(s.(phase := Gone), false);
    case JobSays(job, completed) =>
      if job == s.phase.job && !s.over {
        FinishAgrees(if completed then Log(s, JobCompleted(job)) else s, completed);
      }
    case ProbeAnswers => FinishAgrees(s, false);
    case RunReturns =>
      var back := s.(outcome := s.verdict, ran := true, returned := true);
      if !s.interrupted {
        StopAgrees(back, Shutdown.Call(SMOKE_DONE, back.outcome != Some(true)));
      }
    case _ =>
  }

  lemma NextAgrees(s: State, e: Event)
    requires Sound(s) && CallsAgree(s)
    ensures CallsAgree(Next(s, e))
  {
    hide Shutdown.Next, Interrupt, Sound, CallsAgree;
    if Enabled(s, e) {
      if e.Signal? {
        InterruptAgrees(s);
        InterruptIs(s);
        StopAgrees(Interrupt(s), Shutdown.Call(e.signal, Interrupt(s).outcome != Some(true)));
      } else if e.Stop? {
        StopAgrees(s, e.event);
      } else {
        RunEventAgrees(s, e);
      }
    }
  }

  lemma InterruptIs(s: State)
    ensures Interrupt(s).returned == s.returned && (s.verdict.Some? ==> Interrupt(s).verdict.Some?)
  {
  }

  lemma {:induction false} RunAgrees(s: State, events: seq<Event>)
    requires Sound(s) && CallsAgree(s)
    ensures CallsAgree(Run(s, events))
    decreases |events|
  {
    hide Sound, CallsAgree, Next;
    if events != [] {
      NextKeepsSound(s, events[0]);
      NextAgrees(s, events[0]);
      RunAgrees(Next(s, events[0]), events[1..]);
    }
  }

  // ------------------------------------------------------------------
  // The command stops in the end.

  /** A command that was told to stop, or whose run came back, is on its way out. */
  predicate IsAsked(s: State) {
    s.interrupted || s.returned ==> s.stop.started
  }

  lemma ACallStarts(s: Shutdown.State, e: Shutdown.Event)
    ensures Shutdown.Next(s, e).started <==> s.started || e.Call?
  {
    hide Shutdown.NextOfCall, Shutdown.NextOfSettled;
    if Shutdown.Enabled(s, e) {
      match e
      case Call(signal, failing) => TheFirstCallStarts(s, signal, failing);
      case StageSettles(j, clean) => ASettlingStartsNothing(s, j, clean);
      case _ =>
    }
  }

  lemma TheFirstCallStarts(s: Shutdown.State, signal: string, failing: bool)
    ensures Shutdown.NextOfCall(s, signal, failing).started
  {
    hide Shutdown.BeginStep;
    if !s.started {
      BeginStepMoves(ShutdownProofs.Armed(s, signal, failing), 0);
    }
  }

  lemma ASettlingStartsNothing(s: Shutdown.State, j: nat, clean: bool)
    requires Shutdown.IsClosing(s, j)
    ensures Shutdown.NextOfSettled(s, j, clean).started
  {
    hide Shutdown.BeginStep, Shutdown.RowDone;
    BeginStepMoves(ShutdownProofs.StageOver(s, j, clean), s.step + 1);
  }

  lemma NextAsks(s: State, e: Event)
    requires IsAsked(s)
    ensures IsAsked(Next(s, e))
  {
    hide Shutdown.Next;
    forall event ensures Shutdown.Next(s.stop, event).started <==> s.stop.started || event.Call? {
      ACallStarts(s.stop, event);
    }
  }

  lemma {:induction false} RunAsks(s: State, events: seq<Event>)
    requires IsAsked(s)
    ensures IsAsked(Run(s, events))
    decreases |events|
  {
    hide IsAsked, Next;
    if events != [] {
      NextAsks(s, events[0]);
      RunAsks(Next(s, events[0]), events[1..]);
    }
  }

  /** Whoever interrupted the run, and however it came back, its stop has begun. */
  lemma TheStopIsAskedFor(closeMs: nat, events: seq<Event>)
    ensures var s := Run(Initial(closeMs), events);
            s.interrupted || s.returned ==> s.stop.log != [] && s.stop.log[0].Called?
  {
    hide Run, InOrder, ShutdownProofs.WindowAgrees, ShutdownProofs.PlaceAgrees, ShutdownProofs.ExitAgrees;
    InitialIsSound(closeMs);
    RunKeepsSound(Initial(closeMs), events);
    RunAsks(Initial(closeMs), events);
  }

  // ------------------------------------------------------------------
  // What the stop of the command hears.

  function HeardOf(s: State, e: Event): seq<Shutdown.Event> {
    if !Enabled(s, e) then []
    else match e
      case Signal(signal) => [Shutdown.Call(signal, Interrupt(s).outcome != Some(true))]
      case RunThrows => if s.interrupted then [] else [Shutdown.Call(SMOKE_DONE, s.outcome != Some(true))]
      case RunReturns => if s.interrupted then [] else [Shutdown.Call(SMOKE_DONE, s.verdict != Some(true))]
      case Stop(event) => [event]
      case _ => []
  }

  function HeardOver(s: State, events: seq<Event>): seq<Shutdown.Event>
    decreases |events|
  {
    if events == [] then [] else HeardOf(s, events[0]) + HeardOver(Next(s, events[0]), events[1..])
  }

  lemma OneIsHeard(s: State, e: Event)
    ensures |HeardOf(s, e)| <= 1
    ensures Next(s, e).stop == if HeardOf(s, e) == [] then s.stop else Shutdown.Next(s.stop, HeardOf(s, e)[0])
  {
    hide Shutdown.Next;
  }

  /** The stop of the command is a stop by itself, of what it hears. */
  lemma {:induction false} TheStopHears(s: State, events: seq<Event>)
    ensures Run(s, events).stop == Shutdown.Run(s.stop, HeardOver(s, events))
    decreases |events|
  {
    hide Shutdown.Next, Next, HeardOf;
    if events == [] {
      ShutdownProofs.RunOfNothing(s.stop);
    } else {
      var e, rest := events[0], HeardOver(Next(s, events[0]), events[1..]);
      OneIsHeard(s, e);
      TheStopHears(Next(s, e), events[1..]);
      if HeardOf(s, e) == [] {
        assert HeardOf(s, e) + rest == rest;
      } else {
        ShutdownProofs.RunUnfolds(s.stop, HeardOf(s, e)[0], rest);
        assert HeardOf(s, e) == [HeardOf(s, e)[0]];
      }
    }
  }

  lemma {:induction false} HeardAppends(s: State, first: seq<Event>, second: seq<Event>)
    ensures HeardOver(s, first + second) == HeardOver(s, first) + HeardOver(Run(s, first), second)
    ensures Run(s, first + second) == Run(Run(s, first), second)
    decreases |first|
  {
    hide Next, HeardOf;
    if first == [] {
      assert first + second == second;
    } else {
      assert (first + second)[1..] == first[1..] + second;
      HeardAppends(Next(s, first[0]), first[1..], second);
    }
  }

  lemma ReadingIsHeard(s: State, event: Shutdown.Event)
    requires event.Resumes? || event.FlushEnds?
    ensures HeardOver(s, [Stop(event)]) == [event]
  {
    assert [Stop(event)][1..] == [];
  }

  predicate ClosesCleanly(e: Event) {
    !(e.Stop? && e.event.StageSettles? && !e.event.clean)
  }

  lemma {:induction false} CleanClosesAreHeard(s: State, events: seq<Event>)
    ensures (forall e <- events :: ClosesCleanly(e)) ==>
              forall e <- HeardOver(s, events) :: e.StageSettles? ==> e.clean
    ensures Stop(Shutdown.DeadlineFires) !in events ==> Shutdown.DeadlineFires !in HeardOver(s, events)
    decreases |events|
  {
    hide Next, Interrupt;
    if events != [] {
      CleanClosesAreHeard(Next(s, events[0]), events[1..]);
      assert events[0] in events && forall e <- events[1..] :: e in events;
    }
  }

  ghost function LogOf(closeMs: nat, events: seq<Event>): seq<Shutdown.Act> {
    Run(Initial(closeMs), events).stop.log
  }

  /** A run that passed has asked its stop for nothing but a clean end. */
  lemma APassFailsNothing(closeMs: nat, events: seq<Event>)
    requires Decided(true) in Run(Initial(closeMs), events).acts && forall e <- events :: ClosesCleanly(e)
    ensures !Shutdown.Failing(LogOf(closeMs, events))
  {
    hide Run, Shutdown.Run, InOrder, Next, ShutdownProofs.Sound;
    InitialIsSound(closeMs);
    RunKeepsSound(Initial(closeMs), events);
    RunAgrees(Initial(closeMs), events);
    var s := Run(Initial(closeMs), events);
    OneVerdict(s);
    TheStopHears(Initial(closeMs), events);
    CleanClosesAreHeard(Initial(closeMs), events);
    var heard := HeardOver(Initial(closeMs), events);
    ActsComeFromTheirEvents(PLAN, closeMs, false, heard);
    forall act | act in s.stop.log ensures !Shutdown.Fails(act) {
      assert act in ShutdownProofs.LogOf(PLAN, closeMs, false, heard);
      var e :| e in heard && ToldBy(act, e);
      CleanlyTold(act, e);
    }
  }

  lemma CleanlyTold(act: Shutdown.Act, e: Shutdown.Event)
    requires ToldBy(act, e) && (e.StageSettles? ==> e.clean) && (act.Called? ==> !act.failing)
    ensures !Shutdown.Fails(act)
  {
  }

  lemma OneVerdict(s: State)
    requires Sound(s) && Decided(true) in s.acts
    ensures s.verdict == Some(true)
  {
    hide ShutdownProofs.Sound, InOrder;
    var t: nat :| t < |s.acts| && s.acts[t] == Decided(true);
    var u: nat :| u < |s.acts| && s.acts[u] == Decided(s.verdict.value);
    DecidedOnce(s.acts, t, u);
    DecidedOnce(s.acts, u, t);
  }

  lemma DecidedOnce(acts: seq<Act>, t: nat, u: nat)
    requires InOrder(acts) && t < |acts| && u < |acts| && acts[t].Decided? && acts[u].Decided?
    ensures t >= u
  {
    forall a | 0 <= a < u ensures acts[a] in acts[..u] {
      assert acts[..u][a] == acts[a];
    }
    assert Justified(acts[..u], acts[u]);
  }

  lemma ActsStay(s: State, events: seq<Event>)
    ensures s.acts <= Run(s, events).acts
    decreases |events|
  {
    hide Next;
    if events != [] {
      NextKeepsActs(s, events[0]);
      ActsStay(Next(s, events[0]), events[1..]);
    }
  }

  lemma NextKeepsActs(s: State, e: Event)
    ensures s.acts <= Next(s, e).acts
  {
    hide Shutdown.Next, Finish, Interrupt;
    match e
    case Signal(_) => InterruptKeepsActs(s);
    case RunOpens => FinishKeepsActs(s.(phase := AwaitingReady), false);
    case ReadyFails => FinishKeepsActs(s.(phase := Gone), false);
    case EnqueueFails => FinishKeepsActs(s.(phase := Gone), false);
    case JobSays(job, completed) => FinishKeepsActs(if completed then Log(s, JobCompleted(job)) else s, completed);
    case ProbeAnswers => FinishKeepsActs(s, false);
    case _ =>
  }

  lemma FinishKeepsActs(s: State, ok: bool)
    ensures s.acts <= Finish(s, ok).acts
  {
  }

  lemma InterruptKeepsActs(s: State)
    ensures s.acts <= Interrupt(s).acts
  {
  }

  lemma NothingIsForced(closeMs: nat, events: seq<Event>)
    ensures NoneForced(LogOf(closeMs, events))
  {
    hide Run, Shutdown.Run;
    TheStopHears(Initial(closeMs), events);
    var heard := HeardOver(Initial(closeMs), events);
    ShutdownProofs.EveryRunIsInOrder(PLAN, closeMs, false, heard);
    var log := LogOf(closeMs, events);
    forall act | act in log && act.Verdict? ensures !act.forced {
      var t :| 0 <= t < |log| && log[t] == act;
      assert Shutdown.Justified(PLAN, closeMs, false, log[..t], log[t]);
    }
  }

  /**
   * The run passed, every stage closes cleanly before the deadline: whatever else
   * comes, signals included, the command leaves with 0.
   */
  lemma APassLeavesWithZero(closeMs: nat, events: seq<Event>, before: seq<Event>, between: seq<Event>,
                            after: seq<Event>)
    requires Decided(true) in Run(Initial(closeMs), events).acts
    requires LogOf(closeMs, events) != [] && Shutdown.AllClosed(PLAN, LogOf(closeMs, events))
    requires Stop(Shutdown.DeadlineFires) !in events && forall e <- events + before :: ClosesCleanly(e)
    ensures Shutdown.Exited(0) in
              LogOf(closeMs, events + (before + [Stop(Shutdown.Resumes)] + (between + [Stop(Shutdown.FlushEnds)])
                                       + after))
  {
    hide Run, HeardOver, Shutdown.Run, Shutdown.AllClosed, NoneForced, Shutdown.Initial, Shutdown.Tells;
    var s := Initial(closeMs);
    var end := before + [Stop(Shutdown.Resumes)] + (between + [Stop(Shutdown.FlushEnds)]) + after;
    var closed := Run(s, events);
    var read := Run(Run(closed, before), [Stop(Shutdown.Resumes)]);
    var left := Run(Run(read, between), [Stop(Shutdown.FlushEnds)]);
    HeardAppends(s, events, end);
    OnTheWayOut(closed, before, between, after);
    HeardAppends(s, events, before);
    CleanClosesAreHeard(s, events);
    ActsStay(closed, before);
    APassFailsNothing(closeMs, events + before);
    NothingIsForced(closeMs, events + end);
    TheStopHears(s, events);
    TheStopHears(s, events + before);
    TheStopHears(s, events + end);
    ACleanLogLeavesWithZero(PLAN, closeMs, false, HeardOver(s, events), HeardOver(closed, before),
                            HeardOver(read, between), HeardOver(left, after));
  }

  /** What the stop hears while its verdict is read and its log flushed. */
  lemma OnTheWayOut(s: State, before: seq<Event>, between: seq<Event>, after: seq<Event>)
    ensures var read := Run(Run(s, before), [Stop(Shutdown.Resumes)]);
            var left := Run(Run(read, between), [Stop(Shutdown.FlushEnds)]);
            HeardOver(s, before + [Stop(Shutdown.Resumes)] + (between + [Stop(Shutdown.FlushEnds)]) + after)
            == HeardOver(s, before) + [Shutdown.Resumes] + (HeardOver(read, between) + [Shutdown.FlushEnds])
               + HeardOver(left, after)
  {
    hide Run, HeardOver;
    var resumed, flushed := [Stop(Shutdown.Resumes)], [Stop(Shutdown.FlushEnds)];
    var read := Run(Run(s, before), resumed);
    HeardAppends(s, before + resumed + (between + flushed), after);
    HeardAppends(s, before + resumed, between + flushed);
    HeardAppends(s, before, resumed);
    HeardAppends(read, between, flushed);
    ReadingIsHeard(Run(s, before), Shutdown.Resumes);
    ReadingIsHeard(Run(read, between), Shutdown.FlushEnds);
  }

  // ------------------------------------------------------------------
  // A run that passes.

  /** The way of a run that passes, up to its return. */
  function Passing(job: JobId): seq<Event> {
    [RunOpens, Ready, EnqueueAnswers(job), JobSays(job, true), RunReturns]
  }

  function OfTheStop(events: seq<Shutdown.Event>): seq<Event> {
    seq(|events|, i requires 0 <= i < |events| => Stop(events[i]))
  }

  lemma {:induction false} WhatTheStopHears(s: State, events: seq<Shutdown.Event>)
    requires forall e <- events :: !e.Call?
    ensures HeardOver(s, OfTheStop(events)) == events
    decreases |events|
  {
    hide Shutdown.Next;
    if events != [] {
      assert OfTheStop(events)[1..] == OfTheStop(events[1..]);
      WhatTheStopHears(Next(s, Stop(events[0])), events[1..]);
    }
  }

  lemma HeardUnfolds(s: State, e: Event, rest: seq<Event>)
    ensures HeardOver(s, [e] + rest) == HeardOf(s, e) + HeardOver(Next(s, e), rest)
  {
    hide Next, HeardOf;
    assert ([e] + rest)[1..] == rest;
  }

  lemma PassingIsHeard(closeMs: nat, job: JobId)
    ensures HeardOver(Initial(closeMs), Passing(job)) == [Shutdown.Call(SMOKE_DONE, false)]
  {
    hide Shutdown.Next, Shutdown.Initial, HeardOver;
    var s := Initial(closeMs);
    var open := Next(s, RunOpens);
    var ready := Next(open, Ready);
    var enqueued := Next(ready, EnqueueAnswers(job));
    var decided := Next(enqueued, JobSays(job, true));
    var watched := [JobSays(job, true)] + ([RunReturns] + []);
    assert Passing(job) == [RunOpens] + ([Ready] + ([EnqueueAnswers(job)] + watched));
    HeardUnfolds(s, RunOpens, [Ready] + ([EnqueueAnswers(job)] + watched));
    HeardUnfolds(open, Ready, [EnqueueAnswers(job)] + watched);
    HeardUnfolds(ready, EnqueueAnswers(job), watched);
    HeardUnfolds(enqueued, JobSays(job, true), [RunReturns] + []);
    HeardUnfolds(decided, RunReturns, []);
    assert decided.verdict == Some(true) && !decided.interrupted && !decided.returned;
    NothingIsHeard(Next(decided, RunReturns));
  }

  lemma NothingIsHeard(s: State)
    ensures HeardOver(s, []) == []
  {
  }

  /** A run whose job completes can come back, close its stages and leave with 0. */
  lemma ARunCanLeaveWithZero(closeMs: nat, job: JobId) returns (closings: seq<Shutdown.Event>)
    ensures forall e <- closings :: !e.Call?
    ensures Shutdown.Exited(0) in LogOf(closeMs, Passing(job) + OfTheStop(closings))
  {
    hide Run, Shutdown.Run, Shutdown.Next, HeardOver, Passing;
    var settled := EveryPlanCanCloseCleanly(PLAN, closeMs, false, SMOKE_DONE);
    closings := settled + [Shutdown.Resumes, Shutdown.FlushEnds];
    var s := Initial(closeMs);
    PassingIsHeard(closeMs, job);
    HeardAppends(s, Passing(job), OfTheStop(closings));
    WhatTheStopHears(Run(s, Passing(job)), closings);
    TheStopHears(s, Passing(job) + OfTheStop(closings));
  }
}
