/**
 * The smoke command: the run that puts one job on the queue and waits for it, the
 * command around it, and the stop whose exit code it answers for. A log of acts
 * says what was known when; `Justified` says what each act must rest on.
 */
module SmokeRun {
  import opened Wrappers
  import Shutdown
  import opened ShutdownProofs
  import opened ShutdownHandler

  type JobId = string

  datatype Act =
    | Interrupted
    | DeadlineFired
    | EnqueueCalled
    | Enqueued(job: JobId)
    | JobCompleted(job: JobId)
    | Decided(ok: bool)

  /** Where the asynchronous part of the run stands. */
  datatype Phase = Opening | AwaitingReady | Enqueuing | Watching(job: JobId) | Gone

  datatype State = State(
    stop: Shutdown.State,
    outcome: Option<bool>, ran: bool, interrupted: bool, returned: bool,
    phase: Phase, over: bool, verdict: Option<bool>, deadlineFired: bool,
    acts: seq<Act>)

  datatype Event =
    | Signal(signal: string)
    | RunThrows
    | RunOpens
    | Ready
    | ReadyFails
    | EnqueueAnswers(job: JobId)
    | EnqueueFails
    | JobSays(job: JobId, completed: bool)
    | DeadlinePasses
    | ProbeAnswers
    | RunReturns
    | Stop(event: Shutdown.Event)

  /** The event stream, the queues, and the two clients they run on. */
  const PLAN: Shutdown.Plan := [[1], [1], [1], [1]]
  const SMOKE_DONE := "smoke done"

  function Initial(closeMs: nat): State {
    State(Shutdown.Initial(PLAN, closeMs, false), None, false, false, false, Opening, false, None, false, [])
  }

  predicate Enabled(s: State, e: Event) {
    match e
    case Signal(signal) => Shutdown.IsSignal(signal)
    case RunThrows => s.phase.Opening? && !s.returned
    case RunOpens => s.phase.Opening? && !s.returned
    case Ready => s.phase.AwaitingReady?
    case ReadyFails => s.phase.AwaitingReady?
    case EnqueueAnswers(_) => s.phase.Enqueuing?
    case EnqueueFails => s.phase.Enqueuing?
    case JobSays(_, _) => s.phase.Watching?
    case DeadlinePasses => !s.phase.Opening? && !s.deadlineFired && !s.returned
    case ProbeAnswers => s.deadlineFired
    case RunReturns => s.verdict.Some? && !s.returned
    case Stop(event) => !event.Call?
  }

  function Log(s: State, act: Act): State {
    s.(acts := s.acts + [act])
  }

  /** The run is decided, once; the command is told before the promise resolves. */
  function Finish(s: State, ok: bool): State {
    if s.verdict.Some? then s
    else
      var decided := Log(s.(verdict := Some(ok), over := true), Decided(ok));
      if s.ran || s.interrupted then decided else decided.(outcome := Some(ok), ran := true)
  }

  function AskToStop(s: State, signal: string): State {
    s.(stop := Shutdown.Next(s.stop, Shutdown.Call(signal, s.outcome != Some(true))))
  }

  /** A signal before the verdict aborts the run, which answers at once when it is listening. */
  function Interrupt(s: State): State {
    if s.ran || s.interrupted then s
    else
      var aborted := Log(s.(interrupted := true), Interrupted);
      if s.phase.Opening? then aborted else Finish(aborted, false)
  }

  function Next(s: State, e: Event): State {
    if !Enabled(s, e) then s else
    match e
    case Signal(signal) => AskToStop(Interrupt(s), signal)
    case RunThrows =>
      var thrown := s.(ran := true, returned := true, phase := Gone);
      if s.interrupted then thrown else AskToStop(thrown, SMOKE_DONE)
    case RunOpens =>
      var listening := s.(phase := AwaitingReady);
      if s.interrupted then Finish(listening, false) else listening
    case Ready =>
      if s.over then s.(phase := Gone) else Log(s.(phase := Enqueuing), EnqueueCalled)
    case ReadyFails =>
      if s.over || s.interrupted then s.(phase := Gone) else Finish(s.(phase := Gone), false)
    case EnqueueAnswers(job) =>
      var enqueued := Log(s, Enqueued(job));
      if s.over then enqueued.(phase := Gone) else enqueued.(phase := Watching(job))
    case EnqueueFails =>
      if s.over || s.interrupted then s.(phase := Gone) else Finish(s.(phase := Gone), false)
    case JobSays(job, completed) =>
      if job != s.phase.job || s.over then s
      else Finish(if completed then Log(s, JobCompleted(job)) else s, completed)
    case DeadlinePasses => Log(s.(over := true, deadlineFired := true), DeadlineFired)
    case ProbeAnswers => Finish(s, false)
    case RunReturns =>
      var back := s.(outcome := s.verdict, ran := true, returned := true);
      if s.interrupted then back else AskToStop(back, SMOKE_DONE)
    case Stop(event) => s.(stop := Shutdown.Next(s.stop, event))
  }

  function Run(s: State, events: seq<Event>): State
    decreases |events|
  {
    if events == [] then s else Run(Next(s, events[0]), events[1..])
  }

  // ------------------------------------------------------------------
  // What the acts rest on.

  /** Nothing has ended the run: no signal, no deadline, no verdict. */
  ghost predicate StillOpen(before: seq<Act>) {
    forall act <- before :: !act.Interrupted? && !act.DeadlineFired? && !act.Decided?
  }

  ghost predicate Justified(before: seq<Act>, act: Act) {
    match act
    case EnqueueCalled => StillOpen(before) && EnqueueCalled !in before
    case Enqueued(_) => EnqueueCalled in before
    case Decided(ok) =>
      && (forall other <- before :: !other.Decided?)
      && (ok ==> StillOpen(before) && before != [] && before[|before| - 1].JobCompleted?)
    case JobCompleted(job) => Enqueued(job) in before
    case Interrupted => Interrupted !in before
    case DeadlineFired => DeadlineFired !in before
  }

  ghost predicate InOrder(acts: seq<Act>) {
    forall t | 0 <= t < |acts| :: Justified(acts[..t], acts[t])
  }

  /** The acts say what the fields say. */
  ghost predicate Sound(s: State) {
    && ShutdownProofs.Sound(s.stop) && InOrder(s.acts)
    && (s.interrupted <==> Interrupted in s.acts)
    && (s.deadlineFired <==> DeadlineFired in s.acts)
    && (s.verdict.Some? <==> exists act <- s.acts :: act.Decided?)
    && (s.verdict.Some? ==> Decided(s.verdict.value) in s.acts)
    && (s.over <==> s.deadlineFired || s.verdict.Some?)
    && (s.interrupted && !s.phase.Opening? ==> s.verdict.Some? || s.returned)
    && (s.phase.Opening? ==> !s.over && EnqueueCalled !in s.acts)
    && (s.phase.AwaitingReady? ==> EnqueueCalled !in s.acts)
    && (s.phase.Enqueuing? ==> EnqueueCalled in s.acts)
    && (s.phase.Watching? ==> Enqueued(s.phase.job) in s.acts)
    && (s.outcome == Some(true) ==> s.verdict == Some(true))
    && (s.returned && s.verdict.None? ==> s.phase.Gone? && !s.deadlineFired)
    && (s.ran && s.verdict.None? ==> s.returned) && (s.returned ==> s.ran)
    && (s.verdict.Some? && !s.interrupted ==> s.outcome == s.verdict)
    && (forall act <- s.stop.log :: act.Called? && !act.failing ==> s.outcome == Some(true))
  }

  // ------------------------------------------------------------------
  // Every event keeps it.

  lemma LogKeepsOrder(s: State, act: Act)
    requires InOrder(s.acts) && Justified(s.acts, act)
    ensures InOrder(Log(s, act).acts)
    ensures forall other :: other in Log(s, act).acts <==> other in s.acts || other == act
  {
    var acts := Log(s, act).acts;
    assert acts[|s.acts|] == act;
    forall t | 0 <= t < |acts| ensures Justified(acts[..t], acts[t]) {
      assert acts[..t] == if t < |s.acts| then s.acts[..t] else s.acts;
    }
  }

  lemma FinishIsSound(s: State, ok: bool)
    requires Sound(s) && !s.phase.Opening? && (s.verdict.None? ==> !s.returned)
    requires ok && s.verdict.None? ==> Justified(s.acts, Decided(true))
    ensures Sound(Finish(s, ok))
  {
    hide ShutdownProofs.Sound, InOrder;
    if s.verdict.None? {
      LogKeepsOrder(s, Decided(ok));
    }
  }

  lemma AbortIsSound(s: State)
    requires Sound(s) && !s.ran && !s.interrupted
    ensures Sound(Interrupt(s))
  {
    hide ShutdownProofs.Sound, InOrder;
    LogKeepsOrder(s, Interrupted);
    var aborted := Log(s.(interrupted := true), Interrupted);
    if !s.phase.Opening? && s.verdict.None? {
      LogKeepsOrder(aborted, Decided(false));
    }
  }

  /** The stop hears of calls only from the command. */
  lemma {:induction false} RowAddsNoCall(log: seq<Shutdown.Act>, i: nat, row: seq<nat>, j: nat)
    ensures forall act <- Shutdown.StartRow(log, i, row, j) :: act.Called? ==> act in log
    decreases |row| - j
  {
    if j < |row| {
      var first := Shutdown.CloseStarted(Shutdown.Position(i, j, 0));
      RowAddsNoCall(if row[j] > 0 then log + [first] else log, i, row, j + 1);
    }
  }

  lemma {:induction false} PlanAddsNoCall(s: Shutdown.State, i: nat)
    ensures forall act <- Shutdown.BeginStep(s, i).log :: act.Called? ==> act in s.log
    decreases |s.plan| - i
  {
    if i < |s.plan| {
      RowAddsNoCall(s.log, i, s.plan[i], 0);
      PlanAddsNoCall(s, i + 1);
    }
  }

  lemma OnlyACallIsLogged(s: Shutdown.State, e: Shutdown.Event)
    ensures forall act <- Shutdown.Next(s, e).log :: act.Called? ==>
              act in s.log || (e.Call? && act == Shutdown.Called(e.signal, e.failing, s.now))
  {
    hide Shutdown.NextOfCall, Shutdown.NextOfSettled;
    if Shutdown.Enabled(s, e) {
      if e.Call? {
        ACallLogsItself(s, e.signal, e.failing);
      } else if e.StageSettles? {
        ASettlingLogsNoCall(s, e.sequence, e.clean);
      }
    }
  }

  lemma ACallLogsItself(s: Shutdown.State, signal: string, failing: bool)
    ensures forall act <- Shutdown.NextOfCall(s, signal, failing).log :: act.Called? ==>
              act in s.log || act == Shutdown.Called(signal, failing, s.now)
  {
    hide Shutdown.BeginStep;
    if !s.started {
      PlanAddsNoCall(Shutdown.Started(Heard(s, signal, failing), signal), 0);
    }
  }

  lemma ASettlingLogsNoCall(s: Shutdown.State, j: nat, clean: bool)
    requires Shutdown.IsClosing(s, j)
    ensures forall act <- Shutdown.NextOfSettled(s, j, clean).log :: act.Called? ==> act in s.log
  {
    hide Shutdown.BeginStep;
    PlanAddsNoCall(StageOver(s, j, clean), s.step + 1);
  }

  lemma StopIsSound(s: State, e: Shutdown.Event)
    requires Sound(s)
    requires e.Call? ==> e.failing == (s.outcome != Some(true))
    ensures Sound(s.(stop := Shutdown.Next(s.stop, e)))
  {
    hide ShutdownProofs.Sound, InOrder, Shutdown.Next;
    NextIsSound(s.stop, e);
    OnlyACallIsLogged(s.stop, e);
  }

  lemma RunEventIsSound(s: State, e: Event)
    requires Sound(s) && Enabled(s, e) && !e.Signal? && !e.Stop?
    ensures Sound(Next(s, e))
  {
    hide ShutdownProofs.Sound, InOrder, Shutdown.Next;
    match e
    case RunThrows =>
      StopIsSound(s.(ran := true, returned := true, phase := Gone), Shutdown.Call(SMOKE_DONE, s.outcome != Some(true)));
    case RunOpens =>
      if s.interrupted {
        FinishOpened(s);
      }
    case Ready =>
      if !s.over {
        LogKeepsOrder(s, EnqueueCalled);
      }
    case ReadyFails =>
      if !s.over && !s.interrupted {
        FinishIsSound(s.(phase := Gone), false);
      }
    case EnqueueAnswers(job) =>
      LogKeepsOrder(s, Enqueued(job));
    case EnqueueFails =>
      if !s.over && !s.interrupted {
        FinishIsSound(s.(phase := Gone), false);
      }
    case JobSays(job, completed) =>
      if job == s.phase.job && !s.over && completed {
        LogKeepsOrder(s, JobCompleted(job));
        FinishIsSound(Log(s, JobCompleted(job)), true);
      } else if job == s.phase.job && !s.over {
        FinishIsSound(s, false);
      }
    case DeadlinePasses => LogKeepsOrder(s, DeadlineFired);
    case ProbeAnswers => FinishIsSound(s, false);
    case RunReturns =>
      var back := s.(outcome := s.verdict, ran := true, returned := true);
      if !s.interrupted {
        StopIsSound(back, Shutdown.Call(SMOKE_DONE, back.outcome != Some(true)));
      }
  }

  lemma FinishOpened(s: State)
    requires Sound(s) && s.phase.Opening? && !s.returned && s.interrupted
    ensures Sound(Finish(s.(phase := AwaitingReady), false))
  {
    hide ShutdownProofs.Sound, InOrder;
    LogKeepsOrder(s, Decided(false));
  }

  lemma NextKeepsSound(s: State, e: Event)
    requires Sound(s)
    ensures Sound(Next(s, e))
  {
    hide ShutdownProofs.Sound, InOrder, Shutdown.Next, Interrupt, Finish;
    if Enabled(s, e) {
      if e.Signal? {
        AfterSignal(s);
        StopIsSound(Interrupt(s), Shutdown.Call(e.signal, Interrupt(s).outcome != Some(true)));
      } else if e.Stop? {
        StopIsSound(s, e.event);
      } else {
        RunEventIsSound(s, e);
      }
    }
  }

  lemma AfterSignal(s: State)
    requires Sound(s)
    ensures Sound(Interrupt(s))
  {
    if !s.ran && !s.interrupted {
      AbortIsSound(s);
    }
  }

  lemma {:induction false} RunKeepsSound(s: State, events: seq<Event>)
    requires Sound(s)
    ensures Sound(Run(s, events)) && Shutdown.SameStop(s.stop, Run(s, events).stop)
    decreases |events|
  {
    hide Sound, Next;
    if events != [] {
      NextKeepsSound(s, events[0]);
      NextKeepsStop(s, events[0]);
      RunKeepsSound(Next(s, events[0]), events[1..]);
    }
  }

  lemma NextKeepsStop(s: State, e: Event)
    requires Sound(s)
    ensures Shutdown.SameStop(s.stop, Next(s, e).stop)
  {
    hide InOrder, Shutdown.Next, ShutdownProofs.Sound;
    NextIsSound(s.stop, if e.Stop? then e.event
                        else if e.Signal? then Shutdown.Call(e.signal, Interrupt(s).outcome != Some(true))
                        else Shutdown.Call(SMOKE_DONE, (if e.RunReturns? then s.verdict else s.outcome) != Some(true)));
  }

  lemma InitialIsSound(closeMs: nat)
    ensures Sound(Initial(closeMs))
  {
    ShutdownProofs.InitialIsSound(PLAN, closeMs, false);
  }

  // ------------------------------------------------------------------
  // The promises of the command, for every run of it.

  /** A passing verdict at `t`, on the word that the job enqueued before went through. */
  ghost predicate PassedAt(acts: seq<Act>, t: nat) {
    && 0 < t < |acts| && acts[t] == Decided(true)
    && acts[t - 1].JobCompleted? && Enqueued(acts[t - 1].job) in acts[..t - 1]
    && StillOpen(acts[..t])
  }

  /**
   * The command leaves with 0 only on a verdict that the job it enqueued itself
   * went through, reached before the deadline and before any signal.
   */
  lemma LeavesWithZeroOnlyOnAPass(closeMs: nat, events: seq<Event>)
    requires Shutdown.Exited(0) in Run(Initial(closeMs), events).stop.log
    ensures exists t: nat :: PassedAt(Run(Initial(closeMs), events).acts, t)
  {
    var s0, s := Initial(closeMs), Run(Initial(closeMs), events);
    InitialIsSound(closeMs);
    RunKeepsSound(s0, events);
    var x :| 0 <= x < |s.stop.log| && s.stop.log[x] == Shutdown.Exited(0);
    var v := ZeroHasACleanStop(s.stop, x);
    var first := s.stop.log[0];
    assert first == s.stop.log[..v][0];
    assert first in s.stop.log[..v] && !Shutdown.Fails(first);
    PassRestsOnItsJob(s);
  }

  lemma PassRestsOnItsJob(s: State)
    requires Sound(s) && s.outcome == Some(true)
    ensures exists t: nat :: PassedAt(s.acts, t)
  {
    hide ShutdownProofs.Sound;
    var t: nat :| t < |s.acts| && s.acts[t] == Decided(true);
    var before := s.acts[..t];
    assert Justified(before, s.acts[t]);
    assert before[t - 1] == s.acts[t - 1];
    assert Justified(s.acts[..t - 1], s.acts[t - 1]);
    assert PassedAt(s.acts, t);
  }

  /** The job is enqueued at most once, and never once the run is over. */
  lemma NothingIsEnqueuedOnceOver(closeMs: nat, events: seq<Event>, a: nat)
    requires var acts := Run(Initial(closeMs), events).acts; a < |acts| && acts[a].EnqueueCalled?
    ensures var acts := Run(Initial(closeMs), events).acts;
            StillOpen(acts[..a]) && forall b: nat :: b < |acts| && acts[b].EnqueueCalled? ==> b == a
  {
    var acts := Run(Initial(closeMs), events).acts;
    InitialIsSound(closeMs);
    RunKeepsSound(Initial(closeMs), events);
    forall u, w | 0 <= u < w < |acts| && acts[u].EnqueueCalled? ensures EnqueueCalled in acts[..w] {
      assert acts[..w][u] == acts[u];
    }
  }

  // ------------------------------------------------------------------

  /** `runSmokeCommand` around `runSmoke`: the variables both close over. */
  class Command {
    const handler: Handler
    var outcome: Option<bool>
    var ran: bool
    var interrupted: bool
    var returned: bool
    var phase: Phase
    var over: bool
    var verdict: Option<bool>
    var deadlineFired: bool
    ghost var acts: seq<Act>

    constructor (closeMs: nat)
      ensures fresh(handler) && Model() == Initial(closeMs)
    {
      handler := new Handler(PLAN, closeMs, false);
      outcome, ran, interrupted, returned := None, false, false, false;
      phase, over, verdict, deadlineFired, acts := Opening, false, None, false, [];
    }

    ghost function Model(): State
      reads this, handler
    {
      State(handler.Model(), outcome, ran, interrupted, returned, phase, over, verdict, deadlineFired, acts)
    }

    /** `finish` of the run, and `onVerdict` of the command in it. */
    method Settle(ok: bool)
      modifies this
      ensures Model() == Finish(old(Model()), ok)
    {
      if verdict.Some? {
        return;
      }
      verdict, over := Some(ok), true;
      acts := acts + [Decided(ok)];
      if !ran && !interrupted {
        outcome, ran := Some(ok), true;
      }
    }

    method SignalCame(signal: string)
      requires Enabled(Model(), Signal(signal))
      modifies this, handler
      ensures Model() == Next(old(Model()), Signal(signal))
    {
      hide Shutdown.NextOfCall, Interrupt;
      Abort();
      handler.Handle(signal, outcome != Some(true));
    }

    /** A run that listens is decided by the signal at once. */
    method Abort()
      modifies this
      ensures Model() == Interrupt(old(Model()))
    {
      if !ran && !interrupted {
        interrupted := true;
        acts := acts + [Interrupted];
        if !phase.Opening? {
          Settle(false);
        }
      }
    }

    /** The run is over for the command: with a verdict, or thrown before it began. */
    method CameBack(thrown: bool)
      requires Enabled(Model(), if thrown then RunThrows else RunReturns)
      modifies this, handler
      ensures Model() == Next(old(Model()), if thrown then RunThrows else RunReturns)
    {
      hide Shutdown.NextOfCall;
      if thrown {
        phase := Gone;
      } else {
        outcome := verdict;
      }
      ran, returned := true, true;
      if !interrupted {
        handler.Handle(SMOKE_DONE, outcome != Some(true));
      }
    }

    method Open()
      requires Enabled(Model(), RunOpens)
      modifies this
      ensures Model() == Next(old(Model()), RunOpens)
    {
      phase := AwaitingReady;
      if interrupted {
        Settle(false);
      }
    }

    /** The events are ready: the job is put on the queue unless the run is over. */
    method BecameReady()
      requires Enabled(Model(), Ready)
      modifies this
      ensures Model() == Next(old(Model()), Ready)
    {
      if over {
        phase := Gone;
        return;
      }
      phase := Enqueuing;
      acts := acts + [EnqueueCalled];
    }

    method EnqueueAnswered(job: JobId)
      requires Enabled(Model(), EnqueueAnswers(job))
      modifies this
      ensures Model() == Next(old(Model()), EnqueueAnswers(job))
    {
      acts := acts + [Enqueued(job)];
      phase := if over then Gone else Watching(job);
    }

    /** The run was refused on its way to the queue. */
    method Refused(e: Event)
      requires (e.ReadyFails? || e.EnqueueFails?) && Enabled(Model(), e)
      modifies this
      ensures Model() == Next(old(Model()), e)
    {
      phase := Gone;
      if !over && !interrupted {
        Settle(false);
      }
    }

    /** An event of a job, or the state of the own job as it was polled. */
    method HeardOfJob(job: JobId, completed: bool)
      requires Enabled(Model(), JobSays(job, completed))
      modifies this
      ensures Model() == Next(old(Model()), JobSays(job, completed))
    {
      if job == phase.job && !over {
        if completed {
          acts := acts + [JobCompleted(job)];
        }
        Settle(completed);
      }
    }

    method DeadlinePassed()
      requires Enabled(Model(), DeadlinePasses)
      modifies this
      ensures Model() == Next(old(Model()), DeadlinePasses)
    {
      over, deadlineFired := true, true;
      acts := acts + [DeadlineFired];
    }

    method ProbeAnswered()
      requires Enabled(Model(), ProbeAnswers)
      modifies this
      ensures Model() == Next(old(Model()), ProbeAnswers)
    {
      Settle(false);
    }
  }
}
