/**
 * The worker process: a start that races with the stop of a signal. The stages of
 * the runtime wait for the start, and a start that fails says so to the stop in
 * the turn in which its stages hear of it.
 */
module Bootstrap {
  import opened Wrappers
  import Shutdown
  import opened ShutdownProofs
  import opened ShutdownHandler
  import ShutdownProgress

  datatype Start = Pending | Up | Broken

  datatype State = State(stop: Shutdown.State, start: Start)

  datatype Event =
    | Signal(signal: string)
    | StartEnds(up: bool)
    | Stop(event: Shutdown.Event)

  /** The workers, the queues, then the connections in closing order. */
  function PlanOf(connections: nat): Shutdown.Plan {
    [[1], [1]] + seq(connections, _ => [1])
  }

  const WORKERS := Shutdown.Position(0, 0, 0)
  const STARTUP_FAILURE := "startup failure"

  function Initial(connections: nat, timeoutMs: nat): State {
    State(Shutdown.Initial(PlanOf(connections), timeoutMs, true), Pending)
  }

  /** The stages of the workers and of the queues await the start. */
  predicate Enabled(s: State, e: Event) {
    match e
    case Signal(signal) => Shutdown.IsSignal(signal)
    case StartEnds(_) => s.start.Pending?
    case Stop(event) => !event.Call? && (event.StageSettles? && s.stop.step < 2 ==> !s.start.Pending?)
  }

  function Next(s: State, e: Event): State {
    if !Enabled(s, e) then s else
    match e
    case Signal(signal) => s.(stop := Shutdown.Next(s.stop, Shutdown.Call(signal, false)))
    case StartEnds(up) =>
      if up then s.(start := Up)
      else State(Shutdown.Next(s.stop, Shutdown.Call(STARTUP_FAILURE, true)), Broken)
    case Stop(event) => s.(stop := Shutdown.Next(s.stop, event))
  }

  function Run(s: State, events: seq<Event>): State
    decreases |events|
  {
    if events == [] then s else Run(Next(s, events[0]), events[1..])
  }

  /** The failed start was reported at `t`, before the workers' stage was over. */
  ghost predicate ReportedAt(log: seq<Shutdown.Act>, t: nat) {
    t < |log| && Shutdown.Fails(log[t]) && !Shutdown.HasSettled(log[..t], WORKERS)
  }

  ghost predicate Sound(s: State) {
    && ShutdownProofs.Sound(s.stop) && |s.stop.plan| >= 2 && s.stop.plan[0] == [1]
    && (s.start.Pending? ==> !Shutdown.HasSettled(s.stop.log, WORKERS))
    && (s.start.Broken? ==> exists t: nat :: ReportedAt(s.stop.log, t))
  }

  lemma ReportStays(log: seq<Shutdown.Act>, log': seq<Shutdown.Act>)
    requires log <= log' && exists t: nat :: ReportedAt(log, t)
    ensures exists t: nat :: ReportedAt(log', t)
  {
    var t: nat :| ReportedAt(log, t);
    assert log[..t] == log'[..t];
    assert ReportedAt(log', t);
  }

  /** While the start is pending the stop stays with the workers' stage. */
  lemma PendingHoldsThePlan(s: State, e: Event)
    requires Sound(s) && s.start.Pending? && Enabled(s, e) && (e.Signal? || e.Stop?)
    ensures !Shutdown.HasSettled(Next(s, e).stop.log, WORKERS)
  {
    hide Shutdown.HasSettled, Shutdown.InOrder, RaceAgrees, WindowAgrees, ExitAgrees, Shutdown.NextOfCall,
         Shutdown.NextOfSettled;
    NextIsSound(s.stop, if e.Signal? then Shutdown.Call(e.signal, false) else e.event);
    PlaceStays(s.stop, if e.Signal? then Shutdown.Call(e.signal, false) else e.event);
    assert !Over(s.stop, WORKERS);
  }

  /** Only a stage that settles takes the plan past a step with a stage in it. */
  lemma PlaceStays(s: Shutdown.State, e: Shutdown.Event)
    requires ShutdownProofs.Sound(s) && |s.plan| >= 2 && s.plan[0] == [1] && !Over(s, WORKERS)
    requires e.StageSettles? ==> s.step >= 2
    ensures !Over(Shutdown.Next(s, e), WORKERS)
  {
    hide Shutdown.InOrder, RaceAgrees, WindowAgrees, ExitAgrees, Shutdown.HasSettled, Shutdown.HasStarted,
         Shutdown.StartRow, Shutdown.NextOfCall;
    if e.Call? {
      PlaceStaysAtACall(s, e.signal, e.failing);
    }
  }

  lemma PlaceStaysAtACall(s: Shutdown.State, signal: string, failing: bool)
    requires ShutdownProofs.Sound(s) && |s.plan| >= 2 && s.plan[0] == [1] && !Over(s, WORKERS)
    ensures !Over(Shutdown.NextOfCall(s, signal, failing), WORKERS)
  {
    hide Shutdown.InOrder, RaceAgrees, WindowAgrees, ExitAgrees, Shutdown.HasSettled, Shutdown.HasStarted,
         Shutdown.StartRow;
    assert s.plan[0][0] == 1;
  }

  lemma NextKeepsSound(s: State, e: Event)
    requires Sound(s)
    ensures Sound(Next(s, e))
  {
    hide Shutdown.HasSettled, Shutdown.InOrder, Agrees, ReportedAt, Shutdown.Next;
    if Enabled(s, e) {
      match e
      case Signal(signal) =>
        NextIsSound(s.stop, Shutdown.Call(signal, false));
        if s.start.Pending? {
          PendingHoldsThePlan(s, e);
        } else if s.start.Broken? {
          ReportStays(s.stop.log, Next(s, e).stop.log);
        }
      case StartEnds(up) =>
        if !up {
          FailureIsReported(s);
        }
      case Stop(event) =>
        NextIsSound(s.stop, event);
        if s.start.Pending? {
          PendingHoldsThePlan(s, e);
        } else if s.start.Broken? {
          ReportStays(s.stop.log, Next(s, e).stop.log);
        }
    }
  }

  lemma FailureIsReported(s: State)
    requires Sound(s) && s.start.Pending?
    ensures Sound(Next(s, StartEnds(false)))
  {
    hide Shutdown.HasSettled, Shutdown.InOrder, Agrees;
    var call := Shutdown.Call(STARTUP_FAILURE, true);
    NextIsSound(s.stop, call);
    var act := Shutdown.Called(STARTUP_FAILURE, true, s.stop.now);
    var heard := Shutdown.Emit(s.stop.(failed := true), act);
    CallLogsItself(s.stop, STARTUP_FAILURE, true);
    var log := Shutdown.Next(s.stop, call).log;
    assert log[..|s.stop.log|] == s.stop.log && log[|s.stop.log|] == act;
    assert ReportedAt(log, |s.stop.log|);
  }

  lemma CallLogsItself(s: Shutdown.State, signal: string, failing: bool)
    ensures s.log + [Shutdown.Called(signal, failing, s.now)] <= Shutdown.Next(s, Shutdown.Call(signal, failing)).log
  {
    hide Shutdown.BeginStep;
  }

  lemma {:induction false} RunKeepsSound(s: State, events: seq<Event>)
    requires Sound(s)
    ensures Sound(Run(s, events)) && Run(s, events).stop.plan == s.stop.plan
      && Run(s, events).stop.timeoutMs == s.stop.timeoutMs && Run(s, events).stop.forcing == s.stop.forcing
    decreases |events|
  {
    hide Sound;
    if events != [] {
      NextKeepsSound(s, events[0]);
      NextKeepsOptions(s, events[0]);
      RunKeepsSound(Next(s, events[0]), events[1..]);
    }
  }

  lemma NextKeepsOptions(s: State, e: Event)
    requires Sound(s)
    ensures Shutdown.SameStop(s.stop, Next(s, e).stop)
  {
    hide Shutdown.Next, Shutdown.InOrder, Agrees;
    NextIsSound(s.stop, if e.Signal? then Shutdown.Call(e.signal, false) else if e.Stop? then e.event
                else Shutdown.Call(STARTUP_FAILURE, true));
  }

  /** A clean stop before `v` leaves no room for a start that did not come up. */
  lemma CleanStopMeansUp(s: State, v: nat)
    requires Sound(s) && v <= |s.stop.log| && CleanStop(s.stop.plan, s.stop.timeoutMs, s.stop.log[..v])
    ensures s.start.Up?
  {
    hide Agrees, Shutdown.InOrder;
    var log := s.stop.log;
    assert Shutdown.InPlan(s.stop.plan, WORKERS);
    var u :| 0 <= u < v && log[..v][u] == Shutdown.CloseSettled(WORKERS, true);
    forall t: nat | u < t <= |log| ensures Shutdown.HasSettled(log[..t], WORKERS) {
      Told(log, u, t, Shutdown.ASettling(WORKERS));
    }
    assert log[..|log|] == log;
    forall t: nat | t < v ensures log[t] in log[..v] {
      assert log[..v][t] == log[t];
    }
  }

  /**
   * In every interleaving of the start with signals, stages, timers and flushes,
   * the worker leaves with 0 only if its start came up.
   */
  lemma ABrokenStartNeverLeavesWithZero(connections: nat, timeoutMs: nat, events: seq<Event>)
    requires Shutdown.Exited(0) in Run(Initial(connections, timeoutMs), events).stop.log
    ensures Run(Initial(connections, timeoutMs), events).start.Up?
  {
    var s0, s := Initial(connections, timeoutMs), Run(Initial(connections, timeoutMs), events);
    InitialIsSound(PlanOf(connections), timeoutMs, true);
    RunKeepsSound(s0, events);
    var x :| 0 <= x < |s.stop.log| && s.stop.log[x] == Shutdown.Exited(0);
    var v := ZeroHasACleanStop(s.stop, x);
    CleanStopMeansUp(s, v);
  }

  // ------------------------------------------------------------------
  // A start that comes up.

  /** What the stop hears of an event. */
  function HeardOf(s: State, e: Event): seq<Shutdown.Event> {
    if !Enabled(s, e) then []
    else match e
      case Signal(signal) => [Shutdown.Call(signal, false)]
      case StartEnds(up) => if up then [] else [Shutdown.Call(STARTUP_FAILURE, true)]
      case Stop(event) => [event]
  }

  function HeardOver(s: State, events: seq<Event>): seq<Shutdown.Event>
    decreases |events|
  {
    if events == [] then [] else HeardOf(s, events[0]) + HeardOver(Next(s, events[0]), events[1..])
  }

  /** The stop of the worker is a stop by itself, of what it hears. */
  lemma {:induction false} TheStopHears(s: State, events: seq<Event>)
    ensures Run(s, events).stop == Shutdown.Run(s.stop, HeardOver(s, events))
    decreases |events|
  {
    hide Shutdown.Next, Enabled;
    if events == [] {
      RunOfNothing(s.stop);
    } else {
      var e, rest := events[0], HeardOver(Next(s, events[0]), events[1..]);
      TheStopHears(Next(s, e), events[1..]);
      if HeardOf(s, e) == [] {
        assert HeardOf(s, e) + rest == rest;
      } else {
        RunUnfolds(s.stop, HeardOf(s, e)[0], rest);
        assert HeardOf(s, e) == [HeardOf(s, e)[0]];
      }
    }
  }

  lemma {:induction false} HeardAppends(s: State, first: seq<Event>, second: seq<Event>)
    ensures HeardOver(s, first + second) == HeardOver(s, first) + HeardOver(Run(s, first), second)
    decreases |first|
  {
    hide Next, HeardOf;
    if first == [] {
      assert first + second == second;
    } else {
      assert (first + second)[1..] == first[1..] + second;
      HeardAppends(Next(s, first[0]), first[1..], second);
    }
  }

  lemma ReadingIsHeard(s: State, event: Shutdown.Event)
    requires event.Resumes? || event.FlushEnds?
    ensures HeardOver(s, [Stop(event)]) == [event]
  {
    assert [Stop(event)][1..] == [];
  }

  /** No failed start, and no stage that failed. */
  predicate IsClean(e: Event) {
    e != StartEnds(false) && !(e.Stop? && e.event.StageSettles? && !e.event.clean)
  }

  lemma {:induction false} CleanIsHeard(s: State, events: seq<Event>)
    ensures (forall e <- events :: IsClean(e)) ==> ShutdownProgress.AllClean(HeardOver(s, events))
    ensures Stop(Shutdown.DeadlineFires) !in events ==> Shutdown.DeadlineFires !in HeardOver(s, events)
    decreases |events|
  {
    hide Next;
    if events != [] {
      CleanIsHeard(Next(s, events[0]), events[1..]);
      assert events[0] in events && forall e <- events[1..] :: e in events;
    }
  }

  ghost function LogOf(connections: nat, timeoutMs: nat, events: seq<Event>): seq<Shutdown.Act> {
    Run(Initial(connections, timeoutMs), events).stop.log
  }

  /**
   * The start does not fail, every stage closes cleanly before the deadline and
   * nobody forces the exit: whatever else comes, the worker leaves with 0.
   */
  lemma AWorkerThatCameUpLeavesWithZero(connections: nat, timeoutMs: nat, events: seq<Event>, before: seq<Event>,
                                        between: seq<Event>, after: seq<Event>)
    requires LogOf(connections, timeoutMs, events) != []
    requires Shutdown.AllClosed(PlanOf(connections), LogOf(connections, timeoutMs, events))
    requires Stop(Shutdown.DeadlineFires) !in events && forall e <- events + before :: IsClean(e)
    requires ShutdownProgress.NoneForced(
               LogOf(connections, timeoutMs, events + (before + [Stop(Shutdown.Resumes)]
                                                       + (between + [Stop(Shutdown.FlushEnds)]) + after)))
    ensures Shutdown.Exited(0) in
              LogOf(connections, timeoutMs, events + (before + [Stop(Shutdown.Resumes)]
                                                      + (between + [Stop(Shutdown.FlushEnds)]) + after))
  {
    hide Run, HeardOver, Shutdown.Run, Shutdown.AllClosed, ShutdownProgress.NoneForced, Shutdown.Initial;
    var s := Initial(connections, timeoutMs);
    var closed := Run(s, events);
    var waited := Run(closed, before);
    var read := Run(waited, [Stop(Shutdown.Resumes)]);
    var flushing := Run(read, between);
    var left := Run(flushing, [Stop(Shutdown.FlushEnds)]);
    HeardAppends(s, events, before + [Stop(Shutdown.Resumes)] + (between + [Stop(Shutdown.FlushEnds)]) + after);
    OnTheWayOut(closed, before, between, after);
    HeardAppends(s, events, before);
    CleanIsHeard(s, events + before);
    CleanIsHeard(s, events);
    TheStopHears(s, events);
    TheStopHears(s, events + (before + [Stop(Shutdown.Resumes)] + (between + [Stop(Shutdown.FlushEnds)]) + after));
    ShutdownProgress.ACleanStopLeavesWithZero(
      PlanOf(connections), timeoutMs, true, HeardOver(s, events), HeardOver(closed, before), HeardOver(read, between),
      HeardOver(left, after));
  }

  /** What the stop hears while its verdict is read and its log flushed. */
  lemma OnTheWayOut(s: State, before: seq<Event>, between: seq<Event>, after: seq<Event>)
    ensures var read := Run(Run(s, before), [Stop(Shutdown.Resumes)]);
            var left := Run(Run(read, between), [Stop(Shutdown.FlushEnds)]);
            HeardOver(s, before + [Stop(Shutdown.Resumes)] + (between + [Stop(Shutdown.FlushEnds)]) + after)
            == HeardOver(s, before) + [Shutdown.Resumes] + (HeardOver(read, between) + [Shutdown.FlushEnds])
               + HeardOver(left, after)
  {
    hide Run, HeardOver;
    var resumed, flushed := [Stop(Shutdown.Resumes)], [Stop(Shutdown.FlushEnds)];
    var read := Run(Run(s, before), resumed);
    RunsAppend(s, before, resumed);
    RunsAppend(s, before + resumed, between + flushed);
    RunsAppend(read, between, flushed);
    HeardAppends(s, before + resumed + (between + flushed), after);
    HeardAppends(s, before + resumed, between + flushed);
    HeardAppends(s, before, resumed);
    HeardAppends(read, between, flushed);
    ReadingIsHeard(Run(s, before), Shutdown.Resumes);
    ReadingIsHeard(Run(read, between), Shutdown.FlushEnds);
  }

  lemma {:induction false} RunsAppend(s: State, first: seq<Event>, second: seq<Event>)
    ensures Run(s, first + second) == Run(Run(s, first), second)
    decreases |first|
  {
    hide Next;
    if first == [] {
      assert first + second == second;
    } else {
      assert (first + second)[1..] == first[1..] + second;
      RunsAppend(Next(s, first[0]), first[1..], second);
    }
  }

  /** The events of the stop alone, as events of the worker. */
  function OfTheStop(events: seq<Shutdown.Event>): seq<Event> {
    seq(|events|, i requires 0 <= i < |events| => Stop(events[i]))
  }

  lemma {:induction false} WhatTheStopHearsOnceUp(s: State, events: seq<Shutdown.Event>)
    requires s.start.Up? && forall e <- events :: !e.Call?
    ensures HeardOver(s, OfTheStop(events)) == events
    decreases |events|
  {
    hide Shutdown.Next;
    if events != [] {
      assert OfTheStop(events)[1..] == OfTheStop(events[1..]);
      WhatTheStopHearsOnceUp(Next(s, Stop(events[0])), events[1..]);
    }
  }

  /** A worker that comes up and is told to stop can close its stages and leave with 0. */
  lemma AWorkerCanLeaveWithZero(connections: nat, timeoutMs: nat, signal: string) returns (events: seq<Event>)
    requires Shutdown.IsSignal(signal)
    ensures |events| >= 2 && events[..2] == [StartEnds(true), Signal(signal)]
    ensures forall e <- events[2..] :: e.Stop? && IsClean(e)
    ensures Shutdown.Exited(0) in LogOf(connections, timeoutMs, events)
  {
    hide Run, Shutdown.Run, Shutdown.Next;
    var closings := ShutdownProgress.EveryPlanCanCloseCleanly(PlanOf(connections), timeoutMs, true, signal);
    var rest := closings + [Shutdown.Resumes, Shutdown.FlushEnds];
    var s := Initial(connections, timeoutMs);
    var up := Next(s, StartEnds(true));
    var told := Next(up, Signal(signal));
    events := [StartEnds(true), Signal(signal)] + OfTheStop(rest);
    assert events[1..] == [Signal(signal)] + OfTheStop(rest) && events[1..][1..] == OfTheStop(rest);
    WhatTheStopHearsOnceUp(told, rest);
    assert HeardOver(up, events[1..]) == [Shutdown.Call(signal, false)] + rest;
    assert HeardOver(s, events) == [Shutdown.Call(signal, false)] + rest;
    TheStopHears(s, events);
  }

  /** The worker of `bootstrap`: its handler, and whether the start is over. */
  class Worker {
    const handler: Handler
    var start: Start

    constructor (connections: nat, timeoutMs: nat)
      ensures fresh(handler) && Model() == Initial(connections, timeoutMs)
    {
      handler := new Handler(PlanOf(connections), timeoutMs, true);
      start := Pending;
    }

    ghost function Model(): State
      reads this, handler
    {
      State(handler.Model(), start)
    }

    method SignalCame(signal: string)
      requires Enabled(Model(), Signal(signal))
      modifies handler
      ensures Model() == Next(old(Model()), Signal(signal))
    {
      handler.Handle(signal, false);
    }

    method StartSettled(up: bool)
      requires Enabled(Model(), StartEnds(up))
      modifies this, handler
      ensures Model() == Next(old(Model()), StartEnds(up))
    {
      if up {
        start := Up;
        return;
      }
      start := Broken;
      handler.Handle(STARTUP_FAILURE, true);
    }
  }
}
