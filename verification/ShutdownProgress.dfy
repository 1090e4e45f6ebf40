/**
 * A stop goes on: each stage starts as soon as everything ahead of it is over, a
 * stop that nothing disturbs leaves with 0, and a late SIGINT forces it out.
 */
module ShutdownProgress {
  import opened Wrappers
  import opened Shutdown
  import opened ShutdownProofs

  // ------------------------------------------------------------------
  // What a step of the plan leaves as it is.

  /** What the plan may add to the log when it moves: starts of stages, and its own end. */
  predicate OnlyThePlanMoved(log: seq<Act>, log': seq<Act>) {
    && log <= log'
    && forall act <- log' :: act in log || act.CloseStarted? || (act.Decided? && act.planEnded)
  }

  lemma {:induction false} StartRowMovesThePlan(log: seq<Act>, i: nat, row: seq<nat>, j: nat)
    ensures OnlyThePlanMoved(log, StartRow(log, i, row, j))
    decreases |row| - j
  {
    if j < |row| {
      StartRowMovesThePlan(if row[j] > 0 then log + [CloseStarted(Position(i, j, 0))] else log, i, row, j + 1);
    }
  }

  /** The stop stands in a step with a stage left, or its plan is over and the race is too. */
  ghost predicate Moves(s: State) {
    s.started ==>
      && (s.step < |s.plan| ==> |s.at| == |s.plan[s.step]| && !RowDone(s.plan[s.step], s.at))
      && (s.step >= |s.plan| ==> !s.race.Racing?)
  }

  lemma {:induction false} BeginStepMoves(s: State, i: nat)
    requires s.started
    ensures var s' := BeginStep(s, i);
      && s' == s.(step := s'.step, at := s'.at, race := s'.race, log := s'.log)
      && OnlyThePlanMoved(s.log, s'.log) && Moves(s') && s'.step >= i
      && (s'.race == s.race || (s.race.Racing? && s'.race.PlanEnded?))
    decreases |s.plan| - i
  {
    if i < |s.plan| {
      if RowDone(s.plan[i], seq(|s.plan[i]|, _ => 0)) {
        BeginStepMoves(s, i + 1);
      } else {
        StartRowMovesThePlan(s.log, i, s.plan[i], 0);
      }
    }
  }

  lemma CallMoves(s: State, signal: string, failing: bool)
    requires Moves(s)
    ensures Moves(NextOfCall(s, signal, failing))
  {
    hide BeginStep, RowDone;
    if !s.started {
      BeginStepMoves(Armed(s, signal, failing), 0);
    }
  }

  lemma SettledMoves(s: State, j: nat, clean: bool)
    requires Moves(s) && IsClosing(s, j)
    ensures Moves(NextOfSettled(s, j, clean))
  {
    hide BeginStep;
    var over := StageOver(s, j, clean);
    if s.at[j] + 1 >= s.plan[s.step][j] && RowDone(s.plan[s.step], over.at) {
      BeginStepMoves(over, s.step + 1);
    }
  }

  lemma NextMoves(s: State, e: Event)
    requires Moves(s)
    ensures Moves(Next(s, e))
  {
    hide NextOfCall, NextOfSettled, RowDone;
    if Enabled(s, e) {
      match e
      case Call(signal, failing) => CallMoves(s, signal, failing);
      case StageSettles(j, clean) => SettledMoves(s, j, clean);
      case _ =>
    }
  }

  lemma {:induction false} RunMoves(s: State, events: seq<Event>)
    requires Moves(s)
    ensures Moves(Run(s, events))
    decreases |events|
  {
    hide Moves, Next;
    if events != [] {
      NextMoves(s, events[0]);
      RunMoves(Next(s, events[0]), events[1..]);
    }
  }

  lemma RunsMove(plan: Plan, timeoutMs: nat, forcing: bool, events: seq<Event>)
    ensures var s := Run(Initial(plan, timeoutMs, forcing), events);
            Moves(s) && Sound(s) && s.plan == plan && s.timeoutMs == timeoutMs && s.forcing == forcing
  {
    var initial := Initial(plan, timeoutMs, forcing);
    InitialIsSound(plan, timeoutMs, forcing);
    RunIsSound(initial, events);
    RunMoves(initial, events);
  }

  // ------------------------------------------------------------------
  // The plan of a stop that began never rests.

  /**
   * In a stop that began, a stage has started exactly once everything ahead of it
   * has settled.
   */
  lemma AStageStartsExactlyWhen(plan: Plan, timeoutMs: nat, forcing: bool, events: seq<Event>, p: Position)
    requires LogOf(plan, timeoutMs, forcing, events) != [] && InPlan(plan, p)
    ensures var log := LogOf(plan, timeoutMs, forcing, events);
            HasStarted(log, p) <==> forall q: Position :: InPlan(plan, q) && Precedes(q, p) ==> HasSettled(log, q)
  {
    RunsMove(plan, timeoutMs, forcing, events);
    StartedExactlyWhen(Run(Initial(plan, timeoutMs, forcing), events), p);
  }

  lemma StartedExactlyWhen(s: State, p: Position)
    requires s.started && PlaceAgrees(s) && Moves(s) && InPlan(s.plan, p)
    ensures HasStarted(s.log, p) <==>
              forall q: Position :: InPlan(s.plan, q) && Precedes(q, p) ==> HasSettled(s.log, q)
  {
    hide HasStarted, HasSettled;
    if !Begun(s, p) {
      if p.step == s.step {
        var q := Position(p.step, p.sequence, p.index - 1);
        assert InPlan(s.plan, q) && Precedes(q, p) && !Over(s, q);
      } else {
        var j :| 0 <= j < |s.at| && s.at[j] < s.plan[s.step][j];
        var q := Position(s.step, j, s.at[j]);
        assert InPlan(s.plan, q) && Precedes(q, p) && !Over(s, q);
      }
    }
  }

  /** While a stage of a stop that began is not over, some stage is closing and may settle. */
  lemma AStopIsNeverStuck(plan: Plan, timeoutMs: nat, forcing: bool, events: seq<Event>)
    requires LogOf(plan, timeoutMs, forcing, events) != []
    requires !AllClosed(plan, LogOf(plan, timeoutMs, forcing, events))
    ensures var s := Run(Initial(plan, timeoutMs, forcing), events);
            exists j :: IsClosing(s, j)
  {
    hide HasSettled;
    RunsMove(plan, timeoutMs, forcing, events);
    var s := Run(Initial(plan, timeoutMs, forcing), events);
    var p: Position :| InPlan(plan, p) && !HasSettled(s.log, p);
    assert !Over(s, p);
    SomeStageIsLeft(s);
  }

  /** Once every stage of a stop that began is over, its race is decided. */
  lemma AClosedPlanIsDecided(plan: Plan, timeoutMs: nat, forcing: bool, events: seq<Event>)
    requires LogOf(plan, timeoutMs, forcing, events) != []
    requires AllClosed(plan, LogOf(plan, timeoutMs, forcing, events))
    ensures HasDecided(LogOf(plan, timeoutMs, forcing, events))
  {
    hide Tells;
    RunsMove(plan, timeoutMs, forcing, events);
    ClosedIsDecided(Run(Initial(plan, timeoutMs, forcing), events));
  }

  lemma ClosedIsDecided(s: State)
    requires s.started && Agrees(s) && Moves(s) && AllClosed(s.plan, s.log)
    ensures HasDecided(s.log) && s.step == |s.plan|
  {
    hide Tells, WindowAgrees, ExitAgrees, AllClosed;
    if s.step < |s.plan| {
      SomeStageIsLeft(s);
      assert false;
    }
  }

  lemma SomeStageIsLeft(s: State)
    requires s.started && PlaceAgrees(s) && Moves(s) && s.step < |s.plan|
    ensures !AllClosed(s.plan, s.log) && exists j :: IsClosing(s, j)
  {
    hide Tells;
    var j :| 0 <= j < |s.at| && s.at[j] < s.plan[s.step][j];
    var p := Position(s.step, j, s.at[j]);
    assert InPlan(s.plan, p) && !Over(s, p) && IsClosing(s, j);
  }

  // ------------------------------------------------------------------
  // Every act of the log comes from an event of its own.

  /** The event that brings the act. */
  predicate ToldBy(act: Act, e: Event) {
    match act
    case Called(signal, failing, _) => e == Call(signal, failing)
    case WindowOpened(_) => e.Call?
    case CloseStarted(_) => e.Call? || e.StageSettles?
    case CloseSettled(position, clean) => e == StageSettles(position.sequence, clean)
    case Decided(planEnded, _) => if planEnded then e.Call? || e.StageSettles? else e.DeadlineFires?
    case Verdict(_, forced, _) => if forced then e.Call? && e.signal == "SIGINT" else e.Resumes?
    case Exited(_) => e.FlushEnds?
  }

  lemma AFirstCallTells(s: State, signal: string, failing: bool)
    requires !s.started
    ensures forall act <- NextOfCall(s, signal, failing).log :: act in s.log || ToldBy(act, Call(signal, failing))
    ensures Heard(s, signal, failing).log <= NextOfCall(s, signal, failing).log
  {
    hide BeginStep, Started;
    StartedTells(Heard(s, signal, failing), signal);
    BeginStepMoves(Armed(s, signal, failing), 0);
  }

  lemma StartedTells(s: State, signal: string)
    ensures var armed := Started(s, signal);
            armed.started && s.log <= armed.log && forall act <- armed.log :: act in s.log || act.WindowOpened?
  {
  }

  lemma ARepeatedCallTells(s: State, signal: string, failing: bool)
    requires s.started
    ensures forall act <- NextOfCall(s, signal, failing).log :: act in s.log || ToldBy(act, Call(signal, failing))
    ensures Heard(s, signal, failing).log <= NextOfCall(s, signal, failing).log
  {
    hide BeginStep;
  }

  lemma ACallTells(s: State, signal: string, failing: bool)
    ensures forall act <- NextOfCall(s, signal, failing).log :: act in s.log || ToldBy(act, Call(signal, failing))
    ensures Called(signal, failing, s.now) in NextOfCall(s, signal, failing).log
  {
    hide NextOfCall;
    if s.started {
      ARepeatedCallTells(s, signal, failing);
    } else {
      AFirstCallTells(s, signal, failing);
    }
    assert Heard(s, signal, failing).log[|s.log|] == Called(signal, failing, s.now);
    assert NextOfCall(s, signal, failing).log[|s.log|] == Called(signal, failing, s.now);
  }

  lemma ASettlingTells(s: State, j: nat, clean: bool)
    requires IsClosing(s, j)
    ensures forall act <- NextOfSettled(s, j, clean).log :: act in s.log || ToldBy(act, StageSettles(j, clean))
  {
    hide BeginStep, RowDone;
    BeginStepMoves(StageOver(s, j, clean), s.step + 1);
  }

  lemma NextTells(s: State, e: Event)
    ensures forall act <- Next(s, e).log :: act in s.log || ToldBy(act, e)
    ensures s.log <= Next(s, e).log
    ensures e.Call? ==> Called(e.signal, e.failing, s.now) in Next(s, e).log
  {
    hide NextOfCall, NextOfSettled;
    if Enabled(s, e) {
      match e
      case Call(signal, failing) => ACallTells(s, signal, failing);
      case StageSettles(j, clean) => ASettlingTells(s, j, clean);
      case _ =>
    }
  }

  predicate ToldByOneOf(act: Act, events: seq<Event>) {
    exists e <- events :: ToldBy(act, e)
  }

  lemma {:induction false} RunTells(s: State, events: seq<Event>)
    ensures s.log <= Run(s, events).log
    ensures forall act <- Run(s, events).log :: act in s.log || ToldByOneOf(act, events)
    ensures forall e <- events | e.Call? :: exists at :: Called(e.signal, e.failing, at) in Run(s, events).log
    decreases |events|
  {
    hide Next, ToldBy;
    if events != [] {
      var e, next := events[0], Next(s, events[0]);
      NextTells(s, e);
      RunTells(next, events[1..]);
      forall act | act in Run(s, events).log ensures act in s.log || ToldByOneOf(act, events) {
        if act in next.log {
          assert act !in s.log ==> ToldBy(act, e) && e in events;
        } else {
          var told :| told in events[1..] && ToldBy(act, told);
          assert told in events;
        }
      }
      forall call | call in events && call.Call?
        ensures exists at :: Called(call.signal, call.failing, at) in Run(s, events).log
      {
        assert call == e || call in events[1..];
        if call == e {
          var k :| 0 <= k < |next.log| && next.log[k] == Called(e.signal, e.failing, s.now);
          assert Run(s, events).log[k] == next.log[k];
        }
      }
    }
  }

  /**
   * Of every run: an act of the log comes from an event of its own - a failure from
   * the call or the stage that failed, the decision of the deadline from the
   * deadline, an exit from the end of the flush - and every call is in the log, with
   * its failure.
   */
  lemma ActsComeFromTheirEvents(plan: Plan, timeoutMs: nat, forcing: bool, events: seq<Event>)
    ensures forall act <- LogOf(plan, timeoutMs, forcing, events) :: ToldByOneOf(act, events)
    ensures forall e <- events | e.Call? ::
              exists at :: Called(e.signal, e.failing, at) in LogOf(plan, timeoutMs, forcing, events)
  {
    RunTells(Initial(plan, timeoutMs, forcing), events);
  }

  // ------------------------------------------------------------------
  // A stop that nothing disturbs leaves with 0.

  /** No failure is told with the event. */
  predicate IsClean(e: Event) {
    !(e.Call? && e.failing) && !(e.StageSettles? && !e.clean)
  }

  predicate AllClean(events: seq<Event>) {
    forall e <- events :: IsClean(e)
  }

  predicate NoneForced(log: seq<Act>) {
    forall act <- log :: act.Verdict? ==> !act.forced
  }

  /** No deadline decided the race. */
  predicate NotTimedOut(log: seq<Act>) {
    forall act <- log :: act.Decided? ==> act.planEnded
  }

  lemma CleanEventsFailNothing(plan: Plan, timeoutMs: nat, forcing: bool, events: seq<Event>)
    ensures Failing(LogOf(plan, timeoutMs, forcing, events)) ==> !AllClean(events)
  {
    hide Run;
    ActsComeFromTheirEvents(plan, timeoutMs, forcing, events);
    if Failing(LogOf(plan, timeoutMs, forcing, events)) {
      var act :| act in LogOf(plan, timeoutMs, forcing, events) && Fails(act);
      var e :| e in events && ToldBy(act, e);
      FailuresAreNotClean(act, e);
    }
  }

  lemma FailuresAreNotClean(act: Act, e: Event)
    requires Fails(act) && ToldBy(act, e)
    ensures !IsClean(e)
  {
  }

  lemma NoDeadlineDecides(plan: Plan, timeoutMs: nat, forcing: bool, events: seq<Event>)
    requires DeadlineFires !in events
    ensures NotTimedOut(LogOf(plan, timeoutMs, forcing, events))
  {
    hide Run;
    ActsComeFromTheirEvents(plan, timeoutMs, forcing, events);
  }

  /**
   * Every stage closes before the deadline, nothing fails up to the reading of the
   * verdict, and nobody forces the exit: whatever else comes, the process leaves
   * with 0.
   */
  lemma ACleanStopLeavesWithZero(plan: Plan, timeoutMs: nat, forcing: bool, events: seq<Event>,
                                 before: seq<Event>, between: seq<Event>, after: seq<Event>)
    requires LogOf(plan, timeoutMs, forcing, events) != []
    requires AllClosed(plan, LogOf(plan, timeoutMs, forcing, events))
    requires DeadlineFires !in events && AllClean(events + before)
    requires NoneForced(LogOf(plan, timeoutMs, forcing,
                              events + (before + [Resumes] + (between + [FlushEnds]) + after)))
    ensures Exited(0) in LogOf(plan, timeoutMs, forcing,
                               events + (before + [Resumes] + (between + [FlushEnds]) + after))
  {
    hide Run, Tells, AllClosed;
    CleanEventsFailNothing(plan, timeoutMs, forcing, events + before);
    ACleanLogLeavesWithZero(plan, timeoutMs, forcing, events, before, between, after);
  }

  /** The same of a log with no failure in it up to the reading of the verdict. */
  lemma ACleanLogLeavesWithZero(plan: Plan, timeoutMs: nat, forcing: bool, events: seq<Event>,
                                before: seq<Event>, between: seq<Event>, after: seq<Event>)
    requires LogOf(plan, timeoutMs, forcing, events) != []
    requires AllClosed(plan, LogOf(plan, timeoutMs, forcing, events))
    requires DeadlineFires !in events && !Failing(LogOf(plan, timeoutMs, forcing, events + before))
    requires NoneForced(LogOf(plan, timeoutMs, forcing,
                              events + (before + [Resumes] + (between + [FlushEnds]) + after)))
    ensures Exited(0) in LogOf(plan, timeoutMs, forcing,
                               events + (before + [Resumes] + (between + [FlushEnds]) + after))
  {
    hide Sound, IsAt, Run, Tells, Next, NotTimedOut, InOrder, AllClosed;
    var initial := Initial(plan, timeoutMs, forcing);
    var closed := Run(initial, events);
    var rest := before + [Resumes] + (between + [FlushEnds]) + after;
    RunsMove(plan, timeoutMs, forcing, events);
    AClosedPlanIsDecided(plan, timeoutMs, forcing, events);
    SoundStarts(closed);
    AStopAlwaysLeaves(plan, timeoutMs, forcing, events, before, between, after);
    RunAppends(initial, events, rest);
    NoDeadlineDecides(plan, timeoutMs, forcing, events);
    TheDeadlineDecides(closed);
    RunAppends(initial, events, before);
    TheVerdictIsRead(closed, before);
    var read := Run(closed, before + [Resumes]);
    assert rest == (before + [Resumes]) + ((between + [FlushEnds]) + after);
    RunAppends(closed, before + [Resumes], (between + [FlushEnds]) + after);
    RunIsSound(closed, before + [Resumes]);
    RunIsSound(read, (between + [FlushEnds]) + after);
    ZeroIsLeftWith(closed, read, Run(closed, rest));
  }

  /** Reading the verdict adds no failure. */
  lemma TheVerdictIsRead(closed: State, before: seq<Event>)
    requires Sound(closed) && IsAt(closed, RaceDecided) && !Failing(Run(closed, before).log)
    ensures var read := Run(closed, before + [Resumes]);
            Sound(read) && IsAt(read, VerdictRead) && !read.failed
  {
    hide Sound, IsAt, Run, Tells, Next;
    var there := Run(closed, before);
    TheEventCounts(closed, before, Resumes, RaceDecided, VerdictRead);
    RunIsSound(closed, before);
    RunAppends(closed, before, [Resumes]);
    RunUnfolds(there, Resumes, []);
    RunOfNothing(Next(there, Resumes));
    assert [Resumes] + [] == [Resumes];
    ResumingFailsNothing(there);
  }

  lemma ResumingFailsNothing(s: State)
    requires Sound(s) && !Failing(s.log)
    ensures !Next(s, Resumes).failed
  {
    hide Tells;
  }

  lemma SoundStarts(s: State)
    requires Sound(s) && s.log != []
    ensures s.started && s.log[0].Called?
  {
    hide Tells;
  }

  /** The logs of a stop whose plan closed in time, of its verdict and of its end. */
  lemma ZeroIsLeftWith(closed: State, read: State, end: State)
    requires Sound(closed) && Sound(read) && Sound(end)
    requires SameStop(closed, read) && SameStop(read, end)
    requires HasDecided(closed.log) && NotTimedOut(closed.log)
    requires !read.failed && IsAt(read, VerdictRead)
    requires HasExited(end.log) && NoneForced(end.log)
    ensures Exited(0) in end.log
  {
    hide InOrder;
    var x: nat :| x < |end.log| && end.log[x].Exited?;
    assert Justified(end.plan, end.timeoutMs, end.forcing, end.log[..x], end.log[x]) by { ActIsJustified(end, x); }
    var v: nat :| v < x && end.log[..x][v].Verdict? && end.log[..x][v].code == end.log[x].code;
    assert end.log[v] in end.log;
    assert !end.log[v].forced;
    ActIsJustified(end, v);
    TheVerdictWasRead(read, end, v);
    var d: nat :| d < |closed.log| && closed.log[d].Decided?;
    assert end.log[d] == closed.log[d] && closed.log[d] in closed.log;
    DecidedOnce(end, d, v);
  }

  /** The one verdict of the log is the one read, and what failed ahead of it had failed by then. */
  lemma TheVerdictWasRead(read: State, end: State, v: nat)
    requires Sound(read) && Sound(end) && SameStop(read, end) && IsAt(read, VerdictRead) && !read.failed
    requires v < |end.log| && end.log[v].Verdict?
    ensures !Failing(end.log[..v])
  {
    hide InOrder, PlaceAgrees, WindowAgrees, Justified;
    var w: nat :| w < |read.log| && read.log[w].Verdict?;
    assert end.log[w] == read.log[w];
    OneVerdict(end, v, w);
    assert end.log[..v] <= read.log;
    assert !Failing(read.log);
  }

  lemma ActIsJustified(s: State, t: nat)
    requires Sound(s) && t < |s.log|
    ensures Justified(s.plan, s.timeoutMs, s.forcing, s.log[..t], s.log[t])
  {
    hide Justified;
  }

  lemma OneVerdict(s: State, v: nat, w: nat)
    requires Sound(s) && v < |s.log| && w < |s.log| && s.log[v].Verdict? && s.log[w].Verdict?
    ensures v == w
  {
    hide Sound, Tells;
    ActIsJustified(s, v);
    ActIsJustified(s, w);
    if v < w {
      Told(s.log, v, w, AVerdict);
    } else if w < v {
      Told(s.log, w, v, AVerdict);
    }
  }

  /** The decision an unforced verdict rests on is the one of the log. */
  lemma DecidedOnce(s: State, d: nat, v: nat)
    requires Sound(s) && d < |s.log| && v < |s.log| && s.log[d].Decided? && s.log[v].Verdict? && !s.log[v].forced
    ensures d < v && (s.log[d].planEnded ==> PlanEndedIn(s.log[..v]))
  {
    hide Sound;
    ActIsJustified(s, v);
    ActIsJustified(s, d);
    var u: nat :| u < v && s.log[..v][u].Decided?;
    ActIsJustified(s, u);
    if u < d {
      Told(s.log, u, d, ADecision);
    } else if d < u {
      Told(s.log, d, u, ADecision);
    }
    if s.log[d].planEnded {
      Told(s.log, d, v, APlanEnd);
    }
  }

  // ------------------------------------------------------------------
  // Every plan can be closed so.

  /** The stages of a row not settled yet. */
  function Left(row: seq<nat>, at: seq<nat>): nat
    requires |row| == |at|
  {
    if row == [] then 0 else (if at[0] < row[0] then row[0] - at[0] else 0) + Left(row[1..], at[1..])
  }

  lemma {:induction false} OneLess(row: seq<nat>, at: seq<nat>, j: nat)
    requires |row| == |at| && j < |row| && at[j] < row[j]
    ensures Left(row, at[j := at[j] + 1]) == Left(row, at) - 1
    decreases |row|
  {
    var at' := at[j := at[j] + 1];
    if j == 0 {
      assert at'[1..] == at[1..];
    } else {
      OneLess(row[1..], at[1..], j - 1);
      assert at'[1..] == at[1..][j - 1 := at[j] + 1];
    }
  }

  /** A stage that settles brings the end of the plan nearer. */
  lemma SettlingIsProgress(s: State, j: nat)
    requires Moves(s) && IsClosing(s, j) && s.race.Racing? && !s.failed
    ensures var s' := Next(s, StageSettles(j, true));
      && Moves(s') && s'.started && !s'.failed && s'.exited == s.exited
      && (s'.race.Racing? || s'.race.PlanEnded?)
      && s'.plan == s.plan
      && (s'.race.Racing? ==>
            s'.step > s.step || (s'.step == s.step && |s'.at| == |s.at|
                                 && Left(s.plan[s.step], s'.at) < Left(s.plan[s.step], s.at)))
  {
    hide BeginStep;
    SettledMoves(s, j, true);
    var over := StageOver(s, j, true);
    OneLess(s.plan[s.step], s.at, j);
    if RowDone(s.plan[s.step], over.at) {
      BeginStepMoves(over, s.step + 1);
    }
  }

  function LeftIn(s: State): nat
    requires Moves(s) && s.started && s.step < |s.plan|
  {
    Left(s.plan[s.step], s.at)
  }

  /** From any stop still racing and clean, clean settlings of its stages alone end its plan. */
  lemma {:induction false} CleanSettlingsEndThePlan(s: State) returns (events: seq<Event>)
    requires Moves(s) && s.started && s.race.Racing? && !s.failed
    ensures forall e <- events :: e.StageSettles? && e.clean
    ensures var end := Run(s, events); end.race.PlanEnded? && !end.failed && end.exited == s.exited
    decreases |s.plan| - s.step, LeftIn(s)
  {
    var j :| 0 <= j < |s.at| && s.at[j] < s.plan[s.step][j];
    SettlingIsProgress(s, j);
    var e := StageSettles(j, true);
    var next := Next(s, e);
    hide Next, Moves, RowDone;
    if next.race.Racing? {
      assert next.step < |next.plan| by { RacingIsInThePlan(next); }
      var rest := CleanSettlingsEndThePlan(next);
      events := [e] + rest;
      RunUnfolds(s, e, rest);
    } else {
      events := [e] + [];
      RunUnfolds(s, e, []);
      RunOfNothing(next);
    }
  }

  lemma RacingIsInThePlan(s: State)
    requires Moves(s) && s.started && s.race.Racing?
    ensures s.step < |s.plan|
  {
  }

  /** Whatever the plan and whoever calls the stop, its stages can close so that the process leaves with 0. */
  lemma EveryPlanCanCloseCleanly(plan: Plan, timeoutMs: nat, forcing: bool, signal: string) returns (events: seq<Event>)
    ensures forall e <- events :: e.StageSettles? && e.clean
    ensures AllClosed(plan, LogOf(plan, timeoutMs, forcing, [Call(signal, false)] + events))
    ensures Exited(0) in LogOf(plan, timeoutMs, forcing, [Call(signal, false)] + (events + [Resumes, FlushEnds]))
  {
    var initial := Initial(plan, timeoutMs, forcing);
    var begun := Next(initial, Call(signal, false));
    hide Run, Tells;
    NextMoves(initial, Call(signal, false));
    CalledIs(initial, signal);
    events := [];
    if begun.race.Racing? {
      events := CleanSettlingsEndThePlan(begun);
    } else {
      RunOfNothing(begun);
    }
    var closed := Run(begun, events);
    RunUnfolds(initial, Call(signal, false), events);
    RunsMove(plan, timeoutMs, forcing, [Call(signal, false)] + events);
    EndedIsClosed(closed);
    RunUnfolds(initial, Call(signal, false), events + [Resumes, FlushEnds]);
    RunAppends(begun, events, [Resumes, FlushEnds]);
    LeavesWithZero(closed);
  }

  lemma CalledIs(s: State, signal: string)
    requires !s.started && !s.failed && !s.exited && Moves(s)
    ensures var begun := Next(s, Call(signal, false));
            begun.started && !begun.failed && !begun.exited && (begun.race.Racing? || begun.race.PlanEnded?)
  {
    hide BeginStep;
    BeginStepMoves(Armed(s, signal, false), 0);
  }

  lemma EndedIsClosed(s: State)
    requires Sound(s) && s.race.PlanEnded? && Moves(s)
    ensures AllClosed(s.plan, s.log)
  {
    hide Tells;
    assert PlanEndedIn(s.log);
    EndRestsOnThePlan(s);
  }

  lemma EndRestsOnThePlan(s: State)
    requires Sound(s) && PlanEndedIn(s.log)
    ensures AllClosed(s.plan, s.log)
  {
    var d: nat :| d < |s.log| && s.log[d].Decided? && s.log[d].planEnded;
    ActIsJustified(s, d);
    forall p: Position | InPlan(s.plan, p) ensures HasSettled(s.log, p) {
      assert HasSettled(s.log[..d], p);
    }
  }

  lemma LeavesWithZero(s: State)
    requires s.race.PlanEnded? && !s.failed && !s.exited
    ensures Run(s, [Resumes, FlushEnds]).log == s.log + [Verdict(0, false, s.now), Exited(0)]
  {
    hide Run;
    var read := Next(s, Resumes);
    var left := Next(read, FlushEnds);
    assert [Resumes, FlushEnds] == [Resumes] + ([FlushEnds] + []);
    RunUnfolds(s, Resumes, [FlushEnds] + []);
    RunUnfolds(read, FlushEnds, []);
    RunOfNothing(left);
    assert left.log == s.log + [Verdict(0, false, s.now)] + [Exited(0)];
  }

  // ------------------------------------------------------------------
  // A SIGINT while the process stops.

  /** A stop that may be forced has its window open or armed, and knows of a SIGINT it told about. */
  ghost predicate WindowIsKept(s: State) {
    s.started && s.forcing ==>
      && s.window.Some?
      && (s.repeatArmed || s.window.value in s.timers)
      && (!s.startedBySignal && SomeSigint(s.log) ==> s.hinted)
  }

  lemma OnlyThePlanMovedSays(log: seq<Act>, log': seq<Act>)
    requires OnlyThePlanMoved(log, log')
    ensures SomeSigint(log') <==> SomeSigint(log)
  {
  }

  lemma NextKeepsTheWindow(s: State, e: Event)
    requires Sound(s) && WindowIsKept(s)
    ensures WindowIsKept(Next(s, e))
  {
    hide NextOfCall, NextOfSettled, Sound, Tells;
    if Enabled(s, e) {
      match e
      case Call(signal, failing) =>
        CallKeepsTheWindow(s, signal, failing);
      case StageSettles(j, clean) =>
        SettledKeepsTheWindow(s, j, clean);
      case TimerFires(_) =>
      case DeadlineFires => EmitSays(s.log, Decided(false, s.now));
      case Resumes => EmitSays(s.log, Verdict(if s.race.TimedOut? || s.failed then 1 else 0, false, s.now));
      case FlushEnds => EmitSays(s.log, Exited(s.flushing.value));
      case Passes(_) =>
    }
  }

  lemma SettledKeepsTheWindow(s: State, j: nat, clean: bool)
    requires WindowIsKept(s) && IsClosing(s, j)
    ensures WindowIsKept(NextOfSettled(s, j, clean))
  {
    hide BeginStep, RowDone, Tells;
    var over := StageOver(s, j, clean);
    EmitSays(s.log, CloseSettled(Position(s.step, j, s.at[j]), clean));
    EmitSays(over.log, CloseStarted(Position(s.step, j, s.at[j] + 1)));
    BeginStepMoves(over, s.step + 1);
    ThePlanKeepsTheWindow(over, BeginStep(over, s.step + 1));
  }

  lemma CallKeepsTheWindow(s: State, signal: string, failing: bool)
    requires Sound(s) && WindowIsKept(s)
    ensures WindowIsKept(NextOfCall(s, signal, failing))
  {
    hide BeginStep, Sound, ArmRepeatWindow, Tells, WindowIsKept;
    if s.started {
      ASecondCallKeepsTheWindow(s, signal, failing);
    } else {
      var armed := Armed(s, signal, failing);
      FirstCallOpensTheWindow(s, signal, failing);
      BeginStepMoves(armed, 0);
      ThePlanKeepsTheWindow(armed, BeginStep(armed, 0));
    }
  }

  lemma ThePlanKeepsTheWindow(s: State, s': State)
    requires WindowIsKept(s) && OnlyThePlanMoved(s.log, s'.log)
    requires s' == s.(step := s'.step, at := s'.at, race := s'.race, log := s'.log)
    ensures WindowIsKept(s')
  {
    OnlyThePlanMovedSays(s.log, s'.log);
  }

  lemma ASecondCallKeepsTheWindow(s: State, signal: string, failing: bool)
    requires WindowIsKept(s) && s.started
    ensures WindowIsKept(NextOfCall(s, signal, failing))
  {
    hide BeginStep, Tells;
    var heard := Heard(s, signal, failing);
    EmitSays(s.log, Called(signal, failing, s.now));
    EmitSays(heard.log, WindowOpened(s.now));
    EmitSays(heard.log, Verdict(if heard.failed then 1 else 130, true, s.now));
  }

  lemma FirstCallOpensTheWindow(s: State, signal: string, failing: bool)
    requires Sound(s) && !s.started
    ensures WindowIsKept(Armed(s, signal, failing)) && Armed(s, signal, failing).started
  {
    hide Sound, Tells;
    NothingToldYet(s);
    EmitSays(s.log, Called(signal, failing, s.now));
    EmitSays(Heard(s, signal, failing).log, WindowOpened(s.now));
  }

  lemma NothingToldYet(s: State)
    requires Sound(s) && !s.started
    ensures !SomeSigint(s.log)
  {
    hide InOrder, WindowAgrees, PlaceAgrees, ExitAgrees;
  }

  lemma {:induction false} RunKeepsTheWindow(s: State, events: seq<Event>)
    requires Sound(s) && WindowIsKept(s)
    ensures WindowIsKept(Run(s, events))
    decreases |events|
  {
    hide Sound, WindowIsKept, Next;
    if events != [] {
      NextIsSound(s, events[0]);
      NextKeepsTheWindow(s, events[0]);
      RunKeepsTheWindow(Next(s, events[0]), events[1..]);
    }
  }

  predicate BeganBySignal(log: seq<Act>) {
    log != [] && log[0].Called? && IsSignal(log[0].signal)
  }

  /**
   * A SIGINT in a stop under way adds to the log: nothing more with `"log"`; the
   * hint that opens the window anew if no signal began the stop and none came
   * yet; nothing more within the window or once there is a verdict; and past the
   * window, once its timer had its turn, the forced verdict, 1 after a failure
   * and else 130.
   */
  lemma WhatASigintDoes(plan: Plan, timeoutMs: nat, forcing: bool, events: seq<Event>, failing: bool)
    requires LogOf(plan, timeoutMs, forcing, events) != []
    ensures var s := Run(Initial(plan, timeoutMs, forcing), events);
      var heard := s.log + [Called("SIGINT", failing, s.now)];
      var log := Next(s, Call("SIGINT", failing)).log;
      if !forcing then log == heard
      else if !BeganBySignal(s.log) && !SomeSigint(s.log) then log == heard + [WindowOpened(s.now)]
      else if s.now < LastOpened(s.log) + 1000 || HasVerdict(s.log) then log == heard
      else s.window.Some? && Next(Next(s, TimerFires(s.window.value)), Call("SIGINT", failing)).log
           == heard + [Verdict(if failing || Failing(s.log) then 1 else 130, true, s.now)]
  {
    var initial := Initial(plan, timeoutMs, forcing);
    RunsMove(plan, timeoutMs, forcing, events);
    InitialIsSound(plan, timeoutMs, forcing);
    RunKeepsTheWindow(initial, events);
    SoundStarts(Run(initial, events));
    SigintDoes(Run(initial, events), failing);
  }

  lemma SigintDoes(s: State, failing: bool)
    requires Sound(s) && s.log != [] && WindowIsKept(s)
    ensures var heard := s.log + [Called("SIGINT", failing, s.now)];
      var log := Next(s, Call("SIGINT", failing)).log;
      if !s.forcing then log == heard
      else if !BeganBySignal(s.log) && !SomeSigint(s.log) then log == heard + [WindowOpened(s.now)]
      else if s.now < LastOpened(s.log) + SIGINT_REPEAT_WINDOW_MS || HasVerdict(s.log) then log == heard
      else s.window.Some? && Next(Next(s, TimerFires(s.window.value)), Call("SIGINT", failing)).log
           == heard + [Verdict(if failing || Failing(s.log) then 1 else 130, true, s.now)]
  {
    hide BeginStep, InOrder, PlaceAgrees, Tells, LastOpened;
    assert s.started && (s.startedBySignal <==> BeganBySignal(s.log));
    if s.forcing && (s.startedBySignal || SomeSigint(s.log)) {
      assert s.startedBySignal || s.hinted;
    }
  }
}
