/**
 * Every run of the stop keeps every act in order, whatever comes in between.
 */
module ShutdownProofs {
  import opened Wrappers
  import opened Shutdown

  // ------------------------------------------------------------------
  // The state says of the log what the log says.

  /** The stages of the plan before step `step`, and those up to `at` in it. */
  ghost predicate Begun(s: State, p: Position) {
    s.started && (p.step < s.step || (p.step == s.step && p.sequence < |s.at| && p.index <= s.at[p.sequence]))
  }

  ghost predicate Over(s: State, p: Position) {
    s.started && (p.step < s.step || (p.step == s.step && p.sequence < |s.at| && p.index < s.at[p.sequence]))
  }

  ghost predicate PlaceAgrees(s: State) {
    && (s.started ==> s.step <= |s.plan|)
    && (s.step < |s.plan| && s.started ==> |s.at| == |s.plan[s.step]|)
    && (forall p: Position :: HasStarted(s.log, p) <==> InPlan(s.plan, p) && Begun(s, p))
    && (forall p: Position :: HasSettled(s.log, p) <==> InPlan(s.plan, p) && Over(s, p))
  }

  ghost predicate RaceAgrees(s: State) {
    && (s.started <==> s.log != [])
    && (s.started ==> s.log[0].Called? && (s.startedBySignal <==> IsSignal(s.log[0].signal)))
    && (s.failed <==> Failing(s.log))
    && match s.race
       case NotBegun => !s.started && !HasDecided(s.log)
       case Racing(due) => s.started && s.now <= due == s.log[0].at + s.timeoutMs && !HasDecided(s.log)
       case PlanEnded => s.started && HasDecided(s.log) && PlanEndedIn(s.log)
       case TimedOut => s.started && HasDecided(s.log) && !PlanEndedIn(s.log)
       case Read => s.started && HasDecided(s.log)
  }

  predicate SomeSigint(log: seq<Act>) {
    Tells(log, ASigint)
  }

  ghost predicate WindowAgrees(s: State) {
    && (forall id <- s.timers :: s.window == Some(id) && s.timers[id] == LastOpened(s.log) + SIGINT_REPEAT_WINDOW_MS)
    && (s.repeatArmed ==> LastOpened(s.log) + SIGINT_REPEAT_WINDOW_MS <= s.now)
    && (s.repeatArmed || s.timers != map[] ==> HasOpened(s.log))
    && (s.window.Some? ==> s.window.value < s.nextTimer)
    && (s.hinted ==> SomeSigint(s.log))
  }

  ghost predicate ExitAgrees(s: State) {
    && (s.exited ==> s.started) && (s.race.Read? ==> s.exited) && (s.exited <==> HasVerdict(s.log))
    && (s.flushing.Some? ==> s.exited && HasVerdictOf(s.log, s.flushing.value))
    && (HasExited(s.log) <==> s.exited && s.flushing.None?)
  }

  ghost predicate Agrees(s: State) {
    PlaceAgrees(s) && RaceAgrees(s) && WindowAgrees(s) && ExitAgrees(s)
  }

  ghost predicate Sound(s: State) {
    Agrees(s) && InOrder(s.plan, s.timeoutMs, s.forcing, s.log)
  }

  lemma EmitKeepsOrder(s: State, act: Act)
    requires InOrder(s.plan, s.timeoutMs, s.forcing, s.log)
    requires Justified(s.plan, s.timeoutMs, s.forcing, s.log, act)
    ensures InOrder(s.plan, s.timeoutMs, s.forcing, Emit(s, act).log)
  {
    var log := Emit(s, act).log;
    forall t | 0 <= t < |log| ensures Justified(s.plan, s.timeoutMs, s.forcing, log[..t], log[t]) {
      assert log[..t] == if t < |s.log| then s.log[..t] else s.log;
    }
  }

  /** An act of the log is told of by every part of the log it is in. */
  lemma Told(log: seq<Act>, u: nat, w: nat, matter: Matter)
    requires u < w <= |log| && IsOf(log[u], matter)
    ensures Tells(log[..w], matter)
  {
    assert log[..w][u] == log[u] && log[..w][u] in log[..w];
  }

  /** What one more act changes of what the log says. */
  lemma EmitSays(log: seq<Act>, act: Act)
    ensures log <= log + [act]
    ensures LastOpened(log + [act]) == if act.WindowOpened? then act.at else LastOpened(log)
    ensures forall matter :: Tells(log + [act], matter) <==> Tells(log, matter) || IsOf(act, matter)
    ensures forall p :: HasStarted(log + [act], p) <==> HasStarted(log, p) || act == CloseStarted(p)
    ensures forall p :: HasSettled(log + [act], p) <==> HasSettled(log, p) || (act.CloseSettled? && act.position == p)
    ensures SomeSigint(log) && IsOf(act, ASigint) ==> TwoSigints(log + [act])
  {
    var log' := log + [act];
    assert log'[..|log|] == log && log'[|log|] == act;
    assert forall other :: other in log' <==> other in log || other == act;
    if SomeSigint(log) && IsOf(act, ASigint) {
      var first :| first in log && IsOf(first, ASigint);
      var a: nat :| a < |log| && log[a] == first;
      assert SigintAt(log', a) && SigintAt(log', |log|);
    }
  }

  // ------------------------------------------------------------------
  // Step by step.

  /** Everything but the place in the plan. */
  ghost predicate Core(s: State) {
    RaceAgrees(s) && WindowAgrees(s) && ExitAgrees(s) && InOrder(s.plan, s.timeoutMs, s.forcing, s.log)
  }

  /** The plan stands before step `i`: the steps below it are over, nothing else has begun. */
  ghost predicate Boundary(s: State, i: nat) {
    && i <= |s.plan|
    && (forall p: Position :: HasStarted(s.log, p) <==> InPlan(s.plan, p) && p.step < i)
    && (forall p: Position :: HasSettled(s.log, p) <==> InPlan(s.plan, p) && p.step < i)
  }

  /** Acts that say nothing of the plan leave its place as it is. */
  ghost predicate SamePlace(s: State, s': State) {
    && s'.plan == s.plan && s'.timeoutMs == s.timeoutMs && s'.forcing == s.forcing
    && s'.started == s.started && s'.step == s.step && s'.at == s.at
    && (forall p: Position :: HasStarted(s'.log, p) <==> HasStarted(s.log, p))
    && (forall p: Position :: HasSettled(s'.log, p) <==> HasSettled(s.log, p))
  }

  /** `act` may come next. */
  ghost predicate MayEmit(s: State, act: Act) {
    InOrder(s.plan, s.timeoutMs, s.forcing, s.log + [act])
  }

  lemma PlainActMayCome(s: State, act: Act)
    requires InOrder(s.plan, s.timeoutMs, s.forcing, s.log)
    requires act.Called? || (act.WindowOpened? && s.forcing)
    ensures MayEmit(s, act)
  {
    hide InOrder;
    EmitKeepsOrder(s, act);
  }

  lemma ArmKeepsCore(s: State)
    requires Core(s) && s.forcing && s.started
    ensures Core(ArmRepeatWindow(s)) && SamePlace(s, ArmRepeatWindow(s))
  {
    hide Justified, InOrder, LastOpened, TwoSigints, Tells;
    PlainActMayCome(s, WindowOpened(s.now));
    EmitSays(s.log, WindowOpened(s.now));
    var s' := ArmRepeatWindow(s);
    assert RaceAgrees(s');
    assert WindowAgrees(s');
    assert ExitAgrees(s');
  }

  lemma ExitKeepsCore(s: State, code: nat, forced: bool)
    requires Core(s) && s.started
    requires !s.exited ==> MayEmit(s, Verdict(code, forced, s.now))
    ensures Core(ExitOnce(s, code, forced)) && SamePlace(s, ExitOnce(s, code, forced))
  {
    hide Justified, InOrder, LastOpened, TwoSigints, Tells;
    EmitSays(s.log, Verdict(code, forced, s.now));
  }

  function Heard(s: State, signal: string, failing: bool): State {
    Emit(s.(failed := s.failed || failing), Called(signal, failing, s.now))
  }

  /** A call that found the stop under way. */
  lemma HeardKeepsCore(s: State, signal: string, failing: bool)
    requires Core(s) && s.started
    ensures Core(Heard(s, signal, failing)) && SamePlace(s, Heard(s, signal, failing))
    ensures signal == "SIGINT" ==> SomeSigint(Heard(s, signal, failing).log)
  {
    hide Justified, InOrder, LastOpened, TwoSigints, Tells;
    PlainActMayCome(s, Called(signal, failing, s.now));
    EmitSays(s.log, Called(signal, failing, s.now));
  }

  /** A SIGINT past the window, of a stop that already told about it. */
  lemma ForcedExitMayCome(s: State, failing: bool)
    requires Core(s) && s.started && s.forcing && s.repeatArmed && (s.startedBySignal || s.hinted) && !s.exited
    ensures var heard := Heard(s, "SIGINT", failing);
            MayEmit(heard, Verdict(if heard.failed then 1 else 130, true, s.now))
  {
    hide InOrder, ExitAgrees, LastOpened, TwoSigints, Tells;
    var heard := Heard(s, "SIGINT", failing);
    PlainActMayCome(s, Called("SIGINT", failing, s.now));
    EmitSays(s.log, Called("SIGINT", failing, s.now));
    NoVerdictYet(s);
    assert SigintAt(heard.log, |heard.log| - 1);
    EmitKeepsOrder(heard, Verdict(if heard.failed then 1 else 130, true, s.now));
  }

  lemma NoVerdictYet(s: State)
    requires ExitAgrees(s) && !s.exited
    ensures !HasVerdict(s.log)
  {
  }

  /** The verdict of the race: of the deadline, or of the plan and its failures. */
  lemma VerdictMayCome(s: State)
    requires Core(s) && (s.race.PlanEnded? || s.race.TimedOut?) && !s.exited
    ensures MayEmit(s, Verdict(if s.race.TimedOut? || s.failed then 1 else 0, false, s.now))
  {
    hide InOrder, ExitAgrees, WindowAgrees, Tells;
    NoVerdictYet(s);
    EmitKeepsOrder(s, Verdict(if s.race.TimedOut? || s.failed then 1 else 0, false, s.now));
  }

  /** Two logs that differ in starts of stages alone. */
  ghost predicate SameButStarts(log: seq<Act>, log': seq<Act>) {
    && log <= log'
    && LastOpened(log') == LastOpened(log)
    && (forall matter: Matter | !matter.AStart? :: Tells(log', matter) <==> Tells(log, matter))
    && (forall p :: HasSettled(log', p) <==> HasSettled(log, p))
  }

  /** The stages a row starts: the first of each of its sequences that has one. */
  ghost predicate FirstOf(p: Position, i: nat, row: seq<nat>, j: nat) {
    p.step == i && p.index == 0 && j <= p.sequence < |row| && row[p.sequence] > 0
  }

  lemma FirstIsInOrder(s: State, log: seq<Act>, p: Position)
    requires InOrder(s.plan, s.timeoutMs, s.forcing, log)
    requires InPlan(s.plan, p) && p.index == 0 && !HasStarted(log, p)
    requires forall q: Position :: InPlan(s.plan, q) && q.step < p.step ==> HasSettled(log, q)
    ensures InOrder(s.plan, s.timeoutMs, s.forcing, log + [CloseStarted(p)])
  {
    hide InOrder, HasSettled, HasStarted;
    EmitKeepsOrder(s.(log := log), CloseStarted(p));
  }

  lemma {:induction false} StartRowKeepsOrder(s: State, log: seq<Act>, i: nat, j: nat)
    requires InOrder(s.plan, s.timeoutMs, s.forcing, log) && i < |s.plan|
    requires forall q: Position :: InPlan(s.plan, q) && q.step < i ==> HasSettled(log, q)
    requires forall p: Position :: FirstOf(p, i, s.plan[i], j) ==> !HasStarted(log, p)
    ensures var after := StartRow(log, i, s.plan[i], j);
      && InOrder(s.plan, s.timeoutMs, s.forcing, after)
      && SameButStarts(log, after)
      && forall p :: HasStarted(after, p) <==> HasStarted(log, p) || FirstOf(p, i, s.plan[i], j)
    decreases |s.plan[i]| - j
  {
    hide Justified, InOrder, LastOpened, TwoSigints, Tells;
    var row := s.plan[i];
    if j < |row| {
      var p := Position(i, j, 0);
      if row[j] > 0 {
        FirstIsInOrder(s, log, p);
        EmitSays(log, CloseStarted(p));
        StartRowKeepsOrder(s, log + [CloseStarted(p)], i, j + 1);
      } else {
        StartRowKeepsOrder(s, log, i, j + 1);
      }
    }
  }

  lemma PlanEndIsInOrder(s: State)
    requires Core(s) && s.started && Boundary(s, |s.plan|) && s.race.Racing?
    ensures InOrder(s.plan, s.timeoutMs, s.forcing, s.log + [Decided(true, s.now)])
  {
    hide InOrder, WindowAgrees, ExitAgrees, Tells;
    assert AllClosed(s.plan, s.log);
    EmitKeepsOrder(s, Decided(true, s.now));
  }

  lemma PlanEndIsSound(s: State)
    requires Core(s) && s.started && Boundary(s, |s.plan|)
    ensures Sound(BeginStep(s, |s.plan|))
  {
    hide Justified, InOrder, LastOpened, TwoSigints, Tells;
    var act := Decided(true, s.now);
    if s.race.Racing? {
      PlanEndIsInOrder(s);
      EmitSays(s.log, act);
      var s' := Emit(s.(step := |s.plan|, at := [], race := PlanEnded), act);
      assert BeginStep(s, |s.plan|) == s';
      assert PlaceAgrees(s');
      assert RaceAgrees(s');
      assert WindowAgrees(s');
      assert ExitAgrees(s');
    }
  }

  lemma RowStartIsSound(s: State, i: nat)
    requires Core(s) && s.started && Boundary(s, i) && i < |s.plan|
    ensures Sound(s.(step := i, at := seq(|s.plan[i]|, _ => 0), log := StartRow(s.log, i, s.plan[i], 0)))
  {
    hide Justified, InOrder, LastOpened, TwoSigints, Tells;
    hide StartRow;
    StartRowKeepsOrder(s, s.log, i, 0);
    var s' := s.(step := i, at := seq(|s.plan[i]|, _ => 0), log := StartRow(s.log, i, s.plan[i], 0));
    assert PlaceAgrees(s');
    hide PlaceAgrees;
    assert RaceAgrees(s');
    assert WindowAgrees(s');
    assert ExitAgrees(s');
  }

  lemma {:induction false} BeginStepIsSound(s: State, i: nat)
    requires Core(s) && s.started && Boundary(s, i)
    ensures Sound(BeginStep(s, i))
    decreases |s.plan| - i
  {
    if i == |s.plan| {
      PlanEndIsSound(s);
    } else {
      hide Core, Sound;
      if RowDone(s.plan[i], seq(|s.plan[i]|, _ => 0)) {
        assert forall p: Position :: InPlan(s.plan, p) ==> p.step != i;
        BeginStepIsSound(s, i + 1);
      } else {
        RowStartIsSound(s, i);
      }
    }
  }

  lemma CallIsSound(s: State, signal: string, failing: bool)
    requires Sound(s)
    ensures Sound(NextOfCall(s, signal, failing))
  {
    if s.started {
      RepeatedCallIsSound(s, signal, failing);
    } else {
      FirstCallIsSound(s, signal, failing);
    }
  }

  lemma SamePlaceIsSound(s: State, s': State)
    requires Sound(s) && SamePlace(s, s') && Core(s')
    ensures Sound(s')
  {
    hide HasStarted, HasSettled, RaceAgrees, WindowAgrees, ExitAgrees, InOrder;
  }

  lemma RepeatedCallIsSound(s: State, signal: string, failing: bool)
    requires Sound(s) && s.started
    ensures Sound(NextOfCall(s, signal, failing))
  {
    hide Sound, Core, SamePlace, ArmRepeatWindow, ExitOnce;
    var heard := Heard(s, signal, failing);
    HeardIsSound(s, signal, failing);
    if s.forcing && signal == "SIGINT" {
      if !s.startedBySignal && !s.hinted {
        HintIsSound(heard);
      } else if s.repeatArmed {
        ForcedExitIsSound(s, failing);
      }
    }
  }

  lemma HeardIsSound(s: State, signal: string, failing: bool)
    requires Sound(s) && s.started
    ensures Sound(Heard(s, signal, failing))
    ensures signal == "SIGINT" ==> SomeSigint(Heard(s, signal, failing).log)
  {
    hide Justified, InOrder, LastOpened, TwoSigints, Tells;
    HeardKeepsCore(s, signal, failing);
    SamePlaceIsSound(s, Heard(s, signal, failing));
  }

  /** The hint opens the window of a stop no signal began. */
  lemma HintIsSound(heard: State)
    requires Sound(heard) && heard.started && heard.forcing && SomeSigint(heard.log)
    ensures Sound(ArmRepeatWindow(heard.(hinted := true)))
  {
    hide Justified, InOrder, LastOpened, TwoSigints, Tells, ArmRepeatWindow;
    var hinted := heard.(hinted := true);
    assert Sound(hinted);
    ArmKeepsCore(hinted);
    SamePlaceIsSound(hinted, ArmRepeatWindow(hinted));
  }

  lemma ForcedExitIsSound(s: State, failing: bool)
    requires Sound(s) && s.started && s.forcing && s.repeatArmed && (s.startedBySignal || s.hinted)
    ensures var heard := Heard(s, "SIGINT", failing);
            Sound(ExitOnce(heard, if heard.failed then 1 else 130, true))
  {
    hide Justified, InOrder, LastOpened, TwoSigints, Tells, PlaceAgrees, RaceAgrees, WindowAgrees, ExitAgrees, ExitOnce;
    var heard := Heard(s, "SIGINT", failing);
    HeardIsSound(s, "SIGINT", failing);
    if !s.exited {
      ForcedExitMayCome(s, failing);
    }
    ExitKeepsCore(heard, if heard.failed then 1 else 130, true);
    SamePlaceIsSound(heard, ExitOnce(heard, if heard.failed then 1 else 130, true));
  }

  /** The stop as its first call leaves it, ahead of its plan. */
  function Armed(s: State, signal: string, failing: bool): State {
    Started(Heard(s, signal, failing), signal)
  }

  lemma FirstCallIsSound(s: State, signal: string, failing: bool)
    requires Sound(s) && !s.started
    ensures Sound(NextOfCall(s, signal, failing))
  {
    hide Sound, Core, Boundary, Started, BeginStep;
    FirstCallArms(s, signal, failing);
    BeginStepIsSound(Armed(s, signal, failing), 0);
  }

  lemma FirstCallArms(s: State, signal: string, failing: bool)
    requires Sound(s) && !s.started
    ensures Core(Armed(s, signal, failing)) && Armed(s, signal, failing).started
            && Boundary(Armed(s, signal, failing), 0)
  {
    hide Core, Sound, Tells, ArmRepeatWindow, Armed;
    FirstHeard(s, signal, failing);
    ArmedIs(s, signal, failing);
    if s.forcing {
      ArmKeepsCore(Begins(s, signal, failing));
    }
  }

  /** The stop begun, its window not opened yet. */
  function Begins(s: State, signal: string, failing: bool): State {
    Heard(s, signal, failing).(started := true, startedBySignal := IsSignal(signal),
                               race := Racing(s.now + s.timeoutMs))
  }

  lemma ArmedIs(s: State, signal: string, failing: bool)
    ensures Armed(s, signal, failing)
            == if s.forcing then ArmRepeatWindow(Begins(s, signal, failing)) else Begins(s, signal, failing)
  {
  }

  lemma FirstHeard(s: State, signal: string, failing: bool)
    requires Sound(s) && !s.started
    ensures Core(Begins(s, signal, failing)) && Boundary(Begins(s, signal, failing), 0)
  {
    hide Justified, InOrder, LastOpened, TwoSigints, Tells;
    PlainActMayCome(s, Called(signal, failing, s.now));
    EmitSays(s.log, Called(signal, failing, s.now));
  }

  /** The settling of the stage in turn, and the start of the one after it. */
  lemma SettlingMayCome(s: State, j: nat, clean: bool)
    requires Sound(s) && IsClosing(s, j)
    ensures MayEmit(s, CloseSettled(Position(s.step, j, s.at[j]), clean))
  {
    hide InOrder, RaceAgrees, WindowAgrees, ExitAgrees, HasStarted, HasSettled;
    var p := Position(s.step, j, s.at[j]);
    assert InPlan(s.plan, p) && Begun(s, p) && !Over(s, p);
    EmitKeepsOrder(s, CloseSettled(p, clean));
  }

  /** The stage is over: the log says so, and nothing else has moved. */
  lemma StageOverKeepsCore(s: State, j: nat, clean: bool)
    requires Sound(s) && IsClosing(s, j)
    ensures Core(StageOver(s, j, clean))
    ensures forall p: Position :: HasStarted(StageOver(s, j, clean).log, p) <==> InPlan(s.plan, p) && Begun(s, p)
    ensures forall p: Position ::
              HasSettled(StageOver(s, j, clean).log, p) <==> InPlan(s.plan, p) && Over(StageOver(s, j, clean), p)
  {
    hide Justified, InOrder, LastOpened, TwoSigints, Tells;
    var act := CloseSettled(Position(s.step, j, s.at[j]), clean);
    SettlingMayCome(s, j, clean);
    EmitSays(s.log, act);
    var s' := StageOver(s, j, clean);
    assert RaceAgrees(s');
    assert WindowAgrees(s');
    assert ExitAgrees(s');
    hide RaceAgrees, WindowAgrees, ExitAgrees;
    assert forall p: Position :: Over(s', p) <==> Over(s, p) || p == act.position;
    assert InPlan(s.plan, act.position);
  }

  function StageOver(s: State, j: nat, clean: bool): State
    requires IsClosing(s, j)
  {
    Emit(s.(failed := s.failed || !clean, at := s.at[j := s.at[j] + 1]),
         CloseSettled(Position(s.step, j, s.at[j]), clean))
  }

  lemma NextStageMayCome(s: State, j: nat)
    requires Core(s) && IsClosing(s, j) && s.at[j] > 0
    requires forall p: Position :: HasSettled(s.log, p) <==> InPlan(s.plan, p) && Over(s, p)
    requires !HasStarted(s.log, Position(s.step, j, s.at[j]))
    ensures MayEmit(s, CloseStarted(Position(s.step, j, s.at[j])))
  {
    hide InOrder, RaceAgrees, WindowAgrees, ExitAgrees, HasStarted, HasSettled;
    EmitKeepsOrder(s, CloseStarted(Position(s.step, j, s.at[j])));
  }

  lemma NextStageIsSound(s: State, j: nat)
    requires Core(s) && IsClosing(s, j) && s.at[j] > 0 && |s.at| == |s.plan[s.step]|
    requires forall p: Position :: HasSettled(s.log, p) <==> InPlan(s.plan, p) && Over(s, p)
    requires forall p: Position ::
               HasStarted(s.log, p) <==> InPlan(s.plan, p) && Begun(s, p) && p != Position(s.step, j, s.at[j])
    ensures Sound(Emit(s, CloseStarted(Position(s.step, j, s.at[j]))))
  {
    hide Justified, InOrder, LastOpened, TwoSigints, Tells;
    var act := CloseStarted(Position(s.step, j, s.at[j]));
    NextStageMayCome(s, j);
    EmitSays(s.log, act);
    var s' := Emit(s, act);
    assert RaceAgrees(s');
    assert WindowAgrees(s');
    assert ExitAgrees(s');
  }

  lemma SettledIsSound(s: State, j: nat, clean: bool)
    requires Sound(s) && IsClosing(s, j)
    ensures Sound(NextOfSettled(s, j, clean))
  {
    hide Justified, InOrder, LastOpened, TwoSigints, Tells;
    hide BeginStep, RaceAgrees, WindowAgrees, ExitAgrees;
    var s' := StageOver(s, j, clean);
    StageOverKeepsCore(s, j, clean);
    assert forall p: Position :: InPlan(s.plan, p) ==>
             (Begun(s', p) <==> Begun(s, p) || p == Position(s.step, j, s.at[j] + 1));
    if s.at[j] + 1 < s.plan[s.step][j] {
      NextStageIsSound(s', j);
    } else if RowDone(s.plan[s.step], s'.at) {
      BeginStepIsSound(s', s.step + 1);
    }
  }

  lemma TimerAndTimeAreSound(s: State, e: Event)
    requires Sound(s) && Enabled(s, e) && (e.TimerFires? || e.Passes?)
    ensures Sound(Next(s, e))
  {
    hide NextOfCall, NextOfSettled, BeginStep, ArmRepeatWindow;
    hide Justified, InOrder, LastOpened, TwoSigints, Tells;
  }

  lemma DeadlineMayCome(s: State)
    requires Core(s) && Enabled(s, DeadlineFires)
    ensures MayEmit(s, Decided(false, s.now))
  {
    hide InOrder, WindowAgrees, ExitAgrees, Tells;
    EmitKeepsOrder(s, Decided(false, s.now));
  }

  lemma DeadlineIsSound(s: State)
    requires Sound(s) && Enabled(s, DeadlineFires)
    ensures Sound(Next(s, DeadlineFires))
  {
    hide NextOfCall, NextOfSettled, BeginStep, ArmRepeatWindow;
    hide Justified, InOrder, LastOpened, TwoSigints, Tells;
    DeadlineMayCome(s);
    EmitSays(s.log, Decided(false, s.now));
    DecidedBeforeEnded(s.log);
    var s' := Next(s, DeadlineFires);
    assert PlaceAgrees(s');
    assert RaceAgrees(s');
    assert WindowAgrees(s');
    assert ExitAgrees(s');
  }

  lemma DecidedBeforeEnded(log: seq<Act>)
    ensures PlanEndedIn(log) ==> HasDecided(log)
  {
  }

  lemma ResumeIsSound(s: State)
    requires Sound(s) && Enabled(s, Resumes)
    ensures Sound(Next(s, Resumes))
  {
    hide NextOfCall, NextOfSettled, BeginStep, ArmRepeatWindow, InOrder, Tells, SamePlace, PlaceAgrees, WindowAgrees;
    var code := if s.race.TimedOut? || s.failed then 1 else 0;
    if !s.exited {
      VerdictMayCome(s);
    }
    ExitKeepsCore(s, code, false);
    ReadKeepsCore(s, ExitOnce(s, code, false));
    SamePlaceIsSound(s, ExitOnce(s, code, false).(race := Read));
  }

  /** The verdict of the race is read. */
  lemma ReadKeepsCore(s: State, left: State)
    requires Core(left) && SamePlace(s, left) && left.exited && (left.race.PlanEnded? || left.race.TimedOut?)
    ensures Core(left.(race := Read)) && SamePlace(s, left.(race := Read))
  {
    hide InOrder, LastOpened, Tells;
  }

  lemma ExitMayCome(s: State)
    requires Core(s) && s.flushing.Some?
    ensures MayEmit(s, Exited(s.flushing.value))
  {
    hide InOrder, WindowAgrees, RaceAgrees, Tells;
    EmitKeepsOrder(s, Exited(s.flushing.value));
  }

  lemma FlushIsSound(s: State)
    requires Sound(s) && s.flushing.Some?
    ensures Sound(Emit(s.(flushing := None), Exited(s.flushing.value)))
  {
    hide Justified, InOrder, LastOpened, TwoSigints, Tells;
    ExitMayCome(s);
    EmitSays(s.log, Exited(s.flushing.value));
    var s' := Emit(s.(flushing := None), Exited(s.flushing.value));
    assert PlaceAgrees(s');
    assert RaceAgrees(s');
    assert WindowAgrees(s');
    assert ExitAgrees(s');
  }

  lemma NextIsSound(s: State, e: Event)
    requires Sound(s)
    ensures Sound(Next(s, e)) && SameStop(s, Next(s, e))
  {
    hide Sound, NextOfCall, NextOfSettled;
    if Enabled(s, e) {
      match e
      case Call(signal, failing) => CallIsSound(s, signal, failing);
      case StageSettles(j, clean) => SettledIsSound(s, j, clean);
      case TimerFires(_) => TimerAndTimeAreSound(s, e);
      case DeadlineFires => DeadlineIsSound(s);
      case Resumes => ResumeIsSound(s);
      case FlushEnds => FlushIsSound(s);
      case Passes(_) => TimerAndTimeAreSound(s, e);
    }
  }

  lemma {:induction false} RunIsSound(s: State, events: seq<Event>)
    requires Sound(s)
    ensures Sound(Run(s, events)) && SameStop(s, Run(s, events))
    decreases |events|
  {
    hide Sound, Next;
    if events != [] {
      NextIsSound(s, events[0]);
      RunIsSound(Next(s, events[0]), events[1..]);
    }
  }

  // ------------------------------------------------------------------
  // The promises of the stop, for every run of it.

  lemma InitialIsSound(plan: Plan, timeoutMs: nat, forcing: bool)
    ensures Sound(Initial(plan, timeoutMs, forcing))
  {
    var s := Initial(plan, timeoutMs, forcing);
    assert forall p: Position :: !Begun(s, p) && !Over(s, p);
  }

  ghost function LogOf(plan: Plan, timeoutMs: nat, forcing: bool, events: seq<Event>): seq<Act> {
    Run(Initial(plan, timeoutMs, forcing), events).log
  }

  lemma EveryRunIsInOrder(plan: Plan, timeoutMs: nat, forcing: bool, events: seq<Event>)
    ensures InOrder(plan, timeoutMs, forcing, LogOf(plan, timeoutMs, forcing, events))
  {
    InitialIsSound(plan, timeoutMs, forcing);
    RunIsSound(Initial(plan, timeoutMs, forcing), events);
  }

  /** The process exits once, whichever verdicts meet. */
  lemma ExitsAtMostOnce(plan: Plan, timeoutMs: nat, forcing: bool, events: seq<Event>, a: nat, b: nat)
    requires var log := LogOf(plan, timeoutMs, forcing, events);
             a < |log| && b < |log| && log[a].Exited? && log[b].Exited?
    ensures a == b
  {
    var log := LogOf(plan, timeoutMs, forcing, events);
    EveryRunIsInOrder(plan, timeoutMs, forcing, events);
    forall u, w | 0 <= u < w < |log| && log[u].Exited? ensures HasExited(log[..w]) {
      Told(log, u, w, AnExit);
    }
  }

  /** Every stage settled cleanly, the plan was over by the deadline, nobody reported a failure. */
  ghost predicate CleanStop(plan: Plan, timeoutMs: nat, before: seq<Act>) {
    && before != [] && before[0].Called?
    && (forall p: Position :: InPlan(plan, p) ==> CloseSettled(p, true) in before)
    && (exists d <- before :: d.Decided? && d.planEnded && d.at <= before[0].at + timeoutMs)
    && !Failing(before)
  }

  /** A verdict of the stop that nobody forced is 0 exactly for a clean stop. */
  lemma ZeroExactlyForACleanStop(plan: Plan, timeoutMs: nat, forcing: bool, events: seq<Event>, v: nat)
    requires var log := LogOf(plan, timeoutMs, forcing, events);
             v < |log| && log[v].Verdict? && !log[v].forced
    ensures var log := LogOf(plan, timeoutMs, forcing, events);
            log[v].code == 0 <==> CleanStop(plan, timeoutMs, log[..v])
  {
    InitialIsSound(plan, timeoutMs, forcing);
    RunIsSound(Initial(plan, timeoutMs, forcing), events);
    UnforcedVerdict(Run(Initial(plan, timeoutMs, forcing), events), v);
  }

  /** The process leaves with 0 only after a clean stop. */
  lemma LeavesWithZeroOnlyCleanly(plan: Plan, timeoutMs: nat, forcing: bool, events: seq<Event>, x: nat)
    requires var log := LogOf(plan, timeoutMs, forcing, events);
             x < |log| && log[x] == Exited(0)
    ensures var log := LogOf(plan, timeoutMs, forcing, events);
            exists v: nat :: v < x && log[v].Verdict? && CleanStop(plan, timeoutMs, log[..v])
  {
    InitialIsSound(plan, timeoutMs, forcing);
    RunIsSound(Initial(plan, timeoutMs, forcing), events);
    var v := ZeroHasACleanStop(Run(Initial(plan, timeoutMs, forcing), events), x);
  }

  lemma ZeroHasACleanStop(s: State, x: nat) returns (v: nat)
    requires InOrder(s.plan, s.timeoutMs, s.forcing, s.log)
    requires x < |s.log| && s.log[x] == Exited(0)
    ensures v < x && s.log[v].Verdict? && CleanStop(s.plan, s.timeoutMs, s.log[..v])
  {
    assert HasVerdictOf(s.log[..x], 0);
    v :| 0 <= v < x && s.log[..x][v].Verdict? && s.log[..x][v].code == 0;
    assert Justified(s.plan, s.timeoutMs, s.forcing, s.log[..v], s.log[v]);
    UnforcedVerdict(s, v);
  }

  lemma UnforcedVerdict(s: State, v: nat)
    requires InOrder(s.plan, s.timeoutMs, s.forcing, s.log)
    requires v < |s.log| && s.log[v].Verdict? && !s.log[v].forced
    ensures s.log[v].code == 0 <==> CleanStop(s.plan, s.timeoutMs, s.log[..v])
  {
    var before := s.log[..v];
    assert Justified(s.plan, s.timeoutMs, s.forcing, before, s.log[v]);
    if PlanEndedIn(before) {
      var d :| 0 <= d < |before| && before[d].Decided? && before[d].planEnded;
      assert Justified(s.plan, s.timeoutMs, s.forcing, s.log[..d], s.log[d]);
      assert s.log[..d] <= before;
      assert s.log[..d][0] == before[0];
      forall p: Position | InPlan(s.plan, p) ensures HasSettled(before, p) {
        assert HasSettled(s.log[..d], p);
      }
      if !Failing(before) {
        forall p: Position | InPlan(s.plan, p) ensures CloseSettled(p, true) in before {
          assert HasSettled(before, p);
          if CloseSettled(p, false) in before {
            assert Fails(CloseSettled(p, false));
          }
        }
      }
    }
  }

  /** A close is called once, and only after every close ahead of it settled. */
  lemma ClosesOnceAndInOrder(plan: Plan, timeoutMs: nat, forcing: bool, events: seq<Event>, a: nat)
    requires var log := LogOf(plan, timeoutMs, forcing, events);
             a < |log| && log[a].CloseStarted?
    ensures var log := LogOf(plan, timeoutMs, forcing, events);
      && InPlan(plan, log[a].position)
      && (forall b: nat :: b < |log| && log[b] == log[a] ==> b == a)
      && (forall q: Position :: InPlan(plan, q) && Precedes(q, log[a].position) ==> HasSettled(log[..a], q))
  {
    var log := LogOf(plan, timeoutMs, forcing, events);
    EveryRunIsInOrder(plan, timeoutMs, forcing, events);
    forall u, w | 0 <= u < w < |log| && log[u].CloseStarted? ensures HasStarted(log[..w], log[u].position) {
      Told(log, u, w, AStart(log[u].position));
    }
  }

  /**
   * A forced exit is a SIGINT past the latest window, the second SIGINT at least
   * of a stop no signal began, with the code of a failure known by then.
   */
  lemma ForcedExitIsASecondKeypress(plan: Plan, timeoutMs: nat, forcing: bool, events: seq<Event>, v: nat)
    requires var log := LogOf(plan, timeoutMs, forcing, events);
             v < |log| && log[v].Verdict? && log[v].forced
    ensures var log := LogOf(plan, timeoutMs, forcing, events);
      && forcing && v > 0 && SigintAt(log, v - 1) && log[0].Called?
      && (exists w: nat :: w < v && IsLatestWindow(log[..v], w) && log[v].at >= log[w].at + SIGINT_REPEAT_WINDOW_MS)
      && (!IsSignal(log[0].signal) ==> TwoSigints(log[..v]))
      && log[v].code == if Failing(log[..v]) then 1 else 130
  {
    var log := LogOf(plan, timeoutMs, forcing, events);
    EveryRunIsInOrder(plan, timeoutMs, forcing, events);
    var before := log[..v];
    assert Justified(plan, timeoutMs, forcing, before, log[v]);
    assert before[v - 1] == log[v - 1];
    LatestWindow(before);
  }

  ghost predicate IsLatestWindow(log: seq<Act>, w: nat) {
    w < |log| && log[w].WindowOpened? && forall u :: w < u < |log| ==> !log[u].WindowOpened?
  }

  lemma {:induction false} LatestWindow(log: seq<Act>)
    requires HasOpened(log)
    ensures exists w: nat :: IsLatestWindow(log, w) && LastOpened(log) == log[w].at
  {
    var last := |log| - 1;
    if log[last].WindowOpened? {
      assert IsLatestWindow(log, last);
    } else {
      var u :| 0 <= u < |log| && log[u].WindowOpened?;
      assert log[..last][u] == log[u];
      LatestWindow(log[..last]);
      var w: nat :| IsLatestWindow(log[..last], w) && LastOpened(log[..last]) == log[..last][w].at;
      assert IsLatestWindow(log, w);
    }
  }

  /** The end of the stop that needs no stage and no signal: the deadline and the flush. */
  function WayOut(s: State): seq<Event> {
    (if s.race.Racing? && s.now <= s.race.due then [Passes(s.race.due - s.now), DeadlineFires] else [])
      + [Resumes, FlushEnds]
  }

  lemma WayOutEnds(s: State)
    requires ExitAgrees(s) && RaceAgrees(s) && s.started
    ensures var end := Run(s, WayOut(s)); end.exited && end.flushing.None?
  {
    hide Run, BeginStep, NextOfCall, NextOfSettled, Tells;
    var rest: seq<Event> := [Resumes, FlushEnds];
    if s.race.Racing? {
      var due := Next(s, Passes(s.race.due - s.now));
      var decided := Next(due, DeadlineFires);
      assert due.race == s.race && due.now == s.race.due && decided.race == TimedOut;
      assert WayOut(s) == [Passes(s.race.due - s.now)] + ([DeadlineFires] + rest);
      RunUnfolds(s, Passes(s.race.due - s.now), [DeadlineFires] + rest);
      RunUnfolds(due, DeadlineFires, rest);
      TwoEvents(decided);
    } else {
      assert WayOut(s) == rest;
      TwoEvents(s);
    }
  }

  lemma TwoEvents(s: State)
    requires s.race.PlanEnded? || s.race.TimedOut? || (s.race.Read? && s.exited)
    ensures var end := Run(s, [Resumes, FlushEnds]); end.exited && end.flushing.None?
  {
    hide Run, BeginStep, NextOfCall, NextOfSettled;
    var rest: seq<Event> := [Resumes, FlushEnds];
    assert rest == [Resumes] + ([FlushEnds] + []);
    RunUnfolds(s, Resumes, [FlushEnds] + []);
    RunUnfolds(Next(s, Resumes), FlushEnds, []);
    RunOfNothing(Next(Next(s, Resumes), FlushEnds));
  }

  lemma RunUnfolds(s: State, e: Event, rest: seq<Event>)
    ensures Run(s, [e] + rest) == Run(Next(s, e), rest)
  {
    hide Next;
    assert ([e] + rest)[1..] == rest;
  }

  lemma RunOfNothing(s: State)
    ensures Run(s, []) == s
  {
  }

  /** However its stages hang, a stop that began can leave the process. */
  lemma AStopCanAlwaysLeave(plan: Plan, timeoutMs: nat, forcing: bool, events: seq<Event>)
    requires Run(Initial(plan, timeoutMs, forcing), events).started
    ensures var s := Run(Initial(plan, timeoutMs, forcing), events);
            HasExited(Run(s, WayOut(s)).log)
  {
    var s := Run(Initial(plan, timeoutMs, forcing), events);
    InitialIsSound(plan, timeoutMs, forcing);
    RunIsSound(Initial(plan, timeoutMs, forcing), events);
    RunIsSound(s, WayOut(s));
    WayOutEnds(s);
  }

  /** How far a stop is on its way out: its race decided, its verdict read, the process left. */
  datatype WayGone = Underway | RaceDecided | VerdictRead | HasLeft

  predicate IsAt(s: State, gone: WayGone) {
    match gone
    case Underway => true
    case RaceDecided => s.race.PlanEnded? || s.race.TimedOut? || s.race.Read?
    case VerdictRead => s.race.Read? && s.exited
    case HasLeft => s.race.Read? && s.exited && s.flushing.None?
  }

  /** Nothing takes a stop back on its way out; its resumption and its flush take it on. */
  lemma TheWayOutIsOneWay(s: State, e: Event, gone: WayGone)
    requires RaceAgrees(s) && ExitAgrees(s) && IsAt(s, gone)
    ensures IsAt(Next(s, e), gone)
    ensures e.Resumes? && gone.RaceDecided? ==> IsAt(Next(s, e), VerdictRead)
    ensures e.FlushEnds? && gone.VerdictRead? ==> IsAt(Next(s, e), HasLeft)
  {
    hide BeginStep, Tells;
    match e
    case Call(signal, failing) => ACallKeepsTheWayOut(s, signal, failing, gone);
    case StageSettles(j, clean) =>
      if Enabled(s, e) {
        ASettlingKeepsTheWayOut(s, j, clean, gone);
      }
    case _ =>
  }

  lemma {:induction false} BeginStepKeepsTheWayOut(s: State, i: nat, gone: WayGone)
    requires IsAt(s, gone)
    ensures IsAt(BeginStep(s, i), gone)
    decreases |s.plan| - i
  {
    if i < |s.plan| {
      BeginStepKeepsTheWayOut(s, i + 1, gone);
    }
  }

  lemma ACallKeepsTheWayOut(s: State, signal: string, failing: bool, gone: WayGone)
    requires RaceAgrees(s) && ExitAgrees(s) && IsAt(s, gone)
    ensures IsAt(NextOfCall(s, signal, failing), gone)
  {
    hide BeginStep, Tells;
  }

  lemma ASettlingKeepsTheWayOut(s: State, j: nat, clean: bool, gone: WayGone)
    requires IsClosing(s, j) && IsAt(s, gone)
    ensures IsAt(NextOfSettled(s, j, clean), gone)
  {
    hide BeginStep;
    BeginStepKeepsTheWayOut(StageOver(s, j, clean), s.step + 1, gone);
  }

  lemma {:induction false} RunStaysOnTheWayOut(s: State, events: seq<Event>, gone: WayGone)
    requires Sound(s) && IsAt(s, gone)
    ensures IsAt(Run(s, events), gone) && Sound(Run(s, events))
    decreases |events|
  {
    hide Sound, Next, IsAt, RaceAgrees, ExitAgrees;
    if events != [] {
      NextIsSound(s, events[0]);
      SoundAgrees(s);
      TheWayOutIsOneWay(s, events[0], gone);
      RunStaysOnTheWayOut(Next(s, events[0]), events[1..], gone);
    }
  }

  lemma SoundAgrees(s: State)
    requires Sound(s)
    ensures RaceAgrees(s) && ExitAgrees(s)
  {
  }

  lemma {:induction false} RunAppends(s: State, first: seq<Event>, second: seq<Event>)
    ensures Run(s, first + second) == Run(Run(s, first), second)
    decreases |first|
  {
    hide Next;
    if first == [] {
      assert first + second == second;
    } else {
      assert (first + second)[1..] == first[1..] + second;
      RunAppends(Next(s, first[0]), first[1..], second);
    }
  }

  /** One event that takes a stop on, wherever it stands among others. */
  lemma TheEventCounts(s: State, before: seq<Event>, e: Event, gone: WayGone, further: WayGone)
    requires Sound(s) && IsAt(s, gone)
    requires (gone, e, further) in {(RaceDecided, Resumes, VerdictRead), (VerdictRead, FlushEnds, HasLeft)}
    ensures var end := Run(s, before + [e]); Sound(end) && IsAt(end, further)
  {
    hide Sound, Next, IsAt, RaceAgrees, ExitAgrees, Run;
    RunStaysOnTheWayOut(s, before, gone);
    var there := Run(s, before);
    RunAppends(s, before, [e]);
    RunUnfolds(there, e, []);
    RunOfNothing(Next(there, e));
    NextIsSound(there, e);
    SoundAgrees(there);
    TheWayOutIsOneWay(there, e, gone);
    assert [e] + [] == [e];
  }

  /** Once time is past the deadline the race is decided, and so it is once the log says so. */
  lemma TheDeadlineDecides(s: State)
    requires Sound(s) && s.log != [] && s.log[0].Called?
    requires HasDecided(s.log) || s.now > s.log[0].at + s.timeoutMs
    ensures HasDecided(s.log) && IsAt(s, RaceDecided)
  {
    hide Tells;
  }

  /**
   * However its stages hang and whatever else happens, a stop past its deadline,
   * or decided before it, leaves the process: the verdict of its race is read and
   * its log flushed, and nothing that comes before, between or after undoes it.
   */
  lemma AStopAlwaysLeaves(plan: Plan, timeoutMs: nat, forcing: bool,
                          events: seq<Event>, before: seq<Event>, between: seq<Event>, after: seq<Event>)
    requires var s := Run(Initial(plan, timeoutMs, forcing), events);
             s.log != [] && s.log[0].Called? && (HasDecided(s.log) || s.now > s.log[0].at + timeoutMs)
    ensures var s := Run(Initial(plan, timeoutMs, forcing), events);
            HasDecided(s.log) && HasExited(Run(s, before + [Resumes] + (between + [FlushEnds]) + after).log)
  {
    hide Sound, IsAt, Run, Tells;
    var s := Run(Initial(plan, timeoutMs, forcing), events);
    InitialIsSound(plan, timeoutMs, forcing);
    RunIsSound(Initial(plan, timeoutMs, forcing), events);
    TheDeadlineDecides(s);
    TheEventCounts(s, before, Resumes, RaceDecided, VerdictRead);
    var read := Run(s, before + [Resumes]);
    TheEventCounts(read, between, FlushEnds, VerdictRead, HasLeft);
    var left := Run(read, between + [FlushEnds]);
    RunStaysOnTheWayOut(left, after, HasLeft);
    RunAppends(s, before + [Resumes], between + [FlushEnds]);
    RunAppends(s, before + [Resumes] + (between + [FlushEnds]), after);
    LeftMeansExited(Run(left, after));
  }

  lemma LeftMeansExited(s: State)
    requires Sound(s) && IsAt(s, HasLeft)
    ensures HasExited(s.log)
  {
    hide Tells;
  }
}
