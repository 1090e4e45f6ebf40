/**
 * The handler of createShutdownHandler: the fields its closures share, changed
 * call by call and event by event. Every method is the event of the machine it
 * stands for.
 */
module ShutdownHandler {
  import opened Wrappers
  import opened Shutdown

  lemma StartRowUnfolds(log: seq<Act>, i: nat, row: seq<nat>, j: nat)
    ensures StartRow(log, i, row, j) ==
            if j >= |row| then log
            else StartRow(if row[j] > 0 then log + [CloseStarted(Position(i, j, 0))] else log, i, row, j + 1)
  {
  }

  lemma BeginStepUnfolds(s: State, i: nat)
    requires i < |s.plan|
    ensures var zeros := seq(|s.plan[i]|, _ => 0);
            BeginStep(s, i) ==
            if RowDone(s.plan[i], zeros) then BeginStep(s, i + 1)
            else s.(step := i, at := zeros, log := StartRow(s.log, i, s.plan[i], 0))
  {
  }

  class Handler {
    const plan: Plan
    const timeoutMs: nat
    const forcing: bool
    var now: nat
    var started: bool
    var exited: bool
    var failed: bool
    var startedBySignal: bool
    var repeatArmed: bool
    var repeatWindow: Option<nat>
    var hinted: bool
    var timers: map<nat, nat>
    var nextTimer: nat
    var race: Race
    var step: nat
    var at: seq<nat>
    var flushing: Option<nat>
    ghost var log: seq<Act>

    constructor (plan: Plan, timeoutMs: nat, forcing: bool)
      ensures Model() == Initial(plan, timeoutMs, forcing)
    {
      this.plan, this.timeoutMs, this.forcing := plan, timeoutMs, forcing;
      now, started, exited, failed, startedBySignal := 0, false, false, false, false;
      repeatArmed, repeatWindow, hinted, timers, nextTimer := false, None, false, map[], 0;
      race, step, at, flushing, log := NotBegun, 0, [], None, [];
    }

    ghost function Model(): State
      reads this
    {
      State(plan, timeoutMs, forcing, now, started, exited, failed, startedBySignal, repeatArmed, repeatWindow, hinted,
            timers, nextTimer, race, step, at, flushing, log)
    }

    method ArmWindow()
      modifies this
      ensures Model() == ArmRepeatWindow(old(Model()))
    {
      if repeatWindow.Some? {
        timers := timers - {repeatWindow.value};
      }
      repeatArmed := false;
      timers, repeatWindow := timers[nextTimer := now + SIGINT_REPEAT_WINDOW_MS], Some(nextTimer);
      nextTimer := nextTimer + 1;
      log := log + [WindowOpened(now)];
    }

    method ArmIfForcing()
      modifies this
      ensures Model() == if forcing then ArmRepeatWindow(old(Model())) else old(Model())
    {
      hide ArmRepeatWindow, SameStop;
      if forcing {
        ArmWindow();
      }
    }

    method Exit(code: nat, ghost forced: bool)
      modifies this
      ensures Model() == ExitOnce(old(Model()), code, forced)
    {
      if exited {
        return;
      }
      exited := true;
      log := log + [Verdict(code, forced, now)];
      flushing := Some(code);
    }

    /** The first stage of each sequence of step `n` starts. */
    method StartSequences(n: nat) returns (waiting: bool)
      requires n < |plan|
      modifies this`log
      ensures log == StartRow(old(log), n, plan[n], 0)
      ensures waiting <==> !RowDone(plan[n], seq(|plan[n]|, _ => 0))
      ensures !waiting ==> log == old(log)
    {
      hide StartRow;
      var row := plan[n];
      ghost var was := log;
      waiting := false;
      for j := 0 to |row|
        invariant StartRow(log, n, row, j) == StartRow(was, n, row, 0)
        invariant waiting <==> exists k | 0 <= k < j :: row[k] > 0
        invariant !waiting ==> log == was
      {
        StartRowUnfolds(log, n, row, j);
        if row[j] > 0 {
          log := log + [CloseStarted(Position(n, j, 0))];
          waiting := true;
        }
      }
      StartRowUnfolds(log, n, row, |row|);
    }

    /** Goes through the plan from step `first` on, up to a step with a stage to wait for. */
    method RunPlan(first: nat)
      modifies this
      ensures Model() == BeginStep(old(Model()), first)
    {
      hide BeginStep, StartRow, RowDone;
      var n := first;
      while n < |plan|
        invariant Model() == old(Model())
        invariant BeginStep(old(Model()), n) == BeginStep(old(Model()), first)
      {
        BeginStepUnfolds(Model(), n);
        var waiting := StartSequences(n);
        if waiting {
          step, at := n, seq(|plan[n]|, _ => 0);
          return;
        }
        n := n + 1;
      }
      EndPlan(n);
    }

    method EndPlan(n: nat)
      requires n >= |plan|
      modifies this
      ensures Model() == BeginStep(old(Model()), n)
    {
      step, at := n, [];
      if race.Racing? {
        race := PlanEnded;
        log := log + [Decided(true, now)];
      }
    }

    method Handle(signal: string, failing: bool)
      modifies this
      ensures Model() == NextOfCall(old(Model()), signal, failing)
    {
      hide BeginStep, ArmRepeatWindow, ExitOnce, SameStop;
      log := log + [Called(signal, failing, now)];
      if failing {
        failed := true;
      }
      if started {
        Repeat(signal);
      } else {
        Begin(signal);
      }
    }

    /** The first call: it begins the stop. */
    method Begin(signal: string)
      modifies this
      ensures Model() == BeginStep(Started(old(Model()), signal), 0)
    {
      hide BeginStep, ArmRepeatWindow, SameStop;
      started := true;
      startedBySignal := signal == "SIGINT" || signal == "SIGTERM";
      ArmIfForcing();
      race := Racing(now + timeoutMs);
      RunPlan(0);
    }

    /** A call that found the stop under way, its failure noted. */
    method Repeat(signal: string)
      modifies this
      ensures Model() ==
              if forcing && signal == "SIGINT" then
                if !old(startedBySignal) && !old(hinted) then ArmRepeatWindow(old(Model()).(hinted := true))
                else if !old(repeatArmed) then old(Model())
                else ExitOnce(old(Model()), if old(failed) then 1 else 130, true)
              else old(Model())
    {
      hide ArmRepeatWindow, ExitOnce;
      if forcing && signal == "SIGINT" {
        if !startedBySignal && !hinted {
          hinted := true;
          ArmWindow();
          return;
        }
        if !repeatArmed {
          return;
        }
        Exit(if failed then 1 else 130, true);
      }
    }

    /** The stage in turn of sequence `j` settles, and the sequence goes on. */
    method StageSettled(j: nat, clean: bool)
      requires IsClosing(Model(), j)
      modifies this
      ensures Model() == Next(old(Model()), StageSettles(j, clean))
    {
      if !clean {
        failed := true;
      }
      var k := at[j];
      log := log + [CloseSettled(Position(step, j, k), clean)];
      at := at[j := k + 1];
      if k + 1 < plan[step][j] {
        log := log + [CloseStarted(Position(step, j, k + 1))];
      } else if RowDone(plan[step], at) {
        RunPlan(step + 1);
      }
    }

    method WindowPassed(timer: nat)
      requires Enabled(Model(), TimerFires(timer))
      modifies this
      ensures Model() == Next(old(Model()), TimerFires(timer))
    {
      timers := timers - {timer};
      repeatArmed := true;
    }

    method DeadlinePassed()
      requires Enabled(Model(), DeadlineFires)
      modifies this
      ensures Model() == Next(old(Model()), DeadlineFires)
    {
      race := TimedOut;
      log := log + [Decided(false, now)];
    }

    /** The handler goes on once its race is decided. */
    method Resume()
      requires Enabled(Model(), Resumes)
      modifies this
      ensures Model() == Next(old(Model()), Resumes)
    {
      var verdict := race;
      race := Read;
      if exited {
        return;
      }
      if verdict.TimedOut? {
        Exit(1, false);
        return;
      }
      Exit(if failed then 1 else 0, false);
    }

    /** The log is flushed, or its bound is over: the process exits. */
    method Flushed()
      requires Enabled(Model(), FlushEnds)
      modifies this
      ensures Model() == Next(old(Model()), FlushEnds)
    {
      log := log + [Exited(flushing.value)];
      flushing := None;
    }

    method Pass(ms: nat)
      requires Enabled(Model(), Passes(ms))
      modifies this
      ensures Model() == Next(old(Model()), Passes(ms))
    {
      now := now + ms;
    }
  }
}
