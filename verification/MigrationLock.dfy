/**
 * One run under the migration lock, with any statement of it failing: the session
 * around the run and the steps that put it back.
 */
module MigrationLock {
  import opened Decimals
  import opened Wrappers

  /** What a statement of the driver or the run itself fails with. */
  datatype Error =
    | Db(code: string)
    | LockTimeout(waitMs: nat, cause: string)
    | NeedsSingleConnection
    | BadWait
    | BodyFailed(reason: int)

  datatype Result<+T> = Ok(value: T) | Err(error: Error)

  /**
   * What comes of a statement. A failed `lock` or `unlock` may have taken effect
   * all the same (`landed`): a cancel can land as the server grants the lock. A
   * failed setting has no effect.
   */
  datatype Fault = Fine | Fails(code: string, landed: bool)

  datatype ReleaseStep = Unlock | ClientMinMessages | Timeouts

  datatype Mode = EveryStep | UntilFailure

  /** The statements of the run ahead of its body, by name. */
  datatype MainFaults = MainFaults(readSession: Fault, lockWait: Fault, lock: Fault, timeoutsAfterLock: Fault,
                                   quietNotices: Fault)

  /** The settings and the lock of a session as a run finds them. */
  datatype Snapshot = Snapshot(lockTimeout: string, statementTimeout: string, clientMinMessages: string, held: nat)

  const LOCK_NOT_AVAILABLE := "55P03"
  const MIGRATION_LOCK_WAIT_MS := 120000.0
  const MAX_SAFE_INTEGER := 9007199254740991

  /** A wait the caller may ask for: a whole number of milliseconds above 0. */
  predicate IsWait(ms: real) {
    ms.Floor as real == ms && 0.0 < ms <= MAX_SAFE_INTEGER as real
  }

  /**
   * What the run ends with, whatever becomes of its release steps: they are not
   * among the arguments.
   */
  function Outcome<T>(max: nat, waitMs: real, main: MainFaults, body: Result<T>): Result<T> {
    if max != 1 then Err(NeedsSingleConnection)
    else if !IsWait(waitMs) then Err(BadWait)
    else if main.readSession.Fails? then Err(Db(main.readSession.code))
    else if main.lockWait.Fails? then Err(Db(main.lockWait.code))
    else if main.lock.Fails? then
      Err(if main.lock.code == LOCK_NOT_AVAILABLE then LockTimeout(waitMs.Floor, main.lock.code)
          else Db(main.lock.code))
    else if main.timeoutsAfterLock.Fails? then Err(Db(main.timeoutsAfterLock.code))
    else if main.quietNotices.Fails? then Err(Db(main.quietNotices.code))
    else body
  }

  /** Whether the run got as far as asking for the lock, and what it then held. */
  predicate Asked(max: nat, waitMs: real, main: MainFaults) {
    max == 1 && IsWait(waitMs) && main.readSession.Fine? && main.lockWait.Fine?
  }

  predicate BodyRuns(max: nat, waitMs: real, main: MainFaults) {
    Asked(max, waitMs, main) && main.lock.Fine? && main.timeoutsAfterLock.Fine? && main.quietNotices.Fine?
  }

  /** The steps of putting the session back: of a run that held the lock, of an attempt at it. */
  function StepsAfter(main: MainFaults, heldBefore: bool): seq<ReleaseStep> {
    if main.lock.Fine? then [Unlock, ClientMinMessages, Timeouts]
    else if heldBefore then [Timeouts] else [Unlock, Timeouts]
  }

  /** The reports of the steps that failed, in order; an attempt stops at the first. */
  function Reports(steps: seq<ReleaseStep>, faults: ReleaseStep -> Fault, mode: Mode): seq<(ReleaseStep, string)> {
    if steps == [] then []
    else match faults(steps[0])
      case Fine => Reports(steps[1..], faults, mode)
      case Fails(code, _) => [(steps[0], code)] + if mode == UntilFailure then [] else Reports(steps[1..], faults, mode)
  }

  /** The steps that were run: all of them, or those up to the first failure. */
  function Ran(steps: seq<ReleaseStep>, faults: ReleaseStep -> Fault, mode: Mode): seq<ReleaseStep> {
    if steps == [] then []
    else [steps[0]] + if mode == UntilFailure && faults(steps[0]).Fails? then [] else Ran(steps[1..], faults, mode)
  }

  predicate Lands(fault: Fault) {
    fault.Fine? || fault.landed
  }

  /** The session after one statement of the release. */
  function AfterStep(now: Snapshot, step: ReleaseStep, fault: Fault, before: Snapshot): Snapshot {
    match step
    case Unlock => if now.held > 0 && Lands(fault) then now.(held := now.held - 1) else now
    case ClientMinMessages => if fault.Fine? then now.(clientMinMessages := before.clientMinMessages) else now
    case Timeouts =>
      if fault.Fine? then now.(lockTimeout := before.lockTimeout, statementTimeout := before.statementTimeout) else now
  }

  /** The session after the release, statement by statement. */
  function AfterRelease(now: Snapshot, steps: seq<ReleaseStep>, faults: ReleaseStep -> Fault, mode: Mode,
                        before: Snapshot): Snapshot
    decreases |steps|
  {
    if steps == [] then now
    else
      var next := AfterStep(now, steps[0], faults(steps[0]), before);
      if mode == UntilFailure && faults(steps[0]).Fails? then next
      else AfterRelease(next, steps[1..], faults, mode, before)
  }

  /** What a step that succeeded puts back. */
  predicate PutBack(step: ReleaseStep, now: Snapshot, before: Snapshot, grants: nat) {
    match step
    case Unlock => now.held == if grants > 0 then grants - 1 else 0
    case ClientMinMessages => now.clientMinMessages == before.clientMinMessages
    case Timeouts => now.lockTimeout == before.lockTimeout && now.statementTimeout == before.statementTimeout
  }

  /** The part of the session a step is about stays what it was. */
  predicate Untouched(step: ReleaseStep, now: Snapshot, was: Snapshot) {
    match step
    case Unlock => now.held == was.held
    case ClientMinMessages => now.clientMinMessages == was.clientMinMessages
    case Timeouts => now.lockTimeout == was.lockTimeout && now.statementTimeout == was.statementTimeout
  }

  predicate Distinct(steps: seq<ReleaseStep>) {
    forall i, j | 0 <= i < j < |steps| :: steps[i] != steps[j]
  }

  /** Each step that ran and succeeded has put its own part back, and no step touches another's part. */
  lemma {:induction false} ReleasePutsBack(now: Snapshot, steps: seq<ReleaseStep>, faults: ReleaseStep -> Fault,
                                           mode: Mode, before: Snapshot)
    requires Distinct(steps)
    ensures var after := AfterRelease(now, steps, faults, mode, before);
            && (forall step <- Ran(steps, faults, mode) :: faults(step).Fine? ==>
                  PutBack(step, after, before, now.held))
            && (forall step: ReleaseStep | step !in Ran(steps, faults, mode) :: Untouched(step, after, now))
    ensures forall step <- Ran(steps, faults, mode) :: step in steps
    decreases |steps|
  {
    if steps != [] {
      var next := AfterStep(now, steps[0], faults(steps[0]), before);
      assert steps[0] !in steps[1..];
      ReleasePutsBack(next, steps[1..], faults, mode, before);
    }
  }

  /** With no report, every step ran and none failed. */
  lemma {:induction false} NoReportMeansAllFine(steps: seq<ReleaseStep>, faults: ReleaseStep -> Fault, mode: Mode)
    ensures Reports(steps, faults, mode) == [] <==> forall step <- steps :: faults(step).Fine?
    ensures Reports(steps, faults, mode) == [] ==> Ran(steps, faults, mode) == steps
    decreases |steps|
  {
    if steps != [] {
      NoReportMeansAllFine(steps[1..], faults, mode);
      assert steps == [steps[0]] + steps[1..];
    }
  }

  lemma ReleaseUnfolds(now: Snapshot, steps: seq<ReleaseStep>, faults: ReleaseStep -> Fault, mode: Mode,
                       before: Snapshot)
    requires steps != []
    ensures var fault, rest := faults(steps[0]), steps[1..];
            var next, stops := AfterStep(now, steps[0], fault, before), mode == UntilFailure && fault.Fails?;
            && AfterRelease(now, steps, faults, mode, before)
               == (if stops then next else AfterRelease(next, rest, faults, mode, before))
            && Reports(steps, faults, mode)
               == (if fault.Fine? then Reports(rest, faults, mode)
                   else [(steps[0], fault.code)] + if stops then [] else Reports(rest, faults, mode))
  {
    hide AfterStep;
  }

  lemma ReleaseOfNothing(now: Snapshot, faults: ReleaseStep -> Fault, mode: Mode, before: Snapshot)
    ensures AfterRelease(now, [], faults, mode, before) == now && Reports([], faults, mode) == []
  {
  }

  /** The steps that ran are the first of the steps: all of them, or those up to a failure that ends an attempt. */
  lemma {:induction false} RanIsAPrefix(steps: seq<ReleaseStep>, faults: ReleaseStep -> Fault, mode: Mode)
    ensures Ran(steps, faults, mode) <= steps
    ensures mode == EveryStep ==> Ran(steps, faults, mode) == steps
    ensures mode == UntilFailure ==>
              var ran := Ran(steps, faults, mode);
              && (forall i | 0 <= i < |ran| - 1 :: faults(ran[i]).Fine?)
              && (ran != steps ==> ran != [] && faults(ran[|ran| - 1]).Fails?)
    decreases |steps|
  {
    if steps != [] {
      RanIsAPrefix(steps[1..], faults, mode);
      assert steps == [steps[0]] + steps[1..];
    }
  }

  /** The reports are the failures of the steps that ran, each with its own code. */
  lemma {:induction false} ReportsAreTheFailures(steps: seq<ReleaseStep>, faults: ReleaseStep -> Fault, mode: Mode)
    ensures forall step: ReleaseStep, code: string :: (step, code) in Reports(steps, faults, mode) <==>
              step in Ran(steps, faults, mode) && faults(step).Fails? && faults(step).code == code
    decreases |steps|
  {
    if steps != [] {
      ReportsAreTheFailures(steps[1..], faults, mode);
    }
  }

  function Position(steps: seq<ReleaseStep>, step: ReleaseStep): nat {
    if steps == [] || steps[0] == step then 0 else 1 + Position(steps[1..], step)
  }

  predicate InOrder(steps: seq<ReleaseStep>, reports: seq<(ReleaseStep, string)>) {
    forall i, j | 0 <= i < j < |reports| :: Position(steps, reports[i].0) < Position(steps, reports[j].0)
  }

  lemma InOrderBelow(steps: seq<ReleaseStep>, reports: seq<(ReleaseStep, string)>, code: string)
    requires steps != [] && InOrder(steps[1..], reports)
    requires forall k | 0 <= k < |reports| :: reports[k].0 != steps[0]
    ensures InOrder(steps, reports) && InOrder(steps, [(steps[0], code)] + reports)
  {
    assert forall k | 0 <= k < |reports| :: Position(steps, reports[k].0) == 1 + Position(steps[1..], reports[k].0);
    assert Position(steps, steps[0]) == 0;
  }

  /** The reports come in the order of their steps. */
  lemma {:induction false} ReportsComeInOrder(steps: seq<ReleaseStep>, faults: ReleaseStep -> Fault, mode: Mode)
    requires Distinct(steps)
    ensures InOrder(steps, Reports(steps, faults, mode))
    decreases |steps|
  {
    if steps != [] {
      var rest := steps[1..];
      var later := Reports(rest, faults, mode);
      ReportsComeInOrder(rest, faults, mode);
      ReportsAreTheFailures(rest, faults, mode);
      RanIsAPrefix(rest, faults, mode);
      forall k | 0 <= k < |later|
        ensures later[k].0 != steps[0]
      {
        assert (later[k].0, later[k].1) in later;
        assert later[k].0 in rest;
      }
      InOrderBelow(steps, later, if faults(steps[0]).Fails? then faults(steps[0]).code else "");
    }
  }

  /** An attempt reports one failure at most. */
  lemma {:induction false} AnAttemptReportsOnce(steps: seq<ReleaseStep>, faults: ReleaseStep -> Fault)
    ensures |Reports(steps, faults, UntilFailure)| <= 1
    decreases |steps|
  {
    if steps != [] {
      AnAttemptReportsOnce(steps[1..], faults);
    }
  }

  /** The statements of a run ahead of its body, in order. */
  function StatementsOf(main: MainFaults): seq<Fault> {
    [main.readSession, main.lockWait, main.lock, main.timeoutsAfterLock, main.quietNotices]
  }

  /** A real that is the whole number `n`. */
  predicate IsWhole(n: int, x: real) {
    x == n as real
  }

  /**
   * The outcome is the body's own if no statement ahead of it fails, and else the
   * error of the first that does - a busy lock exactly if it is the lock itself
   * that fails, with 55P03. A pool and a wait that is no whole positive number of
   * milliseconds are refused before any.
   */
  lemma TheOutcomeIsTheFirstFailure<T>(max: nat, waitMs: real, main: MainFaults, body: Result<T>, k: nat)
    requires k <= 5 && forall i | 0 <= i < k :: StatementsOf(main)[i].Fine?
    requires k < 5 ==> StatementsOf(main)[k].Fails?
    ensures var outcome := Outcome(max, waitMs, main, body);
            if max != 1 then outcome == Err(NeedsSingleConnection)
            else if !(waitMs > 0.0 && waitMs <= 9007199254740991.0 && exists n: int :: IsWhole(n, waitMs))
            then outcome == Err(BadWait)
            else if k == 5 then outcome == body
            else if k == 2 && main.lock.code == "55P03" then outcome == Err(LockTimeout(waitMs.Floor, "55P03"))
            else outcome == Err(Db(StatementsOf(main)[k].code))
  {
    var statements := StatementsOf(main);
    assert statements[0] == main.readSession && statements[1] == main.lockWait && statements[2] == main.lock;
    assert statements[3] == main.timeoutsAfterLock && statements[4] == main.quietNotices;
    if IsWait(waitMs) {
      assert IsWhole(waitMs.Floor, waitMs);
    }
  }

  /** A session of the database: three settings and a lock that counts its grants. */
  class Session {
    var lockTimeout: string
    var statementTimeout: string
    var clientMinMessages: string
    var held: nat

    function Now(): Snapshot
      reads this
    {
      Snapshot(lockTimeout, statementTimeout, clientMinMessages, held)
    }

    method SetTimeouts(lock: string, statement: string, fault: Fault)
      modifies this
      ensures Now() == if fault.Fine? then old(Now()).(lockTimeout := lock, statementTimeout := statement)
                       else old(Now())
    {
      if fault.Fine? {
        lockTimeout, statementTimeout := lock, statement;
      }
    }

    method SetMinMessages(level: string, fault: Fault)
      modifies this
      ensures Now() == if fault.Fine? then old(Now()).(clientMinMessages := level) else old(Now())
    {
      if fault.Fine? {
        clientMinMessages := level;
      }
    }

    method AdvisoryLock(fault: Fault)
      modifies this
      ensures Now() == if Lands(fault) then old(Now()).(held := old(held) + 1) else old(Now())
    {
      if Lands(fault) {
        held := held + 1;
      }
    }

    /** Only a lock the session holds is unlocked. */
    method AdvisoryUnlock(fault: Fault)
      modifies this
      ensures Now() == if old(held) > 0 && Lands(fault) then old(Now()).(held := old(held) - 1) else old(Now())
    {
      if held > 0 && Lands(fault) {
        held := held - 1;
      }
    }

    method Execute(step: ReleaseStep, fault: Fault, before: Snapshot)
      modifies this
      ensures Now() == AfterStep(old(Now()), step, fault, before)
    {
      match step {
        case Unlock => AdvisoryUnlock(fault);
        case ClientMinMessages => SetMinMessages(before.clientMinMessages, fault);
        case Timeouts => SetTimeouts(before.lockTimeout, before.statementTimeout, fault);
      }
    }

    method ReleaseQuietly(steps: seq<ReleaseStep>, faults: ReleaseStep -> Fault, mode: Mode, before: Snapshot)
      returns (reports: seq<(ReleaseStep, string)>)
      modifies this
      ensures reports == Reports(steps, faults, mode)
      ensures Now() == AfterRelease(old(Now()), steps, faults, mode, before)
    {
      hide AfterStep, AfterRelease, Reports;
      reports := [];
      var rest := steps;
      while rest != []
        invariant reports + Reports(rest, faults, mode) == Reports(steps, faults, mode)
        invariant AfterRelease(Now(), rest, faults, mode, before)
                  == AfterRelease(old(Now()), steps, faults, mode, before)
        decreases |rest|
      {
        var step, fault := rest[0], faults(rest[0]);
        ReleaseUnfolds(Now(), rest, faults, mode, before);
        Execute(step, fault, before);
        if fault.Fails? {
          reports := reports + [(step, fault.code)];
          if mode == UntilFailure { return; }
        }
        rest := rest[1..];
      }
      ReleaseOfNothing(Now(), faults, mode, before);
    }

    /** Takes the lock under this run's wait; a failed attempt puts the session back before it fails. */
    method Acquire(waitMs: nat, main: MainFaults, faults: ReleaseStep -> Fault, before: Snapshot)
      returns (error: Option<Error>, reports: seq<(ReleaseStep, string)>, ghost asking: Option<Snapshot>)
      requires main.readSession.Fine? && before == Now()
      modifies this
      ensures error == AcquireError(waitMs, main)
      ensures main.lockWait.Fails? ==> Now() == old(Now()) && reports == [] && asking == None
      ensures main.lockWait.Fine? ==> asking == Some(AskingWith(before, waitMs))
      ensures main.lockWait.Fine? && main.lock.Fine? ==>
                Now() == AskingWith(before, waitMs).(held := before.held + 1) && reports == []
      ensures main.lockWait.Fine? && main.lock.Fails? ==>
        var asked := AskingWith(before, waitMs);
        var granted := if main.lock.landed then asked.(held := before.held + 1) else asked;
        && Now() == AfterRelease(granted, StepsAfter(main, before.held > 0), faults, UntilFailure, before)
        && reports == Reports(StepsAfter(main, before.held > 0), faults, UntilFailure)
    {
      hide AfterRelease, Reports;
      asking, reports := None, [];
      SetTimeouts(Decimal(waitMs) + "ms", "0", main.lockWait);
      if main.lockWait.Fails? {
        return Some(Db(main.lockWait.code)), [], None;
      }
      asking := Some(Now());
      AdvisoryLock(main.lock);
      if main.lock.Fails? {
        var cleanup := if before.held > 0 then [] else [Unlock];
        cleanup := cleanup + [Timeouts];
        assert cleanup == StepsAfter(main, before.held > 0);
        reports := ReleaseQuietly(cleanup, faults, UntilFailure, before);
        error := Some(if main.lock.code == LOCK_NOT_AVAILABLE then LockTimeout(waitMs, main.lock.code)
                      else Db(main.lock.code));
        return;
      }
      error := None;
    }

    /**
     * The run itself. `leaves` are the settings its body leaves behind; a body
     * neither takes nor gives up the migration lock. `asking` is the session as it
     * asks for the lock, `inside` the session as the body finds it.
     */
    method WithMigrationLock<T>(max: nat, waitMs: real, main: MainFaults, body: Result<T>, leaves: Snapshot,
                                faults: ReleaseStep -> Fault)
      returns (result: Result<T>, reports: seq<(ReleaseStep, string)>, ghost asking: Option<Snapshot>,
               ghost inside: Option<Snapshot>)
      modifies this
      ensures result == Outcome(max, waitMs, main, body)
      ensures asking.Some? <==> Asked(max, waitMs, main)
      ensures asking.Some? ==>
                asking.value == old(Now()).(lockTimeout := Decimal(waitMs.Floor) + "ms", statementTimeout := "0")
      ensures inside.Some? <==> BodyRuns(max, waitMs, main)
      ensures inside.Some? ==> inside.value == old(Now()).(held := old(held) + 1, clientMinMessages := "warning")
      ensures !Asked(max, waitMs, main) ==> Now() == old(Now()) && reports == []
      ensures Asked(max, waitMs, main) ==> reports == Reports(StepsAfter(main, old(held) > 0), faults, ModeOf(main))
      ensures Asked(max, waitMs, main) && main.lock.Fine? ==>
                forall step: ReleaseStep, code: string ::
                  (step, code) in reports <==> faults(step).Fails? && faults(step).code == code
      ensures Asked(max, waitMs, main) && main.lock.Fails? ==>
                && |reports| <= 1
                && (reports == [] <==> forall step <- StepsAfter(main, old(held) > 0) :: faults(step).Fine?)
      ensures Asked(max, waitMs, main) ==> Restored(Now(), old(Now()), main, faults)
      ensures reports == [] ==> SameSettings(Now(), old(Now())) && (held > 0 <==> old(held) > 0)
      ensures reports == [] ==>
                (Now() == old(Now()) <==> !(Asked(max, waitMs, main) && main.lock.Fails? && main.lock.landed
                                            && old(held) > 0))
    {
      hide AfterRelease, Reports, Ran, AskingWith, Restored;
      asking, inside, reports := None, None, [];
      if max != 1 {
        return Err(NeedsSingleConnection), [], None, None;
      }
      if !IsWait(waitMs) {
        return Err(BadWait), [], None, None;
      }
      if main.readSession.Fails? {
        return Err(Db(main.readSession.code)), [], None, None;
      }
      var before := Now();
      var error: Option<Error>;
      error, reports, asking := Acquire(waitMs.Floor, main, faults, before);
      AskingIs(before, waitMs.Floor);
      if error.Some? {
        if main.lockWait.Fine? {
          AfterAFailedAttempt(before, waitMs.Floor, main, faults);
        }
        return Err(error.value), reports, asking, None;
      }
      SetTimeouts(before.lockTimeout, before.statementTimeout, main.timeoutsAfterLock);
      if main.timeoutsAfterLock.Fails? {
        result := Err(Db(main.timeoutsAfterLock.code));
      } else {
        SetMinMessages("warning", main.quietNotices);
        if main.quietNotices.Fails? {
          result := Err(Db(main.quietNotices.code));
        } else {
          SettingsHeld(before, waitMs.Floor);
          inside := Some(Now());
          lockTimeout, statementTimeout := leaves.lockTimeout, leaves.statementTimeout;
          clientMinMessages := leaves.clientMinMessages;
          result := body;
        }
      }
      SettingsHeld(before, waitMs.Floor);
      AfterARun(before, Now(), main, faults);
      reports := ReleaseQuietly([Unlock, ClientMinMessages, Timeouts], faults, EveryStep, before);
    }
  }

  /** The session while it asks for the lock: this run's wait, and no other timeout. */
  function AskingWith(before: Snapshot, waitMs: nat): Snapshot {
    before.(lockTimeout := Decimal(waitMs) + "ms", statementTimeout := "0")
  }

  lemma AskingIs(before: Snapshot, waitMs: nat)
    ensures AskingWith(before, waitMs) == before.(lockTimeout := Decimal(waitMs) + "ms", statementTimeout := "0")
  {
  }

  lemma SettingsHeld(before: Snapshot, waitMs: nat)
    ensures AskingWith(before, waitMs).held == before.held
    ensures AskingWith(before, waitMs).clientMinMessages == before.clientMinMessages
  {
  }

  function AcquireError(waitMs: nat, main: MainFaults): Option<Error> {
    if main.lockWait.Fails? then Some(Db(main.lockWait.code))
    else if main.lock.Fails? then
      Some(if main.lock.code == LOCK_NOT_AVAILABLE then LockTimeout(waitMs, main.lock.code) else Db(main.lock.code))
    else None
  }

  function ModeOf(main: MainFaults): Mode {
    if main.lock.Fine? then EveryStep else UntilFailure
  }

  predicate SameSettings(now: Snapshot, before: Snapshot) {
    now.(held := 0) == before.(held := 0)
  }

  /**
   * What a run that asked for the lock leaves: each release step that ran and
   * succeeded has put its own part back, an attempt that failed never touched the
   * notices, and the lock is held again as often as before - with the one more
   * grant of an attempt that failed as it was granted, when the session held the
   * lock already and so keeps it.
   */
  predicate Restored(now: Snapshot, before: Snapshot, main: MainFaults, faults: ReleaseStep -> Fault) {
    var steps := StepsAfter(main, before.held > 0);
    var ran := Ran(steps, faults, ModeOf(main));
    && (Timeouts in ran && faults(Timeouts).Fine? ==>
          now.lockTimeout == before.lockTimeout && now.statementTimeout == before.statementTimeout)
    && (main.lock.Fails? || (ClientMinMessages in ran && faults(ClientMinMessages).Fine?) ==>
          now.clientMinMessages == before.clientMinMessages)
    && (Unlock in ran && faults(Unlock).Fine? ==> now.held == before.held)
    && (Unlock !in steps ==> now.held == before.held + if main.lock.landed then 1 else 0)
  }

  lemma AfterAFailedAttempt(before: Snapshot, waitMs: nat, main: MainFaults, faults: ReleaseStep -> Fault)
    requires main.lock.Fails?
    ensures var asked := AskingWith(before, waitMs);
            var granted := if main.lock.landed then asked.(held := before.held + 1) else asked;
            var steps := StepsAfter(main, before.held > 0);
            var after := AfterRelease(granted, steps, faults, UntilFailure, before);
            && Restored(after, before, main, faults)
            && (Reports(steps, faults, UntilFailure) == [] ==>
                  && SameSettings(after, before) && (after.held > 0 <==> before.held > 0)
                  && (!(main.lock.landed && before.held > 0) ==> after == before))
            && |Reports(steps, faults, UntilFailure)| <= 1
            && (Reports(steps, faults, UntilFailure) == [] <==> forall step <- steps :: faults(step).Fine?)
  {
    var asked := AskingWith(before, waitMs);
    var granted := if main.lock.landed then asked.(held := before.held + 1) else asked;
    var steps := StepsAfter(main, before.held > 0);
    ReleasePutsBack(granted, steps, faults, UntilFailure, before);
    var after := AfterRelease(granted, steps, faults, UntilFailure, before);
    assert Unlock !in steps ==> Untouched(Unlock, after, granted);
    assert Untouched(ClientMinMessages, after, granted);
    NoReportMeansAllFine(steps, faults, UntilFailure);
    AnAttemptReportsOnce(steps, faults);
  }

  lemma AfterARun(before: Snapshot, left: Snapshot, main: MainFaults, faults: ReleaseStep -> Fault)
    requires main.lock.Fine? && left.held == before.held + 1
    ensures var steps := [Unlock, ClientMinMessages, Timeouts];
            var after := AfterRelease(left, steps, faults, EveryStep, before);
            && Restored(after, before, main, faults)
            && (Reports(steps, faults, EveryStep) == [] ==> after == before)
            && forall step: ReleaseStep, code: string ::
                 (step, code) in Reports(steps, faults, EveryStep) <==> faults(step).Fails? && faults(step).code == code
  {
    var steps := [Unlock, ClientMinMessages, Timeouts];
    ReleasePutsBack(left, steps, faults, EveryStep, before);
    NoReportMeansAllFine(steps, faults, EveryStep);
    EveryStepReports(faults);
  }

  lemma EveryStepReports(faults: ReleaseStep -> Fault)
    ensures forall step: ReleaseStep, code: string ::
              (step, code) in Reports([Unlock, ClientMinMessages, Timeouts], faults, EveryStep)
              <==> faults(step).Fails? && faults(step).code == code
  {
    hide Reports, Ran;
    var steps := [Unlock, ClientMinMessages, Timeouts];
    ReportsAreTheFailures(steps, faults, EveryStep);
    RanIsAPrefix(steps, faults, EveryStep);
    assert steps[0] == Unlock && steps[1] == ClientMinMessages && steps[2] == Timeouts;
    forall step: ReleaseStep ensures step in steps {
      match step
      case Unlock => assert step == steps[0];
      case ClientMinMessages => assert step == steps[1];
      case Timeouts => assert step == steps[2];
    }
  }

  /** A failure with the step of the release it came from, or of the run, or of the close. */
  datatype Failure = OfRun(error: Error) | OfStep(step: ReleaseStep, code: string) | OfClose(code: string)

  /** What a run of several failures throws: one as it is, several together. */
  datatype Thrown = Nothing | Single(failure: Failure) | Together(failures: seq<Failure>)

  function Throws(failures: seq<Failure>): Thrown {
    if failures == [] then Nothing else if |failures| == 1 then Single(failures[0]) else Together(failures)
  }

  /** The failures a caller finds in what is thrown. */
  function Held(thrown: Thrown): seq<Failure> {
    match thrown
    case Nothing => []
    case Single(failure) => [failure]
    case Together(failures) => failures
  }

  /**
   * What is thrown holds the failure of the run first, if it failed, then each
   * report in order, then the failure of the close, if it failed, and nothing
   * else; two failures or more are thrown together, one is thrown as it is.
   */
  ghost predicate HoldsThemAll(thrown: Thrown, run: Option<Error>, reports: seq<(ReleaseStep, string)>, close: Fault) {
    var held := Held(thrown);
    var first, last := if run.Some? then 1 else 0, if close.Fails? then 1 else 0;
    && |held| == first + |reports| + last
    && (run.Some? ==> held[0] == OfRun(run.value))
    && (forall i | 0 <= i < |reports| :: held[first + i] == OfStep(reports[i].0, reports[i].1))
    && (close.Fails? ==> held[|held| - 1] == OfClose(close.code))
    && (thrown.Together? <==> |held| >= 2)
  }

  /** Runs the migrations on a connection of its own; no failure is dropped. */
  method RunMigrations(session: Session, main: MainFaults, body: Result<()>, leaves: Snapshot,
                       faults: ReleaseStep -> Fault, close: Fault)
    returns (thrown: Thrown)
    modifies session
    ensures var outcome := Outcome(1, MIGRATION_LOCK_WAIT_MS, main, body);
            var reports := ReportsOfRun(main, old(session.held) > 0, faults);
            HoldsThemAll(thrown, if outcome.Err? then Some(outcome.error) else None, reports, close)
    ensures thrown == Nothing <==>
              (BodyRuns(1, MIGRATION_LOCK_WAIT_MS, main) && body.Ok? && close.Fine?
               && forall step: ReleaseStep :: faults(step).Fine? || step !in StepsAfter(main, old(session.held) > 0))
  {
    hide Outcome, Restored, ReportsOfRun, HoldsThemAll, Throws, StepFailures, Asked, BodyRuns, StepsAfter, ModeOf;
    hide Reports, SameSettings, AskingWith, IsWait;
    var run, released, _, _ := session.WithMigrationLock(1, MIGRATION_LOCK_WAIT_MS, main, body, leaves, faults);
    ghost var held := old(session.held) > 0;
    ReportsOfRunAre(main, held, faults);
    RunMigrationsDropsNothing(main, body, held, faults, close);
    NoneIsDropped(if run.Err? then Some(run.error) else None, released, close);
    var failures: seq<Failure> := [];
    if run.Err? {
      failures := failures + [OfRun(run.error)];
    }
    failures := failures + StepFailures(released);
    if close.Fails? {
      failures := failures + [OfClose(close.code)];
    }
    assert failures == (if run.Err? then [OfRun(run.error)] else []) + StepFailures(released)
                       + (if close.Fails? then [OfClose(close.code)] else []);
    thrown := Throws(failures);
  }

  lemma NoneIsDropped(run: Option<Error>, reports: seq<(ReleaseStep, string)>, close: Fault)
    ensures var failures := (if run.Some? then [OfRun(run.value)] else []) + StepFailures(reports)
                            + (if close.Fails? then [OfClose(close.code)] else []);
            && HoldsThemAll(Throws(failures), run, reports, close)
            && (Throws(failures) == Nothing <==> run == None && reports == [] && close.Fine?)
  {
  }

  lemma ReportsOfRunAre(main: MainFaults, heldBefore: bool, faults: ReleaseStep -> Fault)
    ensures ReportsOfRun(main, heldBefore, faults)
            == if !Asked(1, MIGRATION_LOCK_WAIT_MS, main) then []
               else Reports(StepsAfter(main, heldBefore), faults, ModeOf(main))
  {
  }

  /** The reports of a run on a connection of its own: none if it never asked for the lock. */
  function ReportsOfRun(main: MainFaults, heldBefore: bool, faults: ReleaseStep -> Fault): seq<(ReleaseStep, string)> {
    if Asked(1, MIGRATION_LOCK_WAIT_MS, main) then Reports(StepsAfter(main, heldBefore), faults, ModeOf(main)) else []
  }

  function StepFailures(reports: seq<(ReleaseStep, string)>): seq<Failure> {
    seq(|reports|, i requires 0 <= i < |reports| => OfStep(reports[i].0, reports[i].1))
  }

  /**
   * No failure to throw exactly when nothing failed: neither the run, nor a step of
   * putting the session back, nor the close.
   */
  lemma RunMigrationsDropsNothing(main: MainFaults, body: Result<()>, heldBefore: bool, faults: ReleaseStep -> Fault,
                                  close: Fault)
    ensures (Outcome(1, MIGRATION_LOCK_WAIT_MS, main, body).Ok? && ReportsOfRun(main, heldBefore, faults) == []
             && close.Fine?)
            <==> (BodyRuns(1, MIGRATION_LOCK_WAIT_MS, main) && body.Ok? && close.Fine?
                  && forall step: ReleaseStep :: faults(step).Fine? || step !in StepsAfter(main, heldBefore))
  {
    NoReportMeansAllFine(StepsAfter(main, heldBefore), faults, ModeOf(main));
  }
}
