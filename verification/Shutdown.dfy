/**
 * The stop of a process as a machine of events.
 *
 * A plan is a row of steps, a step is a row of sequences that run side by side,
 * and a sequence is a number of stages closed one after the other. What happened
 * so far is a log of acts, and the promises of the stop say of every act what
 * the log before it must hold (`Justified`).
 */
module Shutdown {
  import opened Wrappers

  const SIGINT_REPEAT_WINDOW_MS := 1000

  /** `plan[i][j]` is the number of stages of sequence `j` of step `i`. */
  type Plan = seq<seq<nat>>

  datatype Position = Position(step: nat, sequence: nat, index: nat)

  datatype Act =
    | Called(signal: string, failing: bool, at: nat)
    | WindowOpened(at: nat)
    | CloseStarted(position: Position)
    | CloseSettled(position: Position, clean: bool)
    | Decided(planEnded: bool, at: nat)
    | Verdict(code: nat, forced: bool, at: nat)
    | Exited(code: nat)

  /** The race of the plan with its deadline, and whether its verdict was read. */
  datatype Race = NotBegun | Racing(due: nat) | PlanEnded | TimedOut | Read

  datatype State = State(
    plan: Plan, timeoutMs: nat, forcing: bool,
    now: nat, started: bool, exited: bool, failed: bool, startedBySignal: bool,
    repeatArmed: bool, window: Option<nat>, hinted: bool,
    timers: map<nat, nat>, nextTimer: nat,
    race: Race, step: nat, at: seq<nat>, flushing: Option<nat>,
    log: seq<Act>)

  /** `forcing` stands for a `repeatedSigint` other than `"log"`. */
  function Initial(plan: Plan, timeoutMs: nat, forcing: bool): State {
    State(plan, timeoutMs, forcing, 0, false, false, false, false, false, None, false, map[], 0, NotBegun, 0, [], None,
          [])
  }

  datatype Event =
    | Call(signal: string, failing: bool)
    | StageSettles(sequence: nat, clean: bool)
    | TimerFires(timer: nat)
    | DeadlineFires
    | Resumes
    | FlushEnds
    | Passes(ms: nat)

  predicate IsSignal(signal: string) {
    signal == "SIGINT" || signal == "SIGTERM"
  }

  /** A stage of sequence `j` of the current step is closing. */
  predicate IsClosing(s: State, j: nat) {
    s.started && s.step < |s.plan| && j < |s.at| && j < |s.plan[s.step]| && s.at[j] < s.plan[s.step][j]
  }

  /** What can happen now. The deadline is a live timer: time does not pass it by. */
  predicate Enabled(s: State, e: Event) {
    match e
    case Call(_, _) => true
    case StageSettles(j, _) => IsClosing(s, j)
    case TimerFires(id) => id in s.timers && s.timers[id] <= s.now
    case DeadlineFires => s.race.Racing? && s.race.due <= s.now
    case Resumes => s.race.PlanEnded? || s.race.TimedOut?
    case FlushEnds => s.flushing.Some?
    case Passes(ms) => s.race.Racing? ==> s.now + ms <= s.race.due
  }

  /** A later state of the same stop: its options are the same, its log goes on. */
  predicate SameStop(s: State, s': State) {
    s'.plan == s.plan && s'.timeoutMs == s.timeoutMs && s'.forcing == s.forcing && s.log <= s'.log
  }

  function Emit(s: State, act: Act): (s': State)
    ensures SameStop(s, s')
  {
    s.(log := s.log + [act])
  }

  /** Opens the window anew; the timer of a window still open is cleared. */
  function ArmRepeatWindow(s: State): (s': State)
    ensures SameStop(s, s') && s'.now == s.now
  {
    var cleared := if s.window.Some? then s.timers - {s.window.value} else s.timers;
    Emit(s.(repeatArmed := false,
            timers := cleared[s.nextTimer := s.now + SIGINT_REPEAT_WINDOW_MS],
            window := Some(s.nextTimer), nextTimer := s.nextTimer + 1),
         WindowOpened(s.now))
  }

  function ExitOnce(s: State, code: nat, forced: bool): (s': State)
    ensures SameStop(s, s')
  {
    if s.exited then s else Emit(s.(exited := true, flushing := Some(code)), Verdict(code, forced, s.now))
  }

  /** The log once the first stage of each sequence from `j` on has started. */
  function StartRow(log: seq<Act>, i: nat, row: seq<nat>, j: nat): (log': seq<Act>)
    ensures log <= log'
    decreases |row| - j
  {
    if j >= |row| then log
    else StartRow(if row[j] > 0 then log + [CloseStarted(Position(i, j, 0))] else log, i, row, j + 1)
  }

  predicate RowDone(row: seq<nat>, at: seq<nat>) {
    |at| == |row| && forall j | 0 <= j < |row| :: at[j] >= row[j]
  }

  /** Goes on to step `i`, or to the first step after it that has a stage. */
  function BeginStep(s: State, i: nat): (s': State)
    ensures SameStop(s, s')
    decreases |s.plan| - i
  {
    if i >= |s.plan| then
      var ended := s.(step := i, at := []);
      if s.race.Racing? then Emit(ended.(race := PlanEnded), Decided(true, s.now)) else ended
    else
      var row := s.plan[i];
      var zeros := seq(|row|, _ => 0);
      if RowDone(row, zeros) then BeginStep(s, i + 1)
      else s.(step := i, at := zeros, log := StartRow(s.log, i, row, 0))
  }

  /** The stop begins: its window and its deadline are armed. */
  function Started(s: State, signal: string): (s': State)
    ensures SameStop(s, s')
  {
    var begun := s.(started := true, startedBySignal := IsSignal(signal));
    (if s.forcing then ArmRepeatWindow(begun) else begun).(race := Racing(s.now + s.timeoutMs))
  }

  function NextOfCall(s: State, signal: string, failing: bool): (s': State)
    ensures SameStop(s, s')
  {
    var heard := Emit(s.(failed := s.failed || failing), Called(signal, failing, s.now));
    if s.started then
      if s.forcing && signal == "SIGINT" then
        if !s.startedBySignal && !s.hinted then ArmRepeatWindow(heard.(hinted := true))
        else if !s.repeatArmed then heard
        else ExitOnce(heard, if heard.failed then 1 else 130, true)
      else heard
    else
      BeginStep(Started(heard, signal), 0)
  }

  function NextOfSettled(s: State, j: nat, clean: bool): (s': State)
    requires IsClosing(s, j)
    ensures SameStop(s, s')
  {
    var k := s.at[j];
    var closed := Emit(s.(failed := s.failed || !clean, at := s.at[j := k + 1]),
                       CloseSettled(Position(s.step, j, k), clean));
    if k + 1 < s.plan[s.step][j] then Emit(closed, CloseStarted(Position(s.step, j, k + 1)))
    else if RowDone(s.plan[s.step], closed.at) then BeginStep(closed, s.step + 1)
    else closed
  }

  function Next(s: State, e: Event): State {
    if !Enabled(s, e) then s else
    match e
    case Call(signal, failing) => NextOfCall(s, signal, failing)
    case StageSettles(j, clean) => NextOfSettled(s, j, clean)
    case TimerFires(id) => s.(timers := s.timers - {id}, repeatArmed := true)
    case DeadlineFires => Emit(s.(race := TimedOut), Decided(false, s.now))
    case Resumes =>
      ExitOnce(s.(race := Read), if s.race.TimedOut? || s.failed then 1 else 0, false)
    case FlushEnds => Emit(s.(flushing := None), Exited(s.flushing.value))
    case Passes(ms) => s.(now := s.now + ms)
  }

  function Run(s: State, events: seq<Event>): State
    decreases |events|
  {
    if events == [] then s else Run(Next(s, events[0]), events[1..])
  }

  // ------------------------------------------------------------------
  // What every act of a stop rests on.

  predicate InPlan(plan: Plan, p: Position) {
    p.step < |plan| && p.sequence < |plan[p.step]| && p.index < plan[p.step][p.sequence]
  }

  /** `p` has to be over before `q` may start. */
  predicate Precedes(p: Position, q: Position) {
    p.step < q.step || (p.step == q.step && p.sequence == q.sequence && p.index < q.index)
  }

  predicate Fails(act: Act) {
    (act.Called? && act.failing) || (act.CloseSettled? && !act.clean)
  }

  /** What a log may tell of. */
  datatype Matter =
    | AStart(position: Position)
    | ASettling(position: Position)
    | ADecision
    | APlanEnd
    | AVerdict
    | AVerdictOf(code: nat)
    | AnExit
    | AFailure
    | AnOpening
    | ASigint

  predicate IsOf(act: Act, matter: Matter) {
    match matter
    case AStart(p) => act == CloseStarted(p)
    case ASettling(p) => act.CloseSettled? && act.position == p
    case ADecision => act.Decided?
    case APlanEnd => act.Decided? && act.planEnded
    case AVerdict => act.Verdict?
    case AVerdictOf(code) => act.Verdict? && act.code == code
    case AnExit => act.Exited?
    case AFailure => Fails(act)
    case AnOpening => act.WindowOpened?
    case ASigint => act.Called? && act.signal == "SIGINT"
  }

  /** Some act of the log is of the matter. */
  predicate Tells(log: seq<Act>, matter: Matter) {
    exists act <- log :: IsOf(act, matter)
  }

  predicate HasSettled(log: seq<Act>, p: Position) {
    Tells(log, ASettling(p))
  }

  predicate HasStarted(log: seq<Act>, p: Position) {
    Tells(log, AStart(p))
  }

  predicate HasDecided(log: seq<Act>) {
    Tells(log, ADecision)
  }

  predicate PlanEndedIn(log: seq<Act>) {
    Tells(log, APlanEnd)
  }

  predicate HasVerdict(log: seq<Act>) {
    Tells(log, AVerdict)
  }

  predicate HasVerdictOf(log: seq<Act>, code: nat) {
    Tells(log, AVerdictOf(code))
  }

  predicate HasExited(log: seq<Act>) {
    Tells(log, AnExit)
  }

  predicate Failing(log: seq<Act>) {
    Tells(log, AFailure)
  }

  predicate HasOpened(log: seq<Act>) {
    Tells(log, AnOpening)
  }

  function LastOpened(log: seq<Act>): nat {
    if log == [] then 0
    else if log[|log| - 1].WindowOpened? then log[|log| - 1].at
    else LastOpened(log[..|log| - 1])
  }

  predicate SigintAt(log: seq<Act>, i: nat) {
    i < |log| && log[i].Called? && log[i].signal == "SIGINT"
  }

  ghost predicate TwoSigints(log: seq<Act>) {
    exists a, b :: a < b && SigintAt(log, a) && SigintAt(log, b)
  }

  ghost predicate AllClosed(plan: Plan, log: seq<Act>) {
    forall p: Position :: InPlan(plan, p) ==> HasSettled(log, p)
  }

  /** What the log before `act` must hold for `act` to be in order. */
  ghost predicate Justified(plan: Plan, timeoutMs: nat, forcing: bool, before: seq<Act>, act: Act) {
    match act
    case Called(_, _, _) => true
    case WindowOpened(_) => forcing
    case CloseStarted(p) =>
      && InPlan(plan, p) && !HasStarted(before, p)
      && forall q: Position :: InPlan(plan, q) && Precedes(q, p) ==> HasSettled(before, q)
    case CloseSettled(p, _) => HasStarted(before, p) && !HasSettled(before, p)
    case Decided(planEnded, at) =>
      && before != [] && before[0].Called?
      && !HasDecided(before)
      && if planEnded then AllClosed(plan, before) && at <= before[0].at + timeoutMs
         else at == before[0].at + timeoutMs
    case Verdict(code, forced, at) =>
      && before != [] && before[0].Called?
      && !HasVerdict(before)
      && if forced then
           && forcing && SigintAt(before, |before| - 1)
           && HasOpened(before) && at >= LastOpened(before) + SIGINT_REPEAT_WINDOW_MS
           && (!IsSignal(before[0].signal) ==> TwoSigints(before))
           && code == if Failing(before) then 1 else 130
         else
           && HasDecided(before)
           && code == if PlanEndedIn(before) && !Failing(before) then 0 else 1
    case Exited(code) =>
      !HasExited(before) && HasVerdictOf(before, code)
  }

  ghost predicate InOrder(plan: Plan, timeoutMs: nat, forcing: bool, log: seq<Act>) {
    forall t | 0 <= t < |log| :: Justified(plan, timeoutMs, forcing, log[..t], log[t])
  }
}
