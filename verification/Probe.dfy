/**
 * The bounded handle of a probe as a machine of events: calls with a limit each,
 * the client they run on, the clients a limit ended, and the close.
 *
 * Clients are numbered as they are opened and calls as they are made. A live
 * limit is a timer: time does not pass it by.
 */
module Probe {
  import opened Wrappers

  type Client = nat

  datatype Outcome = Answered(ok: bool) | LimitRefused | ClosedRefused

  /** A call of `run`: its client, when it was made, and whether its limit is live. */
  datatype Call = Call(client: Client, started: nat, armed: bool, settled: bool)

  datatype State = State(
    limitMs: nat, now: nat,
    current: Client, opening: nat, closed: bool,
    waiting: map<Client, seq<nat>>, calls: seq<Call>,
    destroying: set<Client>, ends: seq<Client>, told: nat,
    awaited: set<Client>, currentEnd: Option<bool>, answer: Option<bool>,
    settlements: seq<(nat, Outcome)>)

  datatype Event =
    | RunCalled
    | WorkSettles(call: nat, ok: bool)
    | TimerFires(call: nat)
    | EndSettles(client: Client)
    | CloseCalled
    | CurrentEndSettles(ok: bool)
    | CloseSettles
    | Passes(ms: nat)

  /** A handle just opened: its first client, number 0, is the current one. */
  function Initial(limitMs: nat): State {
    State(limitMs, 0, 0, 1, false, map[], [], {}, [], 0, {}, None, None, [])
  }

  predicate Enabled(s: State, e: Event) {
    match e
    case RunCalled => true
    case WorkSettles(c, _) => c < |s.calls|
    case TimerFires(c) => c < |s.calls| && s.calls[c].armed && s.calls[c].started + s.limitMs <= s.now
    case EndSettles(client) => client in s.destroying
    case CloseCalled => true
    case CurrentEndSettles(_) => s.closed && s.currentEnd.None?
    case CloseSettles => s.currentEnd.Some? && s.awaited * s.destroying == {} && s.answer.None?
    case Passes(ms) => forall c | 0 <= c < |s.calls| && s.calls[c].armed :: s.now + ms <= s.calls[c].started + s.limitMs
  }

  function Without(calls: seq<nat>, c: nat): (rest: seq<nat>)
    ensures forall k :: k in rest <==> k in calls && k != c
  {
    if calls == [] then [] else (if calls[0] == c then [] else [calls[0]]) + Without(calls[1..], c)
  }

  function WaitingOn(waiting: map<Client, seq<nat>>, client: Client): seq<nat> {
    if client in waiting then waiting[client] else []
  }

  /** The calls waiting on the clients below `bound`, in the order the clients were opened. */
  function PendingBelow(waiting: map<Client, seq<nat>>, bound: nat): (pending: seq<nat>)
    ensures forall c :: c in pending <==> exists client | 0 <= client < bound :: c in WaitingOn(waiting, client)
  {
    if bound == 0 then [] else PendingBelow(waiting, bound - 1) + WaitingOn(waiting, bound - 1)
  }

  /** A call settles once: its limit is cleared, and it no longer waits. */
  function Settle(s: State, c: nat, outcome: Outcome): State {
    if c >= |s.calls| || s.calls[c].settled then s
    else
      var client := s.calls[c].client;
      s.(calls := s.calls[c := s.calls[c].(settled := true, armed := false)],
         waiting := if client in s.waiting then s.waiting[client := Without(s.waiting[client], c)] else s.waiting,
         settlements := s.settlements + [(c, outcome)])
  }

  function RefuseAll(s: State, calls: seq<nat>, outcome: Outcome): State
    decreases |calls|
  {
    if calls == [] then s else RefuseAll(Settle(s, calls[0], outcome), calls[1..], outcome)
  }

  function Disarm(s: State, c: nat): State {
    if c >= |s.calls| then s else s.(calls := s.calls[c := s.calls[c].(armed := false)])
  }

  function DisarmAll(s: State, calls: seq<nat>): State
    decreases |calls|
  {
    if calls == [] then s else DisarmAll(Disarm(s, calls[0]), calls[1..])
  }

  /** The end of a client a limit gave up on; only the current one is replaced. */
  function Destroy(s: State, client: Client): State {
    var refused := RefuseAll(s, WaitingOn(s.waiting, client), LimitRefused);
    var cleared := refused.(waiting := refused.waiting - {client});
    if client != cleared.current then cleared
    else
      cleared.(current := cleared.opening, opening := cleared.opening + 1,
               destroying := cleared.destroying + {client}, ends := cleared.ends + [client], told := cleared.told + 1)
  }

  function Called(s: State): State {
    var c := |s.calls|;
    if s.closed then
      s.(calls := s.calls + [Call(s.current, s.now, false, true)], settlements := s.settlements + [(c, ClosedRefused)])
    else
      s.(calls := s.calls + [Call(s.current, s.now, true, false)],
         waiting := s.waiting[s.current := WaitingOn(s.waiting, s.current) + [c]])
  }

  function Closing(s: State): State {
    if s.closed then s
    else
      var disarmed := DisarmAll(s.(closed := true), PendingBelow(s.waiting, s.opening));
      disarmed.(ends := disarmed.ends + [disarmed.current], awaited := disarmed.destroying)
  }

  function Next(s: State, e: Event): State {
    if !Enabled(s, e) then s else
    match e
    case RunCalled => Called(s)
    case WorkSettles(c, ok) => Settle(s, c, Answered(ok))
    case TimerFires(c) => if s.calls[c].settled then s else Destroy(s, s.calls[c].client)
    case EndSettles(client) => s.(destroying := s.destroying - {client})
    case CloseCalled => Closing(s)
    case CurrentEndSettles(ok) => s.(currentEnd := Some(ok))
    case CloseSettles => RefuseAll(s, PendingBelow(s.waiting, s.opening), ClosedRefused).(answer := s.currentEnd)
    case Passes(ms) => s.(now := s.now + ms)
  }

  function Run(s: State, events: seq<Event>): State
    decreases |events|
  {
    if events == [] then s else Run(Next(s, events[0]), events[1..])
  }

  // ------------------------------------------------------------------
  // What every event keeps.

  function UpTo(n: nat): (s: seq<nat>)
    ensures |s| == n && forall i | 0 <= i < n :: s[i] == i
  {
    seq(n, i => i)
  }

  /** Every client but the current one was ended, once and in the order of opening; the close ends the current one. */
  predicate ClientsAgree(s: State) {
    && s.opening == s.current + 1
    && s.ends == UpTo(if s.closed then s.opening else s.current)
    && (forall client <- s.destroying :: client < s.current)
    && s.told == s.current
  }

  /** The calls that wait are the calls not settled yet, and they wait on the current client. */
  predicate WaitingAgrees(s: State) {
    && (forall client <- s.waiting :: client == s.current)
    && (forall c <- WaitingOn(s.waiting, s.current) :: c < |s.calls| && !s.calls[c].settled)
    && (forall c | 0 <= c < |s.calls| && !s.calls[c].settled ::
          s.calls[c].client == s.current && c in WaitingOn(s.waiting, s.current))
  }

  /** An open handle has a live limit, not passed by, on each unsettled call; a closed one has none. */
  predicate LimitsAgree(s: State) {
    forall c | 0 <= c < |s.calls| ::
      && (s.calls[c].armed <==> !s.calls[c].settled && !s.closed)
      && (s.calls[c].armed ==> s.calls[c].started <= s.now <= s.calls[c].started + s.limitMs)
  }

  predicate SettledIn(settlements: seq<(nat, Outcome)>, c: nat) {
    exists k | 0 <= k < |settlements| :: settlements[k].0 == c
  }

  predicate SettlementsAgree(s: State) {
    && (forall a, b | 0 <= a < b < |s.settlements| :: s.settlements[a].0 != s.settlements[b].0)
    && (forall k | 0 <= k < |s.settlements| :: s.settlements[k].0 < |s.calls| && s.calls[s.settlements[k].0].settled)
    && (forall c | 0 <= c < |s.calls| && s.calls[c].settled :: SettledIn(s.settlements, c))
  }

  predicate CloseAgrees(s: State) {
    && (!s.closed ==> s.currentEnd.None?)
    && (s.closed ==> s.destroying <= s.awaited)
    && (s.answer.Some? ==> s.closed && s.answer == s.currentEnd && s.destroying == {} && AllSettled(s))
  }

  predicate AllSettled(s: State) {
    forall c | 0 <= c < |s.calls| :: s.calls[c].settled
  }

  predicate Sound(s: State) {
    ClientsAgree(s) && WaitingAgrees(s) && LimitsAgree(s) && SettlementsAgree(s) && CloseAgrees(s)
  }

  lemma SettleKeeps(s: State, c: nat, outcome: Outcome)
    requires Sound(s)
    ensures var s' := Settle(s, c, outcome);
            Sound(s') && SameHandle(s, s') && |s'.calls| == |s.calls|
            && (c < |s.calls| ==> s'.calls[c].settled)
            && (forall k | 0 <= k < |s.calls| :: s.calls[k].settled ==> s'.calls[k].settled)
  {
    hide SettledIn, UpTo, Without;
    if c < |s.calls| && !s.calls[c].settled {
      var s' := Settle(s, c, outcome);
      SettledGrows(s.settlements, (c, outcome));
    }
  }

  lemma SettledGrows(settlements: seq<(nat, Outcome)>, last: (nat, Outcome))
    ensures forall c | SettledIn(settlements, c) || c == last.0 :: SettledIn(settlements + [last], c)
  {
    forall c | SettledIn(settlements, c) || c == last.0 ensures SettledIn(settlements + [last], c) {
      if c == last.0 {
        assert (settlements + [last])[|settlements|].0 == c;
      } else {
        var k :| 0 <= k < |settlements| && settlements[k].0 == c;
        assert (settlements + [last])[k].0 == c;
      }
    }
  }

  /** Settling calls leaves everything but the calls as it was. */
  predicate SameHandle(s: State, s': State) {
    && s'.limitMs == s.limitMs && s'.now == s.now && s'.current == s.current && s'.opening == s.opening
    && s'.closed == s.closed && s'.destroying == s.destroying && s'.ends == s.ends && s'.told == s.told
    && s'.awaited == s.awaited && s'.currentEnd == s.currentEnd && s'.answer == s.answer
    && s.settlements <= s'.settlements
  }

  lemma {:induction false} RefuseAllKeeps(s: State, calls: seq<nat>, outcome: Outcome)
    requires Sound(s)
    ensures var s' := RefuseAll(s, calls, outcome);
            Sound(s') && SameHandle(s, s') && |s'.calls| == |s.calls|
            && (forall c <- calls :: c < |s.calls| ==> s'.calls[c].settled)
            && (forall k | 0 <= k < |s.calls| :: s.calls[k].settled ==> s'.calls[k].settled)
    decreases |calls|
  {
    hide Sound, Settle;
    if calls != [] {
      SettleKeeps(s, calls[0], outcome);
      RefuseAllKeeps(Settle(s, calls[0], outcome), calls[1..], outcome);
    }
  }

  /** Refusing the calls that wait leaves none unsettled. */
  lemma RefusingSettlesAll(s: State, calls: seq<nat>, outcome: Outcome)
    requires Sound(s) && forall c <- WaitingOn(s.waiting, s.current) :: c in calls
    ensures var s' := RefuseAll(s, calls, outcome);
            Sound(s') && SameHandle(s, s') && |s'.calls| == |s.calls| && AllSettled(s')
  {
    hide RefuseAll, ClientsAgree, LimitsAgree, SettlementsAgree, CloseAgrees;
    RefuseAllKeeps(s, calls, outcome);
  }

  lemma PendingIsWaiting(s: State)
    requires Sound(s)
    ensures forall c :: c in PendingBelow(s.waiting, s.opening) <==> c in WaitingOn(s.waiting, s.current)
  {
    forall c | c in PendingBelow(s.waiting, s.opening) ensures c in WaitingOn(s.waiting, s.current) {
      var client :| 0 <= client < s.opening && c in WaitingOn(s.waiting, client);
    }
  }

  /**
   * A limit leaves no call unsettled, ends the client the call was on, which is the
   * current one, and opens one in its place.
   */
  lemma DestroyKeeps(s: State, c: nat)
    requires Sound(s) && c < |s.calls| && s.calls[c].armed
    ensures var s' := Destroy(s, s.calls[c].client);
            && s.calls[c].client == s.current
            && Sound(s') && AllSettled(s') && |s'.calls| == |s.calls|
            && s'.current == s.opening && s'.ends == s.ends + [s.current]
  {
    hide RefuseAll;
    RefusingSettlesAll(s, WaitingOn(s.waiting, s.current), LimitRefused);
  }

  lemma {:induction false} DisarmAllKeeps(s: State, calls: seq<nat>)
    ensures var s' := DisarmAll(s, calls);
            && s' == s.(calls := s'.calls) && |s'.calls| == |s.calls|
            && forall c | 0 <= c < |s.calls| :: s'.calls[c] == s.calls[c].(armed := s.calls[c].armed && c !in calls)
    decreases |calls|
  {
    if calls != [] {
      DisarmAllKeeps(Disarm(s, calls[0]), calls[1..]);
    }
  }

  lemma ClosingKeeps(s: State)
    requires Sound(s)
    ensures Sound(Closing(s))
  {
    hide DisarmAll, PendingBelow;
    if !s.closed {
      var pending := PendingBelow(s.waiting, s.opening);
      PendingIsWaiting(s);
      DisarmAllKeeps(s.(closed := true), pending);
    }
  }

  lemma CalledKeeps(s: State)
    requires Sound(s)
    ensures Sound(Called(s))
  {
    SettledGrows(s.settlements, (|s.calls|, ClosedRefused));
  }

  lemma CloseSettlesKeeps(s: State)
    requires Sound(s) && Enabled(s, CloseSettles)
    ensures Sound(Next(s, CloseSettles))
  {
    hide RefuseAll, PendingBelow;
    PendingIsWaiting(s);
    RefusingSettlesAll(s, PendingBelow(s.waiting, s.opening), ClosedRefused);
  }

  lemma NextIsSound(s: State, e: Event)
    requires Sound(s)
    ensures Sound(Next(s, e))
  {
    hide RefuseAll, Settle, Destroy, Closing, Called, SettledIn;
    match e
    case RunCalled => CalledKeeps(s);
    case WorkSettles(c, ok) => SettleKeeps(s, c, Answered(ok));
    case TimerFires(c) =>
      if Enabled(s, e) {
        DestroyKeeps(s, c);
      }
    case CloseCalled => ClosingKeeps(s);
    case CloseSettles =>
      if Enabled(s, e) {
        CloseSettlesKeeps(s);
      }
    case EndSettles(_) =>
    case CurrentEndSettles(_) =>
    case Passes(_) =>
  }

  lemma {:induction false} RunIsSound(s: State, events: seq<Event>)
    requires Sound(s)
    ensures Sound(Run(s, events))
    decreases |events|
  {
    hide Sound, Next;
    if events != [] {
      NextIsSound(s, events[0]);
      RunIsSound(Next(s, events[0]), events[1..]);
    }
  }

  lemma InitialIsSound(limitMs: nat)
    ensures Sound(Initial(limitMs))
  {
  }

  // ------------------------------------------------------------------
  // The promises of a handle, for every run of it.

  /**
   * While the handle is open, each unsettled call is on the current client, its
   * limit is live, and the limit is not past. The limit, once due, settles every
   * call there is: no time passes before it does.
   */
  lemma OpenCallsSettleByTheirLimit(limitMs: nat, events: seq<Event>, c: nat)
    requires var s := Run(Initial(limitMs), events); !s.closed && c < |s.calls| && !s.calls[c].settled
    ensures var s := Run(Initial(limitMs), events);
            && s.calls[c].client == s.current && s.now <= s.calls[c].started + limitMs
            && (forall ms: nat :: Enabled(s, Passes(ms)) ==> s.now + ms <= s.calls[c].started + limitMs)
            && (s.now == s.calls[c].started + limitMs ==>
                  Enabled(s, TimerFires(c)) && AllSettled(Next(s, TimerFires(c))))
  {
    hide Destroy;
    InitialIsSound(limitMs);
    RunIsSound(Initial(limitMs), events);
    SameLimit(Initial(limitMs), events);
    var s := Run(Initial(limitMs), events);
    DestroyKeeps(s, c);
  }

  /** The answers given to a call: one if it has settled, and none before. */
  lemma EachCallSettlesOnce(limitMs: nat, events: seq<Event>, c: nat)
    requires c < |Run(Initial(limitMs), events).calls|
    ensures var s := Run(Initial(limitMs), events);
            && (s.calls[c].settled <==> SettledIn(s.settlements, c))
            && (forall a, b | 0 <= a < |s.settlements| && 0 <= b < |s.settlements| ::
                  s.settlements[a].0 == c && s.settlements[b].0 == c ==> a == b)
  {
    InitialIsSound(limitMs);
    RunIsSound(Initial(limitMs), events);
  }

  /**
   * Every client ever opened is the current one or was ended exactly once, in the
   * order of opening; each one a limit ended was replaced by exactly one.
   */
  lemma ClientsAreConserved(limitMs: nat, events: seq<Event>)
    ensures var s := Run(Initial(limitMs), events);
            && s.opening == s.current + 1
            && (!s.closed ==> s.ends == UpTo(s.current))
            && (s.closed ==> s.ends == UpTo(s.opening))
            && s.told == s.current
  {
    InitialIsSound(limitMs);
    RunIsSound(Initial(limitMs), events);
  }

  /** A limit that fires finds its call on the current client: the guard of a client already replaced is never taken. */
  lemma ALimitIsOnTheCurrentClient(limitMs: nat, events: seq<Event>, c: nat)
    requires Enabled(Run(Initial(limitMs), events), TimerFires(c))
    ensures var s := Run(Initial(limitMs), events);
            !s.calls[c].settled && s.calls[c].client == s.current && Next(s, TimerFires(c)).ends == s.ends + [s.current]
  {
    hide Destroy;
    InitialIsSound(limitMs);
    RunIsSound(Initial(limitMs), events);
    DestroyKeeps(Run(Initial(limitMs), events), c);
  }

  /** After the close no limit fires, and nothing ends or opens a client. */
  lemma {:induction false} NothingEndsAfterTheClose(s: State, events: seq<Event>)
    requires Sound(s) && s.closed
    ensures var end := Run(s, events);
            end.closed && end.ends == s.ends && end.opening == s.opening && end.told == s.told
    ensures forall c :: !Enabled(s, TimerFires(c))
    decreases |events|
  {
    hide Destroy, WaitingAgrees, SettlementsAgree, CloseAgrees, ClientsAgree;
    if events != [] {
      NextIsSound(s, events[0]);
      if events[0].CloseSettles? {
        RefuseAllKeeps(s, PendingBelow(s.waiting, s.opening), ClosedRefused);
      } else if events[0].WorkSettles? {
        SettleKeeps(s, events[0].call, Answered(events[0].ok));
      }
      NothingEndsAfterTheClose(Next(s, events[0]), events[1..]);
    }
  }

  /** The same of every run: however it goes on after the close, each client is ended once in all. */
  lemma NoLimitEndsAClosedHandle(limitMs: nat, events: seq<Event>, more: seq<Event>)
    requires Run(Initial(limitMs), events).closed
    ensures var s := Run(Initial(limitMs), events);
            var end := Run(s, more);
            && (forall c :: !Enabled(end, TimerFires(c)))
            && end.ends == s.ends == UpTo(s.opening) && end.opening == s.opening && end.told == s.told
  {
    hide Sound;
    InitialIsSound(limitMs);
    RunIsSound(Initial(limitMs), events);
    var s := Run(Initial(limitMs), events);
    RunIsSound(s, more);
    NothingEndsAfterTheClose(s, more);
    NothingEndsAfterTheClose(Run(s, more), []);
    ClientsAreConserved(limitMs, events);
  }

  /**
   * Once the close has settled - with the failure of ending the current client,
   * if that failed - no call is unsettled, every client opened was ended once, and
   * the end of each one a limit gave up on is done.
   */
  lemma ASettledCloseLeavesNothing(limitMs: nat, events: seq<Event>)
    requires Run(Initial(limitMs), events).answer.Some?
    ensures var s := Run(Initial(limitMs), events);
            && s.closed && s.answer == s.currentEnd && AllSettled(s) && s.destroying == {}
            && s.ends == UpTo(s.opening)
  {
    InitialIsSound(limitMs);
    RunIsSound(Initial(limitMs), events);
  }

  lemma {:induction false} SameLimit(s: State, events: seq<Event>)
    requires Sound(s)
    ensures Run(s, events).limitMs == s.limitMs
    decreases |events|
  {
    hide Sound, RefuseAll, DisarmAll, Settle, PendingBelow;
    if events != [] {
      NextIsSound(s, events[0]);
      StepKeepsTheLimit(s, events[0]);
      SameLimit(Next(s, events[0]), events[1..]);
    }
  }

  lemma StepKeepsTheLimit(s: State, e: Event)
    requires Sound(s)
    ensures Next(s, e).limitMs == s.limitMs
  {
    hide Sound, RefuseAll, DisarmAll, PendingBelow;
    match e
    case TimerFires(c) =>
      if Enabled(s, e) {
        RefuseAllKeeps(s, WaitingOn(s.waiting, s.calls[c].client), LimitRefused);
      }
    case CloseCalled => DisarmAllKeeps(s.(closed := true), PendingBelow(s.waiting, s.opening));
    case CloseSettles => RefuseAllKeeps(s, PendingBelow(s.waiting, s.opening), ClosedRefused);
    case _ =>
  }
}
