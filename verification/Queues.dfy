/**
 * The factory every process opens its queues through, as a machine of events:
 * a cache that fills on demand, the verdict on each queue's init, the queues
 * forgotten over it, and the one close. A log of acts says what happened when,
 * and `Justified` what each act must rest on.
 */
module Queues {
  import opened Wrappers

  type Name = string

  /** What a queue's init was refused with, and what the factory tells of it. */
  datatype Refusal = Refusal(error: nat, ofConnection: bool, ofCredentials: bool)

  datatype Verdict = Pending | Ready | Refused(refusal: Refusal)

  datatype Closing = NotClosing | Forgotten | ByTheClose

  datatype Queue = Queue(name: Name, verdict: Verdict, closing: Closing, closed: Option<bool>)

  datatype Act =
    | HandedOut(queue: nat)
    | InitRefused(queue: nat, error: nat)
    | RefusalLine(name: Name)
    | ErrorLine(queue: nat, error: nat)
    | CloseBegun
    | QueueCloseStarted(queue: nat, byTheClose: bool)
    | QueueCloseSettled(queue: nat)
    | MarkTakenOff

  /** Where the close stands; `Settled` holds the queues whose close refused. */
  datatype Phase =
    | Open
    | Draining(drained: set<nat>)
    | Waiting(forgottenAtStart: set<nat>)
    | Settled(refusals: seq<nat>)

  datatype State = State(
    registry: set<Name>, readOnly: bool,
    queues: seq<Queue>, cache: map<Name, nat>, refusalWritten: set<Name>,
    inFlight: set<nat>, passes: nat, forgotten: set<nat>,
    delayed: set<(nat, nat)>, phase: Phase, log: seq<Act>)

  datatype Event =
    | GetCalled(name: Name)
    | UseCalled(name: Name)
    | PassSettles(pass: nat)
    | InitSettles(queue: nat, verdict: Verdict)
    | ErrorHeard(queue: nat, error: nat, ofClient: bool)
    | DelayPasses(queue: nat, error: nat)
    | CloseCalled
    | DrainEnds(timedOut: bool)
    | QueueCloses(queue: nat, ok: bool)
    | CloseEnds(timedOut: bool)

  /** What `get` answers: a queue, or why it throws. */
  datatype Got = Handed(queue: nat) | AfterClose | UnknownName

  function Initial(registry: set<Name>, readOnly: bool): State {
    State(registry, readOnly, [], map[], {}, {}, 0, {}, {}, Open, [])
  }

  predicate Enabled(s: State, e: Event) {
    match e
    case GetCalled(_) => true
    case UseCalled(_) => true
    case PassSettles(pass) => pass in s.inFlight
    case InitSettles(q, verdict) => q < |s.queues| && s.queues[q].verdict.Pending? && !verdict.Pending?
    case ErrorHeard(q, _, _) => q < |s.queues|
    case DelayPasses(q, error) => (q, error) in s.delayed
    case CloseCalled => true
    case DrainEnds(timedOut) => s.phase.Draining? && (timedOut || s.phase.drained * s.inFlight == {})
    case QueueCloses(q, _) => q < |s.queues| && !s.queues[q].closing.NotClosing? && s.queues[q].closed.None?
    case CloseEnds(timedOut) =>
      && s.phase.Waiting? && (timedOut || s.phase.forgottenAtStart * s.forgotten == {})
      && forall q | 0 <= q < |s.queues| && s.queues[q].closing.ByTheClose? :: s.queues[q].closed.Some?
  }

  function Answer(s: State, name: Name): Got {
    if !s.phase.Open? then AfterClose
    else if name in s.cache then Handed(s.cache[name])
    else if name !in s.registry then UnknownName
    else Handed(|s.queues|)
  }

  function Get(s: State, name: Name): State {
    match Answer(s, name)
    case AfterClose => s
    case UnknownName => s
    case Handed(q) =>
      var built :=
        if name in s.cache then s
        else s.(queues := s.queues + [Queue(name, Pending, NotClosing, None)], cache := s.cache[name := q]);
      built.(log := s.log + [HandedOut(q)])
  }

  /** A queue leaves the cache and its close is started, if the cache still holds it. */
  function Forget(s: State, q: nat): State
    requires q < |s.queues|
  {
    var name := s.queues[q].name;
    if !(name in s.cache && s.cache[name] == q) then s
    else
      s.(cache := s.cache - {name}, queues := s.queues[q := s.queues[q].(closing := Forgotten)],
         forgotten := s.forgotten + {q}, log := s.log + [QueueCloseStarted(q, false)])
  }

  /** A refused init is a line of its own: once a name, of a writer, while open, over what nothing else reports. */
  predicate TellsRefusal(s: State, q: nat, refusal: Refusal)
    requires q < |s.queues|
  {
    var name := s.queues[q].name;
    && !s.readOnly && s.phase.Open? && name in s.cache && s.cache[name] == q
    && !refusal.ofConnection && !refusal.ofCredentials && name !in s.refusalWritten
  }

  function TakeVerdict(s: State, q: nat, verdict: Verdict): State
    requires q < |s.queues|
  {
    var taken := s.(queues := s.queues[q := s.queues[q].(verdict := verdict)]);
    match verdict
    case Pending => taken
    case Ready => taken
    case Refused(refusal) =>
      var name := s.queues[q].name;
      var noted := taken.(log := s.log + [InitRefused(q, refusal.error)]);
      Forget(
        if TellsRefusal(s, q, refusal) then
          noted.(refusalWritten := s.refusalWritten + {name}, log := noted.log + [RefusalLine(name)])
        else noted,
        q)
  }

  function WriteError(s: State, q: nat, error: nat): State
    requires q < |s.queues|
  {
    if !s.phase.Open? then s
    else if s.queues[q].verdict.Refused? && s.queues[q].verdict.refusal.error == error then s
    else s.(log := s.log + [ErrorLine(q, error)])
  }

  /** The queues below `bound` the cache holds, in the order they were built. */
  function CachedBelow(s: State, bound: nat): (cached: seq<nat>)
    requires bound <= |s.queues|
    ensures forall q :: q in cached <==> 0 <= q < bound && s.queues[q].name in s.cache && s.cache[s.queues[q].name] == q
    ensures forall a, b | 0 <= a < b < |cached| :: cached[a] != cached[b]
  {
    if bound == 0 then []
    else
      CachedBelow(s, bound - 1)
      + if s.queues[bound - 1].name in s.cache && s.cache[s.queues[bound - 1].name] == bound - 1 then [bound - 1]
        else []
  }

  function CloseEach(s: State, cached: seq<nat>): State
    decreases |cached|
  {
    if cached == [] then s
    else
      var q := cached[0];
      CloseEach(if q < |s.queues| then
                  s.(queues := s.queues[q := s.queues[q].(closing := ByTheClose)],
                     log := s.log + [QueueCloseStarted(q, true)])
                else s,
                cached[1..])
  }

  /** The drain over, the cache is emptied and every queue of it closed. */
  function CloseQueues(s: State): State {
    CloseEach(s.(cache := map[], phase := Waiting(s.forgotten)), CachedBelow(s, |s.queues|))
  }

  function BeginClose(s: State): State {
    if !s.phase.Open? then s
    else
      var begun := s.(log := s.log + [CloseBegun]);
      if s.inFlight == {} then CloseQueues(begun) else begun.(phase := Draining(s.inFlight))
  }

  /** The queues the close closed whose own close refused. */
  function RefusedBelow(queues: seq<Queue>, bound: nat): (refusals: seq<nat>)
    requires bound <= |queues|
    ensures forall q ::
              q in refusals <==> 0 <= q < bound && queues[q].closing.ByTheClose? && queues[q].closed == Some(false)
  {
    if bound == 0 then []
    else
      RefusedBelow(queues, bound - 1)
      + if queues[bound - 1].closing.ByTheClose? && queues[bound - 1].closed == Some(false) then [bound - 1] else []
  }

  function Next(s: State, e: Event): State {
    if !Enabled(s, e) then s else
    match e
    case GetCalled(name) => Get(s, name)
    case UseCalled(name) =>
      if Answer(s, name).Handed? then Get(s, name).(inFlight := s.inFlight + {s.passes}, passes := s.passes + 1) else s
    case PassSettles(pass) => s.(inFlight := s.inFlight - {pass})
    case InitSettles(q, verdict) => TakeVerdict(s, q, verdict)
    case ErrorHeard(q, error, ofClient) =>
      if ofClient then s
      else if !s.queues[q].verdict.Pending? then WriteError(s, q, error)
      else s.(delayed := s.delayed + {(q, error)})
    case DelayPasses(q, error) =>
      var passed := s.(delayed := s.delayed - {(q, error)});
      if q < |s.queues| then WriteError(passed, q, error) else passed
    case CloseCalled => BeginClose(s)
    case DrainEnds(_) => CloseQueues(s)
    case QueueCloses(q, ok) =>
      s.(queues := s.queues[q := s.queues[q].(closed := Some(ok))], forgotten := s.forgotten - {q},
         log := s.log + [QueueCloseSettled(q)])
    case CloseEnds(_) =>
      s.(phase := Settled(RefusedBelow(s.queues, |s.queues|)), log := s.log + [MarkTakenOff])
  }

  function Run(s: State, events: seq<Event>): State
    decreases |events|
  {
    if events == [] then s else Run(Next(s, events[0]), events[1..])
  }

  // ------------------------------------------------------------------
  // What every act rests on.

  predicate HasStarted(log: seq<Act>, q: nat) {
    QueueCloseStarted(q, true) in log || QueueCloseStarted(q, false) in log
  }

  predicate WasRefused(log: seq<Act>, q: nat) {
    exists act <- log :: act.InitRefused? && act.queue == q
  }

  ghost predicate Justified(before: seq<Act>, act: Act) {
    match act
    case HandedOut(q) => CloseBegun !in before && !HasStarted(before, q) && !WasRefused(before, q)
    case InitRefused(q, _) => !WasRefused(before, q)
    case RefusalLine(name) => CloseBegun !in before && RefusalLine(name) !in before
    case ErrorLine(q, error) => CloseBegun !in before && InitRefused(q, error) !in before
    case CloseBegun => CloseBegun !in before
    case QueueCloseStarted(q, byTheClose) =>
      !HasStarted(before, q) && HandedOut(q) in before
        && if byTheClose then CloseBegun in before else WasRefused(before, q)
    case QueueCloseSettled(q) => HasStarted(before, q) && QueueCloseSettled(q) !in before
    case MarkTakenOff =>
      && MarkTakenOff !in before && CloseBegun in before
      && (forall q | HandedOut(q) in before :: HasStarted(before, q))
      && (forall q | QueueCloseStarted(q, true) in before :: QueueCloseSettled(q) in before)
  }

  ghost predicate InOrder(log: seq<Act>) {
    forall t | 0 <= t < |log| :: Justified(log[..t], log[t])
  }

  // ------------------------------------------------------------------
  // What every event keeps.

  /** The cache holds exactly the queues whose close has not begun, each under its name, and none that was refused. */
  predicate CacheAgrees(s: State) {
    && (forall name <- s.cache :: s.cache[name] < |s.queues| && s.queues[s.cache[name]].name == name)
    && (forall q | 0 <= q < |s.queues| ::
          s.queues[q].closing.NotClosing? <==> s.queues[q].name in s.cache && s.cache[s.queues[q].name] == q)
    && (forall q | 0 <= q < |s.queues| && s.queues[q].closing.NotClosing? ::
          !s.queues[q].verdict.Refused? && s.queues[q].closed.None?)
    && (s.phase.Waiting? || s.phase.Settled? ==> s.cache == map[])
  }

  ghost predicate LogAgrees(s: State) {
    && (forall q | 0 <= q < |s.queues| :: HandedOut(q) in s.log)
    && (forall q: nat :: HandedOut(q) in s.log ==> q < |s.queues|)
    && (forall q: nat :: QueueCloseStarted(q, true) in s.log <==> q < |s.queues| && s.queues[q].closing.ByTheClose?)
    && (forall q: nat :: QueueCloseStarted(q, false) in s.log <==> q < |s.queues| && s.queues[q].closing.Forgotten?)
    && (forall q: nat :: QueueCloseSettled(q) in s.log <==> q < |s.queues| && s.queues[q].closed.Some?)
    && (forall q: nat, error: nat :: InitRefused(q, error) in s.log <==>
          q < |s.queues| && s.queues[q].verdict.Refused? && s.queues[q].verdict.refusal.error == error)
    && (forall name :: name in s.refusalWritten <==> RefusalLine(name) in s.log)
    && (CloseBegun in s.log <==> !s.phase.Open?)
    && (MarkTakenOff in s.log <==> s.phase.Settled?)
  }

  ghost predicate Sound(s: State) {
    CacheAgrees(s) && LogAgrees(s) && InOrder(s.log)
  }

  /** A justified act more keeps the log in order. */
  lemma Appends(log: seq<Act>, act: Act)
    requires InOrder(log) && Justified(log, act)
    ensures InOrder(log + [act])
  {
    hide Justified;
    forall t | 0 <= t < |log + [act]| ensures Justified((log + [act])[..t], (log + [act])[t]) {
      if t < |log| {
        assert (log + [act])[..t] == log[..t];
      } else {
        assert (log + [act])[..t] == log;
      }
    }
  }

  lemma RefusedIsLogged(s: State, q: nat)
    requires LogAgrees(s)
    ensures WasRefused(s.log, q) <==> q < |s.queues| && s.queues[q].verdict.Refused?
  {
    if WasRefused(s.log, q) {
      var act :| act in s.log && act.InitRefused? && act.queue == q;
      assert InitRefused(q, act.error) in s.log;
    }
    if q < |s.queues| && s.queues[q].verdict.Refused? {
      assert InitRefused(q, s.queues[q].verdict.refusal.error) in s.log;
    }
  }

  lemma BuildKeeps(s: State, name: Name)
    requires Sound(s) && s.phase.Open? && name !in s.cache
    ensures var q := |s.queues|;
            Sound(s.(queues := s.queues + [Queue(name, Pending, NotClosing, None)], cache := s.cache[name := q],
                     log := s.log + [HandedOut(q)]))
  {
    hide InOrder, WasRefused;
    RefusedIsLogged(s, |s.queues|);
    Appends(s.log, HandedOut(|s.queues|));
  }

  lemma HandOutKeeps(s: State, name: Name)
    requires Sound(s) && s.phase.Open? && name in s.cache
    ensures Sound(s.(log := s.log + [HandedOut(s.cache[name])]))
  {
    hide InOrder, WasRefused;
    RefusedIsLogged(s, s.cache[name]);
    Appends(s.log, HandedOut(s.cache[name]));
  }

  lemma GetKeeps(s: State, name: Name)
    requires Sound(s)
    ensures Sound(Get(s, name))
  {
    hide Sound;
    if s.phase.Open? {
      if name in s.cache {
        HandOutKeeps(s, name);
      } else {
        BuildKeeps(s, name);
      }
    }
  }

  lemma ForgetKeeps(s: State, q: nat)
    requires q < |s.queues| && s.queues[q].verdict.Refused?
    requires CacheAgreesBut(s, q) && LogAgrees(s) && InOrder(s.log)
    ensures Sound(Forget(s, q))
  {
    hide InOrder, WasRefused;
    RefusedIsLogged(s, q);
    if s.queues[q].closing.NotClosing? {
      Appends(s.log, QueueCloseStarted(q, false));
    }
  }

  /** The cache agrees but for one queue, refused a moment ago and not yet forgotten. */
  predicate CacheAgreesBut(s: State, q: nat) {
    && q < |s.queues|
    && (forall name <- s.cache :: s.cache[name] < |s.queues| && s.queues[s.cache[name]].name == name)
    && (forall k | 0 <= k < |s.queues| ::
          s.queues[k].closing.NotClosing? <==> s.queues[k].name in s.cache && s.cache[s.queues[k].name] == k)
    && (forall k | 0 <= k < |s.queues| && s.queues[k].closing.NotClosing? ::
          (k != q ==> !s.queues[k].verdict.Refused?) && s.queues[k].closed.None?)
    && (s.phase.Waiting? || s.phase.Settled? ==> s.cache == map[])
  }

  /** The queue whose init was refused a moment ago is the one the cache must let go. */
  lemma RefusalIsNoted(s: State, q: nat, refusal: Refusal)
    requires Sound(s) && q < |s.queues| && s.queues[q].verdict.Pending?
    ensures var noted := s.(queues := s.queues[q := s.queues[q].(verdict := Refused(refusal))],
                            log := s.log + [InitRefused(q, refusal.error)]);
            CacheAgreesBut(noted, q) && LogAgrees(noted) && InOrder(noted.log)
  {
    hide InOrder, WasRefused;
    RefusedIsLogged(s, q);
    Appends(s.log, InitRefused(q, refusal.error));
  }

  lemma RefusalIsTold(s: State, q: nat, name: Name)
    requires CacheAgreesBut(s, q) && LogAgrees(s) && InOrder(s.log) && s.phase.Open? && name !in s.refusalWritten
    ensures var told := s.(refusalWritten := s.refusalWritten + {name}, log := s.log + [RefusalLine(name)]);
            CacheAgreesBut(told, q) && LogAgrees(told) && InOrder(told.log)
  {
    hide InOrder;
    Appends(s.log, RefusalLine(name));
  }

  lemma VerdictKeeps(s: State, q: nat, verdict: Verdict)
    requires Sound(s) && q < |s.queues| && s.queues[q].verdict.Pending? && !verdict.Pending?
    ensures Sound(TakeVerdict(s, q, verdict))
  {
    hide InOrder, WasRefused, Forget, CacheAgreesBut, CacheAgrees, LogAgrees;
    if verdict.Refused? {
      var name := s.queues[q].name;
      RefusalIsNoted(s, q, verdict.refusal);
      var noted := s.(queues := s.queues[q := s.queues[q].(verdict := verdict)],
                      log := s.log + [InitRefused(q, verdict.refusal.error)]);
      if TellsRefusal(s, q, verdict.refusal) {
        RefusalIsTold(noted, q, name);
        ForgetKeeps(noted.(refusalWritten := s.refusalWritten + {name}, log := noted.log + [RefusalLine(name)]), q);
      } else {
        ForgetKeeps(noted, q);
      }
    } else {
      ReadyKeeps(s, q);
    }
  }

  lemma ReadyKeeps(s: State, q: nat)
    requires Sound(s) && q < |s.queues| && s.queues[q].verdict.Pending?
    ensures Sound(s.(queues := s.queues[q := s.queues[q].(verdict := Ready)]))
  {
    hide InOrder;
  }

  lemma WriteErrorKeeps(s: State, q: nat, error: nat)
    requires Sound(s) && q < |s.queues|
    ensures Sound(WriteError(s, q, error))
  {
    hide InOrder, WasRefused;
    if WriteError(s, q, error) != s {
      Appends(s.log, ErrorLine(q, error));
    }
  }

  /** The close of each queue the cache held starts, of each once. */
  lemma {:induction false} CloseEachKeeps(s: State, cached: seq<nat>)
    requires LogAgrees(s) && InOrder(s.log) && s.phase.Waiting? && s.cache == map[]
    requires forall a, b | 0 <= a < b < |cached| :: cached[a] != cached[b]
    requires forall q <- cached :: q < |s.queues|
    requires forall q | 0 <= q < |s.queues| :: s.queues[q].closing.NotClosing? <==> q in cached
    ensures Sound(CloseEach(s, cached))
    ensures CloseEach(s, cached).phase == s.phase
    decreases |cached|
  {
    hide InOrder, WasRefused;
    if cached != [] {
      var q := cached[0];
      assert q in cached && forall k :: k in cached <==> k == q || k in cached[1..];
      var next := s.(queues := s.queues[q := s.queues[q].(closing := ByTheClose)],
                     log := s.log + [QueueCloseStarted(q, true)]);
      Appends(s.log, QueueCloseStarted(q, true));
      CloseEachKeeps(next, cached[1..]);
    }
  }

  lemma CloseQueuesKeeps(s: State)
    requires CacheAgrees(s) && InOrder(s.log) && LogAgrees(s.(phase := Waiting(s.forgotten)))
    ensures Sound(CloseQueues(s)) && CloseQueues(s).phase.Waiting?
  {
    hide InOrder, CloseEach;
    CloseEachKeeps(s.(cache := map[], phase := Waiting(s.forgotten)), CachedBelow(s, |s.queues|));
  }

  lemma BeginCloseKeeps(s: State)
    requires Sound(s)
    ensures Sound(BeginClose(s))
  {
    hide InOrder, CloseQueues, WasRefused;
    if s.phase.Open? {
      Appends(s.log, CloseBegun);
      CloseQueuesKeeps(s.(log := s.log + [CloseBegun]));
    }
  }

  lemma DrainEndsKeeps(s: State)
    requires Sound(s) && s.phase.Draining?
    ensures Sound(CloseQueues(s))
  {
    hide InOrder, CloseQueues;
    CloseQueuesKeeps(s);
  }

  lemma GetKeepsReads(s: State, name: Name)
    ensures var got := Get(s, name); got.inFlight == s.inFlight && got.passes == s.passes && got.delayed == s.delayed
  {
  }

  lemma QueueClosesKeeps(s: State, q: nat, ok: bool)
    requires Sound(s) && Enabled(s, QueueCloses(q, ok))
    ensures Sound(Next(s, QueueCloses(q, ok)))
  {
    hide InOrder, WasRefused;
    Appends(s.log, QueueCloseSettled(q));
  }

  lemma CloseEndsKeeps(s: State, timedOut: bool)
    requires Sound(s) && Enabled(s, CloseEnds(timedOut))
    ensures Sound(Next(s, CloseEnds(timedOut)))
  {
    hide InOrder, WasRefused, RefusedBelow;
    Appends(s.log, MarkTakenOff);
  }

  /** The reads in flight and the errors put off are nothing the log speaks of. */
  lemma ReadsDoNotMatter(s: State, inFlight: set<nat>, passes: nat, delayed: set<(nat, nat)>)
    requires Sound(s)
    ensures Sound(s.(inFlight := inFlight, passes := passes, delayed := delayed))
  {
    hide InOrder;
  }

  lemma NextIsSound(s: State, e: Event)
    requires Sound(s)
    ensures Sound(Next(s, e))
  {
    hide Get, TakeVerdict, WriteError, BeginClose, CloseQueues, Sound;
    if Enabled(s, e) {
      match e
      case GetCalled(name) => GetKeeps(s, name);
      case UseCalled(name) =>
        GetKeeps(s, name);
        var got := Get(s, name);
        ReadsDoNotMatter(got, got.inFlight + {got.passes}, got.passes + 1, got.delayed);
        GetKeepsReads(s, name);
      case InitSettles(q, verdict) => VerdictKeeps(s, q, verdict);
      case ErrorHeard(q, error, _) =>
        WriteErrorKeeps(s, q, error);
        ReadsDoNotMatter(s, s.inFlight, s.passes, s.delayed + {(q, error)});
      case DelayPasses(q, error) =>
        var passed := s.(delayed := s.delayed - {(q, error)});
        ReadsDoNotMatter(s, s.inFlight, s.passes, passed.delayed);
        if q < |s.queues| {
          WriteErrorKeeps(passed, q, error);
        }
      case CloseCalled => BeginCloseKeeps(s);
      case DrainEnds(_) => DrainEndsKeeps(s);
      case QueueCloses(q, ok) => QueueClosesKeeps(s, q, ok);
      case CloseEnds(timedOut) => CloseEndsKeeps(s, timedOut);
      case PassSettles(pass) => ReadsDoNotMatter(s, s.inFlight - {pass}, s.passes, s.delayed);
    }
  }

  lemma {:induction false} RunIsSound(s: State, events: seq<Event>)
    requires Sound(s)
    ensures Sound(Run(s, events))
    decreases |events|
  {
    hide Sound, Next;
    if events != [] {
      NextIsSound(s, events[0]);
      RunIsSound(Next(s, events[0]), events[1..]);
    }
  }

  lemma InitialIsSound(registry: set<Name>, readOnly: bool)
    ensures Sound(Initial(registry, readOnly))
  {
  }

  // ------------------------------------------------------------------
  // The promises of a factory, for every run of it.

  /** What `get` answers is a queue just built, or one of that name still open whose init was not refused. */
  lemma GetAnswersALiveQueue(registry: set<Name>, readOnly: bool, events: seq<Event>, name: Name)
    requires Answer(Run(Initial(registry, readOnly), events), name).Handed?
    ensures var s := Run(Initial(registry, readOnly), events);
            var q := Answer(s, name).queue;
            && s.phase.Open? && q <= |s.queues|
            && (q < |s.queues| ==>
                  s.queues[q].name == name && s.queues[q].closing.NotClosing? && !s.queues[q].verdict.Refused?)
  {
    hide InOrder;
    InitialIsSound(registry, readOnly);
    RunIsSound(Initial(registry, readOnly), events);
  }

  /** A queue whose init was refused, or whose close has begun, is never handed out from then on. */
  lemma ARefusedQueueIsNeverHandedOutAgain(registry: set<Name>, readOnly: bool, events: seq<Event>, t: nat, u: nat,
                                           q: nat)
    requires var log := Run(Initial(registry, readOnly), events).log;
             && t < u < |log| && log[u] == HandedOut(q)
    ensures var act := Run(Initial(registry, readOnly), events).log[t];
            && !(act.InitRefused? && act.queue == q)
            && !(act.QueueCloseStarted? && act.queue == q)
            && act != CloseBegun
  {
    InitialIsSound(registry, readOnly);
    RunIsSound(Initial(registry, readOnly), events);
    var log := Run(Initial(registry, readOnly), events).log;
    assert Justified(log[..u], log[u]);
    assert log[..u][t] == log[t];
  }

  /** Of the queues of one name, at most one is not closing or closed. */
  lemma OneOpenQueueAName(registry: set<Name>, readOnly: bool, events: seq<Event>, i: nat, j: nat)
    requires var s := Run(Initial(registry, readOnly), events);
             && i < |s.queues| && j < |s.queues| && s.queues[i].name == s.queues[j].name
             && s.queues[i].closing.NotClosing? && s.queues[j].closing.NotClosing?
    ensures i == j
  {
    hide InOrder;
    InitialIsSound(registry, readOnly);
    RunIsSound(Initial(registry, readOnly), events);
  }

  /** An act that is never repeated: the start and the end of a queue's close, the line of a name, and the mark. */
  predicate HappensOnce(act: Act) {
    act.QueueCloseStarted? || act.QueueCloseSettled? || act.RefusalLine? || act.CloseBegun? || act.MarkTakenOff?
  }

  /** Nothing is closed twice - by the close or over its refused init - and a name has one line at most. */
  lemma NothingHappensTwice(registry: set<Name>, readOnly: bool, events: seq<Event>, t: nat, u: nat)
    requires var log := Run(Initial(registry, readOnly), events).log;
             && t < u < |log| && HappensOnce(log[t])
    ensures var log := Run(Initial(registry, readOnly), events).log;
            && log[t] != log[u]
            && (log[t].QueueCloseStarted? && log[u].QueueCloseStarted? ==> log[t].queue != log[u].queue)
  {
    InitialIsSound(registry, readOnly);
    RunIsSound(Initial(registry, readOnly), events);
    var log := Run(Initial(registry, readOnly), events).log;
    assert Justified(log[..u], log[u]);
    assert log[..u][t] == log[t];
  }

  /** After the close has begun no line is written, and a refused init is never written as an error once it is known. */
  lemma NoLineAfterTheClose(registry: set<Name>, readOnly: bool, events: seq<Event>, t: nat, u: nat)
    requires var log := Run(Initial(registry, readOnly), events).log;
             && t < u < |log| && (log[u].RefusalLine? || log[u].ErrorLine?)
    ensures var log := Run(Initial(registry, readOnly), events).log;
            && log[t] != CloseBegun
            && (log[u].ErrorLine? ==> log[t] != InitRefused(log[u].queue, log[u].error))
  {
    InitialIsSound(registry, readOnly);
    RunIsSound(Initial(registry, readOnly), events);
    var log := Run(Initial(registry, readOnly), events).log;
    assert Justified(log[..u], log[u]);
    assert log[..u][t] == log[t];
  }

  /**
   * Once the close has settled, the close of every queue ever built has started,
   * each one the close itself closed has settled, and the close refuses with
   * exactly those of them that refused.
   */
  lemma ASettledCloseClosedThemAll(registry: set<Name>, readOnly: bool, events: seq<Event>, q: nat)
    requires var s := Run(Initial(registry, readOnly), events); s.phase.Settled? && q < |s.queues|
    ensures var s := Run(Initial(registry, readOnly), events);
            && HasStarted(s.log, q)
            && (s.queues[q].closing.ByTheClose? ==> s.queues[q].closed.Some?)
            && (q in s.phase.refusals <==> s.queues[q].closing.ByTheClose? && s.queues[q].closed == Some(false))
            && (s.queues[q].closing.Forgotten?
                <==> s.queues[q].verdict.Refused? && QueueCloseStarted(q, false) in s.log)
            && MarkTakenOff in s.log
  {
    hide InOrder;
    InitialIsSound(registry, readOnly);
    RunIsSound(Initial(registry, readOnly), events);
    RunKeepsTheEnd(Initial(registry, readOnly), events);
  }

  /** The mark comes off after the close of every queue the cache held, and when every queue built is closing. */
  lemma TheMarkComesOffLast(registry: set<Name>, readOnly: bool, events: seq<Event>, t: nat, q: nat)
    requires var log := Run(Initial(registry, readOnly), events).log;
             t < |log| && log[t] == MarkTakenOff && HandedOut(q) in log
    ensures var log := Run(Initial(registry, readOnly), events).log;
            && HasStarted(log[..t], q)
            && (QueueCloseStarted(q, true) in log ==> QueueCloseSettled(q) in log[..t])
  {
    InitialIsSound(registry, readOnly);
    RunIsSound(Initial(registry, readOnly), events);
    var log := Run(Initial(registry, readOnly), events).log;
    var h: nat :| h < |log| && log[h] == HandedOut(q);
    assert Justified(log[..t], log[t]) && Justified(log[..h], log[h]);
    if h > t {
      PrefixKeeps(log, t, h);
    } else {
      assert log[..t][h] == log[h];
    }
    if QueueCloseStarted(q, true) in log {
      var c: nat :| c < |log| && log[c] == QueueCloseStarted(q, true);
      assert Justified(log[..c], log[c]);
      if c > t {
        PrefixKeeps(log, t, c);
      } else {
        assert log[..t][c] == log[c];
      }
    }
  }

  lemma PrefixKeeps(log: seq<Act>, t: nat, u: nat)
    requires t <= u <= |log|
    ensures forall act <- log[..t] :: act in log[..u]
  {
    assert log[..t] == log[..u][..t];
  }

  // ------------------------------------------------------------------
  // How the close ends.

  /**
   * A settled close answers with the queues it closed that refused, all of them settled;
   * a forgotten queue is one that was refused.
   */
  ghost predicate EndAgrees(s: State) {
    && (s.phase.Settled? ==>
          forall q: nat :: q in s.phase.refusals <==>
            q < |s.queues| && s.queues[q].closing.ByTheClose? && s.queues[q].closed == Some(false))
    && (s.phase.Settled? ==> forall q | 0 <= q < |s.queues| && s.queues[q].closing.ByTheClose? ::
          s.queues[q].closed.Some?)
    && (forall q | 0 <= q < |s.queues| && s.queues[q].closing.Forgotten? :: s.queues[q].verdict.Refused?)
    && ForgottenAgree(s)
  }

  /**
   * The forgotten queues waited for are those whose close is not over, and none comes
   * once the close waits for them.
   */
  ghost predicate ForgottenAgree(s: State) {
    && (forall q | 0 <= q < |s.queues| && s.queues[q].closing.Forgotten? && s.queues[q].closed.None? ::
          q in s.forgotten)
    && (s.phase.Waiting? ==> s.forgotten <= s.phase.forgottenAtStart)
    && (s.phase.Open? ==> forall q | 0 <= q < |s.queues| :: !s.queues[q].closing.ByTheClose?)
  }

  lemma {:induction false} CloseEachForgetsNone(s: State, cached: seq<nat>)
    ensures var s' := CloseEach(s, cached);
            && |s'.queues| == |s.queues| && s'.phase == s.phase && s'.forgotten == s.forgotten
            && forall q | 0 <= q < |s.queues| && s'.queues[q].closing.Forgotten? :: s'.queues[q] == s.queues[q]
    decreases |cached|
  {
    if cached != [] {
      var q := cached[0];
      CloseEachForgetsNone(if q < |s.queues| then
                             s.(queues := s.queues[q := s.queues[q].(closing := ByTheClose)],
                                log := s.log + [QueueCloseStarted(q, true)])
                           else s,
                           cached[1..]);
    }
  }

  lemma GetKeepsTheEnd(s: State, name: Name)
    requires Sound(s) && EndAgrees(s)
    ensures EndAgrees(Get(s, name))
  {
    hide InOrder, LogAgrees;
  }

  lemma VerdictKeepsTheEnd(s: State, q: nat, verdict: Verdict)
    requires Sound(s) && EndAgrees(s) && Enabled(s, InitSettles(q, verdict))
    ensures EndAgrees(TakeVerdict(s, q, verdict))
  {
    hide InOrder, LogAgrees, TellsRefusal;
  }

  lemma ClosingKeepsTheEnd(s: State)
    requires CacheAgrees(s) && EndAgrees(s) && !s.phase.Settled? && !s.phase.Waiting?
    ensures EndAgrees(CloseQueues(s))
  {
    hide CloseEach, CachedBelow;
    CloseEachForgetsNone(s.(cache := map[], phase := Waiting(s.forgotten)), CachedBelow(s, |s.queues|));
  }

  lemma BeginKeepsTheEnd(s: State)
    requires Sound(s) && EndAgrees(s)
    ensures EndAgrees(BeginClose(s))
  {
    hide InOrder, LogAgrees, CloseQueues;
    if s.phase.Open? {
      ClosingKeepsTheEnd(s.(log := s.log + [CloseBegun]));
    }
  }

  lemma EndIsKept(s: State, e: Event)
    requires Sound(s) && EndAgrees(s)
    ensures EndAgrees(Next(s, e))
  {
    hide InOrder, LogAgrees, Get, TakeVerdict, BeginClose, CloseQueues, RefusedBelow;
    if Enabled(s, e) {
      match e
      case GetCalled(name) => GetKeepsTheEnd(s, name);
      case UseCalled(name) => GetKeepsTheEnd(s, name);
      case InitSettles(q, verdict) => VerdictKeepsTheEnd(s, q, verdict);
      case CloseCalled => BeginKeepsTheEnd(s);
      case DrainEnds(_) => ClosingKeepsTheEnd(s);
      case _ =>
    }
  }

  /** A close that ends in time has waited for every queue ever built, the forgotten ones included. */
  lemma ACloseInTimeLeavesNothingClosing(registry: set<Name>, readOnly: bool, events: seq<Event>, q: nat)
    requires var s := Run(Initial(registry, readOnly), events); Enabled(s, CloseEnds(false)) && q < |s.queues|
    ensures Run(Initial(registry, readOnly), events).queues[q].closed.Some?
  {
    hide InOrder, LogAgrees;
    InitialIsSound(registry, readOnly);
    RunIsSound(Initial(registry, readOnly), events);
    RunKeepsTheEnd(Initial(registry, readOnly), events);
    var s := Run(Initial(registry, readOnly), events);
    assert s.forgotten == s.phase.forgottenAtStart * s.forgotten;
  }

  lemma {:induction false} RunKeepsTheEnd(s: State, events: seq<Event>)
    requires Sound(s) && EndAgrees(s)
    ensures EndAgrees(Run(s, events))
    decreases |events|
  {
    hide Sound, EndAgrees, Next;
    if events != [] {
      NextIsSound(s, events[0]);
      EndIsKept(s, events[0]);
      RunKeepsTheEnd(Next(s, events[0]), events[1..]);
    }
  }

  // ------------------------------------------------------------------
  // Which refusals have a line.

  /**
   * A queue of the name was refused its init by Redis itself: not by a connection
   * failure, not over the credentials.
   */
  predicate IsOwnRefusal(queue: Queue, name: Name) {
    queue.name == name && queue.verdict.Refused? && !queue.verdict.refusal.ofConnection
      && !queue.verdict.refusal.ofCredentials
  }

  predicate HasOwnRefusal(queues: seq<Queue>, name: Name) {
    exists q | 0 <= q < |queues| :: IsOwnRefusal(queues[q], name)
  }

  ghost predicate LinesAgree(s: State) {
    && (forall name :: name in s.refusalWritten ==> !s.readOnly && HasOwnRefusal(s.queues, name))
    && (forall name :: s.phase.Open? && !s.readOnly && HasOwnRefusal(s.queues, name) ==> name in s.refusalWritten)
  }

  /** Queues that keep their names and verdicts, with new ones not refused, keep what was refused. */
  lemma SameRefusals(queues: seq<Queue>, queues': seq<Queue>)
    requires |queues| <= |queues'|
    requires forall q | 0 <= q < |queues| :: queues'[q].name == queues[q].name
    requires forall q | 0 <= q < |queues| ::
               queues'[q].verdict == queues[q].verdict || (!queues'[q].verdict.Refused? && !queues[q].verdict.Refused?)
    requires forall q | |queues| <= q < |queues'| :: !queues'[q].verdict.Refused?
    ensures forall name :: HasOwnRefusal(queues, name) <==> HasOwnRefusal(queues', name)
  {
    forall name | HasOwnRefusal(queues, name) ensures HasOwnRefusal(queues', name) {
      var q :| 0 <= q < |queues| && IsOwnRefusal(queues[q], name);
      assert IsOwnRefusal(queues'[q], name);
    }
    forall name | HasOwnRefusal(queues', name) ensures HasOwnRefusal(queues, name) {
      var q :| 0 <= q < |queues'| && IsOwnRefusal(queues'[q], name);
      assert IsOwnRefusal(queues[q], name);
    }
  }

  lemma {:induction false} CloseEachKeepsVerdicts(s: State, cached: seq<nat>)
    ensures var s' := CloseEach(s, cached);
            && |s'.queues| == |s.queues| && s'.phase == s.phase
            && s'.refusalWritten == s.refusalWritten && s'.readOnly == s.readOnly
            && forall q | 0 <= q < |s.queues| ::
                 s'.queues[q].name == s.queues[q].name && s'.queues[q].verdict == s.queues[q].verdict
    decreases |cached|
  {
    if cached != [] {
      var q := cached[0];
      CloseEachKeepsVerdicts(if q < |s.queues| then
                               s.(queues := s.queues[q := s.queues[q].(closing := ByTheClose)],
                                  log := s.log + [QueueCloseStarted(q, true)])
                             else s,
                             cached[1..]);
    }
  }

  /** A queue refused now adds its own name to the refused ones, if Redis itself refused it, and no other. */
  lemma OneMoreRefusal(queues: seq<Queue>, queues': seq<Queue>, i: nat, refusal: Refusal)
    requires i < |queues| == |queues'| && queues[i].verdict.Pending?
    requires forall q | 0 <= q < |queues| :: queues'[q].name == queues[q].name
    requires forall q | 0 <= q < |queues| && q != i :: queues'[q].verdict == queues[q].verdict
    requires queues'[i].verdict == Refused(refusal)
    ensures forall name :: HasOwnRefusal(queues', name) <==>
              HasOwnRefusal(queues, name) || (name == queues[i].name && !refusal.ofConnection && !refusal.ofCredentials)
  {
    forall name | HasOwnRefusal(queues, name) ensures HasOwnRefusal(queues', name) {
      var q :| 0 <= q < |queues| && IsOwnRefusal(queues[q], name);
      assert IsOwnRefusal(queues'[q], name);
    }
    forall name | HasOwnRefusal(queues', name) && name != queues[i].name ensures HasOwnRefusal(queues, name) {
      var q :| 0 <= q < |queues'| && IsOwnRefusal(queues'[q], name);
      assert IsOwnRefusal(queues[q], name);
    }
    if refusal.ofConnection || refusal.ofCredentials {
      forall name | HasOwnRefusal(queues', name) ensures HasOwnRefusal(queues, name) {
        var q :| 0 <= q < |queues'| && IsOwnRefusal(queues'[q], name);
        assert IsOwnRefusal(queues[q], name);
      }
    } else {
      assert IsOwnRefusal(queues'[i], queues[i].name);
    }
  }

  lemma VerdictKeepsLines(s: State, q: nat, verdict: Verdict)
    requires CacheAgrees(s) && EndAgrees(s) && LinesAgree(s) && Enabled(s, InitSettles(q, verdict))
    ensures LinesAgree(TakeVerdict(s, q, verdict))
  {
    hide HasOwnRefusal;
    var s' := TakeVerdict(s, q, verdict);
    if verdict.Refused? {
      OneMoreRefusal(s.queues, s'.queues, q, verdict.refusal);
    } else {
      SameRefusals(s.queues, s'.queues);
    }
  }

  lemma ClosingKeepsLines(s: State)
    requires LinesAgree(s)
    ensures LinesAgree(CloseQueues(s))
  {
    hide HasOwnRefusal, CloseEach, CachedBelow;
    CloseEachKeepsVerdicts(s.(cache := map[], phase := Waiting(s.forgotten)), CachedBelow(s, |s.queues|));
    SameRefusals(s.queues, CloseQueues(s).queues);
  }

  lemma LinesAreKept(s: State, e: Event)
    requires Sound(s) && EndAgrees(s) && LinesAgree(s)
    ensures LinesAgree(Next(s, e))
  {
    hide InOrder, LogAgrees, HasOwnRefusal, TakeVerdict, CloseQueues, RefusedBelow;
    if Enabled(s, e) {
      match e
      case InitSettles(q, verdict) => VerdictKeepsLines(s, q, verdict);
      case CloseCalled =>
        if s.phase.Open? {
          ClosingKeepsLines(s.(log := s.log + [CloseBegun]));
        }
      case DrainEnds(_) => ClosingKeepsLines(s);
      case _ => SameRefusals(s.queues, Next(s, e).queues);
    }
  }

  lemma ReadOnlyStays(s: State, e: Event)
    ensures Next(s, e).readOnly == s.readOnly
  {
    hide CloseEach, CachedBelow;
    match e
    case CloseCalled =>
      var begun := s.(log := s.log + [CloseBegun]);
      CloseEachKeepsVerdicts(begun.(cache := map[], phase := Waiting(begun.forgotten)),
                             CachedBelow(begun, |begun.queues|));
    case DrainEnds(_) =>
      CloseEachKeepsVerdicts(s.(cache := map[], phase := Waiting(s.forgotten)), CachedBelow(s, |s.queues|));
    case _ =>
  }

  lemma {:induction false} RunKeepsLines(s: State, events: seq<Event>)
    requires Sound(s) && EndAgrees(s) && LinesAgree(s)
    ensures LinesAgree(Run(s, events)) && Run(s, events).readOnly == s.readOnly
    decreases |events|
  {
    hide Sound, EndAgrees, LinesAgree, Next;
    if events != [] {
      NextIsSound(s, events[0]);
      EndIsKept(s, events[0]);
      LinesAreKept(s, events[0]);
      ReadOnlyStays(s, events[0]);
      RunKeepsLines(Next(s, events[0]), events[1..]);
    }
  }

  /**
   * While the factory is open a name has its line exactly if the factory writes
   * and a queue of that name was refused by Redis itself; a line never tells of
   * anything else, at any time.
   */
  lemma ANameHasItsLineExactlyWhen(registry: set<Name>, readOnly: bool, events: seq<Event>, name: Name)
    ensures var s := Run(Initial(registry, readOnly), events);
            && (RefusalLine(name) in s.log ==> !readOnly && HasOwnRefusal(s.queues, name))
            && (s.phase.Open? ==> (RefusalLine(name) in s.log <==> !readOnly && HasOwnRefusal(s.queues, name)))
  {
    hide InOrder, CacheAgrees, HasOwnRefusal;
    InitialIsSound(registry, readOnly);
    RunIsSound(Initial(registry, readOnly), events);
    NothingRefused(registry, readOnly);
    RunKeepsLines(Initial(registry, readOnly), events);
  }

  lemma NothingRefused(registry: set<Name>, readOnly: bool)
    ensures LinesAgree(Initial(registry, readOnly))
  {
  }
}
