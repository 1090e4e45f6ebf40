/**
 * What the calls of a probe handle are answered with, event by event and over
 * whole runs, and that a close comes to its end.
 */
module ProbeAnswers {
  import opened Wrappers
  import opened Probe

  /** What the event added to the settlements. */
  function Added(s: State, s': State): seq<(nat, Outcome)> {
    if s.settlements <= s'.settlements then s'.settlements[|s.settlements|..] else []
  }

  predicate IsOpenCall(s: State, c: nat) {
    c < |s.calls| && !SettledIn(s.settlements, c)
  }

  /** The event answered exactly the calls not answered yet, each with this outcome. */
  ghost predicate AnswersAllWith(s: State, added: seq<(nat, Outcome)>, outcome: Outcome) {
    forall c: nat, given: Outcome :: (c, given) in added <==> given == outcome && IsOpenCall(s, c)
  }

  /**
   * What an event answers: the query of a call answers it as it settled, unless it
   * was answered before; a limit refuses every call not answered yet; a call made
   * after the close is refused at once; the end of the close refuses what is left.
   * Nothing else answers a call.
   */
  ghost predicate AnswersRightly(s: State, e: Event, s': State) {
    && s.settlements <= s'.settlements
    && match e
       case WorkSettles(c, ok) => Added(s, s') == if IsOpenCall(s, c) then [(c, Answered(ok))] else []
       case TimerFires(_) => if Enabled(s, e) then AnswersAllWith(s, Added(s, s'), LimitRefused) else s' == s
       case RunCalled => Added(s, s') == if s.closed then [(|s.calls|, ClosedRefused)] else []
       case CloseSettles => if Enabled(s, e) then AnswersAllWith(s, Added(s, s'), ClosedRefused) else s' == s
       case _ => Added(s, s') == []
  }

  lemma {:induction false} RefusingAnswers(s: State, calls: seq<nat>, outcome: Outcome)
    requires Sound(s)
    ensures var s' := RefuseAll(s, calls, outcome);
      && s.settlements <= s'.settlements
      && forall c: nat, given: Outcome ::
           (c, given) in Added(s, s') <==> given == outcome && c in calls && IsOpenCall(s, c)
    decreases |calls|
  {
    hide Sound, Settle;
    if calls != [] {
      var one := Settle(s, calls[0], outcome);
      SettleKeeps(s, calls[0], outcome);
      SettlingAnswers(s, calls[0], outcome);
      RefusingAnswers(one, calls[1..], outcome);
      var s' := RefuseAll(s, calls, outcome);
      assert Added(s, s') == Added(s, one) + Added(one, s');
    }
  }

  lemma SettlingAnswers(s: State, c: nat, outcome: Outcome)
    requires Sound(s)
    ensures var s' := Settle(s, c, outcome);
      && s.settlements <= s'.settlements
      && |s'.calls| == |s.calls|
      && Added(s, s') == (if IsOpenCall(s, c) then [(c, outcome)] else [])
      && forall k: nat :: IsOpenCall(s', k) <==> IsOpenCall(s, k) && k != c
  {
    hide ClientsAgree, WaitingAgrees, LimitsAgree, CloseAgrees, SettledIn;
    SettledMeansAnswered(s);
    if c < |s.calls| && !s.calls[c].settled {
      SettleKeeps(s, c, outcome);
      SettledMeansAnswered(Settle(s, c, outcome));
    }
  }

  lemma SettledMeansAnswered(s: State)
    requires Sound(s)
    ensures forall c: nat :: IsOpenCall(s, c) <==> c < |s.calls| && !s.calls[c].settled
  {
    hide ClientsAgree, WaitingAgrees, LimitsAgree, CloseAgrees;
  }

  lemma OpenCallsWait(s: State)
    requires Sound(s)
    ensures forall c: nat :: IsOpenCall(s, c) ==> c in WaitingOn(s.waiting, s.current)
  {
    hide ClientsAgree, SettlementsAgree, LimitsAgree, CloseAgrees;
    SettledMeansAnswered(s);
  }

  lemma ALimitAnswers(s: State, c: nat)
    requires Sound(s) && Enabled(s, TimerFires(c))
    ensures AnswersRightly(s, TimerFires(c), Next(s, TimerFires(c)))
  {
    hide RefuseAll, Sound, IsOpenCall, WaitingOn;
    LimitIsLive(s, c);
    RefusingAnswers(s, WaitingOn(s.waiting, s.current), LimitRefused);
    OpenCallsWait(s);
  }

  lemma LimitIsLive(s: State, c: nat)
    requires Sound(s) && Enabled(s, TimerFires(c))
    ensures !s.calls[c].settled && s.calls[c].client == s.current
  {
    hide ClientsAgree, SettlementsAgree, CloseAgrees;
  }

  lemma TheCloseAnswers(s: State)
    requires Sound(s) && Enabled(s, CloseSettles)
    ensures AnswersRightly(s, CloseSettles, Next(s, CloseSettles))
  {
    hide RefuseAll, Sound, IsOpenCall, WaitingOn, PendingBelow;
    PendingIsWaiting(s);
    RefusingAnswers(s, PendingBelow(s.waiting, s.opening), ClosedRefused);
    OpenCallsWait(s);
  }

  lemma NextAnswersRightly(s: State, e: Event)
    requires Sound(s)
    ensures AnswersRightly(s, e, Next(s, e))
  {
    hide Sound, Settle, RefuseAll, DisarmAll, PendingBelow, IsOpenCall, Destroy;
    match e
    case WorkSettles(c, ok) =>
      SettlingAnswers(s, c, Answered(ok));
      NoCallIsOpen(s, c);
    case TimerFires(c) =>
      if Enabled(s, e) {
        ALimitAnswers(s, c);
      }
    case CloseSettles =>
      if Enabled(s, e) {
        TheCloseAnswers(s);
      }
    case CloseCalled =>
      DisarmAllKeeps(s.(closed := true), PendingBelow(s.waiting, s.opening));
    case _ =>
  }

  lemma NoCallIsOpen(s: State, c: nat)
    ensures c >= |s.calls| ==> !IsOpenCall(s, c)
  {
  }

  // ------------------------------------------------------------------
  // Where an answer comes from.

  lemma {:induction false} RunAppends(s: State, events: seq<Event>, e: Event)
    ensures Run(s, events + [e]) == Next(Run(s, events), e)
    decreases |events|
  {
    hide Next;
    if events == [] {
      assert events + [e] == [e];
      assert Run(Next(s, e), [e][1..]) == Next(s, e);
    } else {
      assert (events + [e])[1..] == events[1..] + [e];
      RunAppends(Next(s, events[0]), events[1..], e);
    }
  }

  /** How often `run` was called. */
  function CallsIn(events: seq<Event>): nat {
    if events == [] then 0
    else CallsIn(events[..|events| - 1]) + if events[|events| - 1].RunCalled? then 1 else 0
  }

  /** The event at `t` is what answered the call so. */
  ghost predicate IsAnsweredAt(limitMs: nat, events: seq<Event>, t: nat, c: nat, outcome: Outcome) {
    t < |events|
    && match outcome
       case Answered(ok) => events[t] == WorkSettles(c, ok) && c < CallsIn(events[..t])
       case LimitRefused =>
         && events[t].TimerFires? && c < CallsIn(events[..t]) && CloseCalled !in events[..t]
         && Enabled(Run(Initial(limitMs), events[..t]), events[t])
       case ClosedRefused =>
         && CloseCalled in events[..t]
         && if events[t].RunCalled? then c == CallsIn(events[..t])
            else events[t].CloseSettles? && c < CallsIn(events[..t])
  }

  ghost predicate ComesFromAnEvent(limitMs: nat, events: seq<Event>, c: nat, outcome: Outcome) {
    exists t: nat :: IsAnsweredAt(limitMs, events, t, c, outcome)
  }

  /** The state knows of the events: how many calls there were, whether the close was called, what the end said. */
  ghost predicate Knows(s: State, events: seq<Event>) {
    && |s.calls| == CallsIn(events)
    && (s.closed <==> CloseCalled in events)
    && (s.currentEnd.Some? ==> CurrentEndSettles(s.currentEnd.value) in events)
  }

  lemma StepKnows(s: State, events: seq<Event>, e: Event)
    requires Sound(s) && Knows(s, events)
    ensures Knows(Next(s, e), events + [e])
  {
    hide Settle, RefuseAll, DisarmAll, PendingBelow, Sound, Destroy, WaitingOn;
    assert (events + [e])[..|events|] == events && (events + [e])[|events|] == e;
    match e
    case WorkSettles(c, ok) => SettleKeeps(s, c, Answered(ok));
    case TimerFires(c) =>
      if Enabled(s, e) {
        ALimitKeepsTheEvents(s, c);
      }
    case CloseSettles => RefuseAllKeeps(s, PendingBelow(s.waiting, s.opening), ClosedRefused);
    case CloseCalled => DisarmAllKeeps(s.(closed := true), PendingBelow(s.waiting, s.opening));
    case _ =>
  }

  lemma ALimitKeepsTheEvents(s: State, c: nat)
    requires Sound(s) && Enabled(s, TimerFires(c))
    ensures var s' := Next(s, TimerFires(c));
            |s'.calls| == |s.calls| && s'.closed == s.closed && s'.currentEnd == s.currentEnd
  {
    hide RefuseAll, Sound, WaitingOn;
    RefuseAllKeeps(s, WaitingOn(s.waiting, s.calls[c].client), LimitRefused);
  }

  lemma {:induction false} RunKnows(limitMs: nat, events: seq<Event>)
    ensures var s := Run(Initial(limitMs), events); Sound(s) && Knows(s, events)
    decreases |events|
  {
    hide Sound, Next;
    InitialIsSound(limitMs);
    RunIsSound(Initial(limitMs), events);
    if events != [] {
      var before, e := events[..|events| - 1], events[|events| - 1];
      RunKnows(limitMs, before);
      RunAppends(Initial(limitMs), before, e);
      assert before + [e] == events;
      StepKnows(Run(Initial(limitMs), before), before, e);
    }
  }

  lemma AnsweredAtStays(limitMs: nat, events: seq<Event>, e: Event, c: nat, outcome: Outcome)
    requires ComesFromAnEvent(limitMs, events, c, outcome)
    ensures ComesFromAnEvent(limitMs, events + [e], c, outcome)
  {
    hide Run, Enabled, CallsIn;
    var t: nat :| IsAnsweredAt(limitMs, events, t, c, outcome);
    assert (events + [e])[..t] == events[..t];
    assert IsAnsweredAt(limitMs, events + [e], t, c, outcome);
  }

  /** What the last event adds comes from it. */
  lemma TheLastEventAnswers(limitMs: nat, events: seq<Event>, e: Event, c: nat, outcome: Outcome)
    requires var s := Run(Initial(limitMs), events);
             Sound(s) && Knows(s, events) && AnswersRightly(s, e, Next(s, e)) && (c, outcome) in Added(s, Next(s, e))
    ensures IsAnsweredAt(limitMs, events + [e], |events|, c, outcome)
  {
    hide Run, Next, CallsIn, ClientsAgree, WaitingAgrees, SettlementsAgree;
    assert (events + [e])[..|events|] == events && (events + [e])[|events|] == e;
    var s := Run(Initial(limitMs), events);
    NothingIsAdded(s);
  }

  lemma NothingIsAdded(s: State)
    ensures Added(s, s) == []
  {
  }

  /**
   * Every answer of a run comes from an event of its own: a query's from the
   * settling of that call's own query, with its success or failure as it came; the
   * refusal over a limit from a limit that fired on an open handle after the call
   * was made; the refusal over the close from a call made after it, or from the
   * end of the close.
   */
  lemma {:induction false} AnswersComeFromTheirEvents(limitMs: nat, events: seq<Event>, c: nat, outcome: Outcome)
    requires (c, outcome) in Run(Initial(limitMs), events).settlements
    ensures ComesFromAnEvent(limitMs, events, c, outcome)
    decreases |events|
  {
    hide Sound, Next, Knows, AnswersRightly, ComesFromAnEvent, IsAnsweredAt;
    if events != [] {
      var before, e := events[..|events| - 1], events[|events| - 1];
      var s := Run(Initial(limitMs), before);
      RunAppends(Initial(limitMs), before, e);
      assert before + [e] == events;
      RunKnows(limitMs, before);
      NextAnswersRightly(s, e);
      OldOrAdded(s, e, c, outcome);
      if (c, outcome) in s.settlements {
        AnswersComeFromTheirEvents(limitMs, before, c, outcome);
        AnsweredAtStays(limitMs, before, e, c, outcome);
      } else {
        TheLastEventAnswers(limitMs, before, e, c, outcome);
        ItComesFrom(limitMs, events, |before|, c, outcome);
      }
    }
  }

  lemma ItComesFrom(limitMs: nat, events: seq<Event>, t: nat, c: nat, outcome: Outcome)
    requires IsAnsweredAt(limitMs, events, t, c, outcome)
    ensures ComesFromAnEvent(limitMs, events, c, outcome)
  {
    hide IsAnsweredAt;
  }

  lemma OldOrAdded(s: State, e: Event, c: nat, outcome: Outcome)
    requires AnswersRightly(s, e, Next(s, e)) && (c, outcome) in Next(s, e).settlements
    ensures (c, outcome) in s.settlements || (c, outcome) in Added(s, Next(s, e))
  {
    hide Next, Enabled, AnswersAllWith;
    var s' := Next(s, e);
    assert s'.settlements == s.settlements + s'.settlements[|s.settlements|..];
  }

  /** Of every run: what its next event answers. */
  lemma EveryEventAnswersRightly(limitMs: nat, events: seq<Event>, e: Event)
    ensures var s := Run(Initial(limitMs), events);
      && AnswersRightly(s, e, Next(s, e))
      && |s.calls| == CallsIn(events) && (s.closed <==> CloseCalled in events)
  {
    hide Run, Next, AnswersRightly;
    RunKnows(limitMs, events);
    NextAnswersRightly(Run(Initial(limitMs), events), e);
  }

  // ------------------------------------------------------------------
  // A close comes to its end.

  /** The close answers as the end of the current client came. */
  lemma TheCloseAnswersAsItEnded(limitMs: nat, events: seq<Event>, ok: bool)
    requires Run(Initial(limitMs), events).answer == Some(ok)
    ensures CurrentEndSettles(ok) in events && CloseCalled in events
  {
    RunKnows(limitMs, events);
  }

  /** From any closed handle whose close has not settled, the ends still out alone bring it to its answer. */
  lemma {:induction false} AClosedHandleCanSettle(s: State, ok: bool) returns (events: seq<Event>)
    requires Sound(s) && s.closed && s.answer.None? && (s.currentEnd == None || s.currentEnd == Some(ok))
    ensures forall e <- events :: e.EndSettles? || e.CurrentEndSettles? || e.CloseSettles?
    ensures Run(s, events).answer == Some(ok)
    decreases |s.destroying|, s.currentEnd.None?
  {
    var e: Event;
    if client :| client in s.destroying {
      e := EndSettles(client);
      Shrinks(s.destroying, client);
    } else if s.currentEnd.None? {
      e := CurrentEndSettles(ok);
    } else {
      events := [CloseSettles];
      TheEndAnswers(s);
      return;
    }
    NextIsSound(s, e);
    var rest := AClosedHandleCanSettle(Next(s, e), ok);
    events := [e] + rest;
    assert events[1..] == rest;
  }

  lemma Shrinks(clients: set<Client>, client: Client)
    requires client in clients
    ensures |clients - {client}| < |clients|
  {
  }

  lemma TheEndAnswers(s: State)
    requires Sound(s) && Enabled(s, CloseSettles)
    ensures Run(s, [CloseSettles]).answer == s.currentEnd
  {
    hide Sound, RefuseAll, PendingBelow;
    RefuseAllKeeps(s, PendingBelow(s.waiting, s.opening), ClosedRefused);
    assert Run(Next(s, CloseSettles), [CloseSettles][1..]) == Next(s, CloseSettles);
  }

  // ------------------------------------------------------------------
  // A limit comes due.

  /** The call not answered yet that was made first, of those below `bound`. */
  predicate IsFirstOpen(s: State, c: nat, bound: nat) {
    && c < bound <= |s.calls| && s.calls[c].armed
    && forall k | 0 <= k < bound && s.calls[k].armed :: s.calls[c].started <= s.calls[k].started
  }

  lemma {:induction false} SomeIsFirst(s: State, bound: nat, known: nat)
    requires known < bound <= |s.calls| && s.calls[known].armed
    ensures exists c: nat :: IsFirstOpen(s, c, bound)
    decreases bound
  {
    if exists k :: 0 <= k < bound - 1 && s.calls[k].armed {
      var k :| 0 <= k < bound - 1 && s.calls[k].armed;
      SomeIsFirst(s, bound - 1, k);
      var c: nat :| IsFirstOpen(s, c, bound - 1);
      var last := s.calls[bound - 1];
      assert IsFirstOpen(s, if last.armed && last.started < s.calls[c].started then bound - 1 else c, bound);
    } else {
      assert IsFirstOpen(s, known, bound);
    }
  }

  predicate ComesDue(s: State, c: nat, ms: nat) {
    Enabled(s, Passes(ms)) && Enabled(Next(s, Passes(ms)), TimerFires(c))
  }

  /** However long its queries hang, time brings an open handle with a call not answered to the limit of one. */
  lemma ALimitComesDue(limitMs: nat, events: seq<Event>, open: nat)
    requires var s := Run(Initial(limitMs), events); !s.closed && IsOpenCall(s, open)
    ensures var s := Run(Initial(limitMs), events);
            exists c: nat, ms: nat :: IsOpenCall(s, c) && ComesDue(s, c, ms)
  {
    hide Run, IsOpenCall;
    InitialIsSound(limitMs);
    RunIsSound(Initial(limitMs), events);
    var s := Run(Initial(limitMs), events);
    SettledMeansAnswered(s);
    SomeIsFirst(s, |s.calls|, open);
    var c: nat :| IsFirstOpen(s, c, |s.calls|);
    FirstComesDue(s, c);
  }

  lemma FirstComesDue(s: State, c: nat)
    requires Sound(s) && IsFirstOpen(s, c, |s.calls|)
    ensures !s.calls[c].settled && exists ms: nat :: ComesDue(s, c, ms)
  {
    hide ClientsAgree, WaitingAgrees, SettlementsAgree, CloseAgrees;
    assert ComesDue(s, c, s.calls[c].started + s.limitMs - s.now);
  }
}
