/**
 * The handle of createProbeDb: the variables its closures share, changed by its
 * calls, its timers and its close. Every method is the event of the machine it
 * stands for.
 */
module ProbeHandle {
  import opened Wrappers
  import opened Probe

  /** The refusal of bounds a probe handle cannot be opened with. */
  datatype Refusal = NotPositiveWhole(name: string) | StatementNotBelowLimit

  predicate IsBound(ms: real) {
    ms.Floor as real == ms && ms > 0.0
  }

  predicate IsCount(n: nat, ms: real) {
    n > 0 && ms == n as real
  }

  lemma ABoundIsACount(ms: real)
    ensures IsBound(ms) <==> exists n: nat :: IsCount(n, ms)
  {
    if IsBound(ms) {
      assert IsCount(ms.Floor, ms);
    }
  }

  /** Why a handle with these bounds is refused, if it is. */
  function Refuses(limitMs: real, statementTimeoutMs: real): Option<Refusal> {
    if !IsBound(limitMs) then Some(NotPositiveWhole("limitMs"))
    else if !IsBound(statementTimeoutMs) then Some(NotPositiveWhole("statementTimeoutMs"))
    else if !(statementTimeoutMs < limitMs) then Some(StatementNotBelowLimit)
    else None
  }

  class Handle {
    const limitMs: nat
    var now: nat
    var current: Client
    var opening: nat
    var closed: bool
    var waiting: map<Client, seq<nat>>
    var calls: seq<Call>
    var destroying: set<Client>
    var awaited: set<Client>
    var currentEnd: Option<bool>
    var closing: Option<bool>
    var told: nat
    ghost var ends: seq<Client>
    ghost var settlements: seq<(nat, Outcome)>

    constructor (limitMs: nat)
      ensures Model() == Initial(limitMs)
    {
      this.limitMs := limitMs;
      now, current, opening, closed := 0, 0, 1, false;
      waiting, calls, destroying, awaited := map[], [], {}, {};
      currentEnd, closing, told := None, None, 0;
      ends, settlements := [], [];
    }

    ghost function Model(): State
      reads this
    {
      State(limitMs, now, current, opening, closed, waiting, calls, destroying, ends, told, awaited, currentEnd,
            closing, settlements)
    }

    /** Settles a call, unless it has settled already; its limit is cleared. */
    method SettleCall(c: nat, ghost outcome: Outcome)
      modifies this
      ensures Model() == Settle(old(Model()), c, outcome)
    {
      if c >= |calls| || calls[c].settled {
        return;
      }
      var client := calls[c].client;
      calls := calls[c := calls[c].(settled := true, armed := false)];
      if client in waiting {
        waiting := waiting[client := Without(waiting[client], c)];
      }
      settlements := settlements + [(c, outcome)];
    }

    method Refuse(pending: seq<nat>, ghost outcome: Outcome)
      modifies this
      ensures Model() == RefuseAll(old(Model()), pending, outcome)
    {
      hide Settle;
      var i := 0;
      while i < |pending|
        invariant i <= |pending|
        invariant RefuseAll(Model(), pending[i..], outcome) == RefuseAll(old(Model()), pending, outcome)
      {
        assert pending[i..][0] == pending[i] && pending[i..][1..] == pending[i + 1..];
        SettleCall(pending[i], outcome);
        i := i + 1;
      }
    }

    method DisarmCalls(pending: seq<nat>)
      modifies this
      ensures Model() == DisarmAll(old(Model()), pending)
    {
      var i := 0;
      while i < |pending|
        invariant i <= |pending|
        invariant DisarmAll(Model(), pending[i..]) == DisarmAll(old(Model()), pending)
      {
        assert pending[i..][0] == pending[i] && pending[i..][1..] == pending[i + 1..];
        if pending[i] < |calls| {
          calls := calls[pending[i] := calls[pending[i]].(armed := false)];
        }
        i := i + 1;
      }
    }

    method DestroyClient(client: Client)
      modifies this
      ensures Model() == Destroy(old(Model()), client)
    {
      hide RefuseAll;
      Refuse(if client in waiting then waiting[client] else [], LimitRefused);
      waiting := waiting - {client};
      if client != current {
        return;
      }
      current, opening := opening, opening + 1;
      destroying, ends := destroying + {client}, ends + [client];
      told := told + 1;
    }

    /** A call: refused at once by a closed handle, and else waiting on the current client under a limit of its own. */
    method RunCall() returns (c: nat)
      modifies this
      ensures c == |old(calls)| && Model() == Next(old(Model()), RunCalled)
    {
      c := |calls|;
      if closed {
        calls := calls + [Call(current, now, false, true)];
        settlements := settlements + [(c, ClosedRefused)];
        return;
      }
      var client := current;
      if client !in waiting {
        waiting := waiting[client := []];
      }
      waiting := waiting[client := waiting[client] + [c]];
      calls := calls + [Call(client, now, true, false)];
    }

    method WorkSettled(c: nat, ok: bool)
      modifies this
      ensures Model() == Next(old(Model()), WorkSettles(c, ok))
    {
      SettleCall(c, Answered(ok));
    }

    method TimerFired(c: nat)
      requires Enabled(Model(), TimerFires(c))
      modifies this
      ensures Model() == Next(old(Model()), TimerFires(c))
    {
      hide Destroy, Enabled;
      LiveTimerIsOfACall(Model(), c);
      if !calls[c].settled {
        DestroyClient(calls[c].client);
      }
    }

    method ClientEnded(client: Client)
      requires Enabled(Model(), EndSettles(client))
      modifies this
      ensures Model() == Next(old(Model()), EndSettles(client))
    {
      destroying := destroying - {client};
    }

    /** The first call of the close disarms every limit and ends the current client; a later one changes nothing. */
    method Close()
      modifies this
      ensures Model() == Next(old(Model()), CloseCalled)
    {
      hide DisarmAll, PendingBelow;
      if closed {
        return;
      }
      closed := true;
      DisarmCalls(PendingBelow(waiting, opening));
      ends, awaited := ends + [current], destroying;
    }

    method CurrentEnded(ok: bool)
      requires Enabled(Model(), CurrentEndSettles(ok))
      modifies this
      ensures Model() == Next(old(Model()), CurrentEndSettles(ok))
    {
      currentEnd := Some(ok);
    }

    /** The ends the close waits for are all settled: what they left unanswered is refused. */
    method CloseSettled()
      requires Enabled(Model(), CloseSettles)
      modifies this
      ensures Model() == Next(old(Model()), CloseSettles)
    {
      hide RefuseAll, PendingBelow;
      ghost var was := Model();
      Refuse(PendingBelow(waiting, opening), ClosedRefused);
      RefusingKeepsTheEnd(was, PendingBelow(was.waiting, was.opening));
      closing := currentEnd;
    }
  }

  lemma LiveTimerIsOfACall(s: State, c: nat)
    requires Enabled(s, TimerFires(c))
    ensures c < |s.calls|
  {
  }

  lemma {:induction false} RefusingKeepsTheEnd(s: State, pending: seq<nat>)
    ensures RefuseAll(s, pending, ClosedRefused).currentEnd == s.currentEnd
    decreases |pending|
  {
    if pending != [] {
      RefusingKeepsTheEnd(Settle(s, pending[0], ClosedRefused), pending[1..]);
    }
  }

  /** A handle opens exactly when both bounds are whole milliseconds above 0 and the server's comes first. */
  method CreateProbeDb(limitMs: real, statementTimeoutMs: real) returns (handle: Handle?, refusal: Option<Refusal>)
    ensures handle != null <==> IsBound(limitMs) && IsBound(statementTimeoutMs) && statementTimeoutMs < limitMs
    ensures refusal == if !IsBound(limitMs) then Some(NotPositiveWhole("limitMs"))
                       else if !IsBound(statementTimeoutMs) then Some(NotPositiveWhole("statementTimeoutMs"))
                       else if statementTimeoutMs >= limitMs then Some(StatementNotBelowLimit)
                       else None
    ensures handle != null ==> fresh(handle) && handle.Model() == Initial(limitMs.Floor)
  {
    handle, refusal := null, Refuses(limitMs, statementTimeoutMs);
    if refusal.None? {
      handle := new Handle(limitMs.Floor);
    }
  }
}
