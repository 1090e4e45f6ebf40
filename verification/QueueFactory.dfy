/**
 * The factory of createQueueFactory: the variables its closures share, changed by
 * its calls, by the verdicts on its queues and by its close. Every method is the
 * event of the machine it stands for.
 */
module QueueFactory {
  import opened Wrappers
  import opened Queues

  class Factory {
    const registry: set<Name>
    const readOnly: bool
    var queues: seq<Queue>
    var cache: map<Name, nat>
    var refusalWritten: set<Name>
    var inFlight: set<nat>
    var passes: nat
    var forgotten: set<nat>
    var delayed: set<(nat, nat)>
    var phase: Phase
    ghost var log: seq<Act>

    constructor (registry: set<Name>, readOnly: bool)
      ensures Model() == Initial(registry, readOnly)
    {
      this.registry, this.readOnly := registry, readOnly;
      queues, cache, refusalWritten, inFlight, passes := [], map[], {}, {}, 0;
      forgotten, delayed, phase, log := {}, {}, Open, [];
    }

    ghost function Model(): State
      reads this
    {
      State(registry, readOnly, queues, cache, refusalWritten, inFlight, passes, forgotten, delayed, phase, log)
    }

    /** The queue of a name: the one cached, or one built for it; a closed factory and an unknown name throw. */
    method GetQueue(name: Name) returns (got: Got)
      modifies this
      ensures got == Answer(old(Model()), name) && Model() == Get(old(Model()), name)
    {
      if phase != Open {
        return AfterClose;
      }
      if name in cache {
        log := log + [HandedOut(cache[name])];
        return Handed(cache[name]);
      }
      if name !in registry {
        return UnknownName;
      }
      var q := |queues|;
      queues := queues + [Queue(name, Pending, NotClosing, None)];
      cache := cache[name := q];
      log := log + [HandedOut(q)];
      got := Handed(q);
    }

    /** A read of a queue, in flight until it settles. */
    method Use(name: Name) returns (got: Got)
      modifies this
      ensures got == Answer(old(Model()), name) && Model() == Next(old(Model()), UseCalled(name))
    {
      hide Get, Answer;
      got := GetQueue(name);
      GetKeepsReads(old(Model()), name);
      if got.Handed? {
        inFlight, passes := inFlight + {passes}, passes + 1;
      } else {
        GetRefused(old(Model()), name);
      }
    }

    method PassSettled(pass: nat)
      requires Enabled(Model(), PassSettles(pass))
      modifies this
      ensures Model() == Next(old(Model()), PassSettles(pass))
    {
      inFlight := inFlight - {pass};
    }

    method ForgetQueue(name: Name, q: nat)
      requires q < |queues| && queues[q].name == name
      modifies this
      ensures Model() == Forget(old(Model()), q)
    {
      if !(name in cache && cache[name] == q) {
        return;
      }
      cache := cache - {name};
      queues := queues[q := queues[q].(closing := Forgotten)];
      forgotten := forgotten + {q};
      log := log + [QueueCloseStarted(q, false)];
    }

    /** The verdict on a queue's init, taken once. */
    method InitSettled(q: nat, verdict: Verdict)
      requires Enabled(Model(), InitSettles(q, verdict))
      modifies this
      ensures Model() == Next(old(Model()), InitSettles(q, verdict))
    {
      hide Forget;
      var name := queues[q].name;
      queues := queues[q := queues[q].(verdict := verdict)];
      if verdict.Refused? {
        var refusal := verdict.refusal;
        log := log + [InitRefused(q, refusal.error)];
        if !readOnly && phase == Open && name in cache && cache[name] == q
           && !refusal.ofConnection && !refusal.ofCredentials && name !in refusalWritten {
          refusalWritten := refusalWritten + {name};
          log := log + [RefusalLine(name)];
        }
        ForgetQueue(name, q);
      }
    }

    method WriteQueueError(q: nat, error: nat)
      requires q < |queues|
      modifies this
      ensures Model() == WriteError(old(Model()), q, error)
    {
      if phase != Open {
        return;
      }
      if queues[q].verdict.Refused? && queues[q].verdict.refusal.error == error {
        return;
      }
      log := log + [ErrorLine(q, error)];
    }

    /** An error a queue hears: of the client, of a queue whose verdict is in, or put off until it may be. */
    method HearError(q: nat, error: nat, ofClient: bool)
      requires Enabled(Model(), ErrorHeard(q, error, ofClient))
      modifies this
      ensures Model() == Next(old(Model()), ErrorHeard(q, error, ofClient))
    {
      if ofClient {
        return;
      }
      if !queues[q].verdict.Pending? {
        WriteQueueError(q, error);
        return;
      }
      delayed := delayed + {(q, error)};
    }

    method DelayPassed(q: nat, error: nat)
      requires Enabled(Model(), DelayPasses(q, error))
      modifies this
      ensures Model() == Next(old(Model()), DelayPasses(q, error))
    {
      delayed := delayed - {(q, error)};
      if q < |queues| {
        WriteQueueError(q, error);
      }
    }

    /** The one close: a second caller changes nothing. */
    method Close()
      modifies this
      ensures Model() == Next(old(Model()), CloseCalled)
    {
      hide CloseQueues;
      if phase != Open {
        return;
      }
      log := log + [CloseBegun];
      if inFlight != {} {
        phase := Draining(inFlight);
        return;
      }
      CloseCached();
    }

    method CloseCached()
      modifies this
      ensures Model() == CloseQueues(old(Model()))
    {
      hide CloseEach, CachedBelow;
      var cached := CachedQueues();
      cache := map[];
      phase := Waiting(forgotten);
      CloseAll(cached);
    }

    method CachedQueues() returns (cached: seq<nat>)
      ensures cached == CachedBelow(Model(), |queues|)
    {
      cached := [];
      for q := 0 to |queues|
        invariant cached == CachedBelow(Model(), q)
      {
        if queues[q].name in cache && cache[queues[q].name] == q {
          cached := cached + [q];
        }
      }
    }

    method CloseAll(cached: seq<nat>)
      modifies this
      ensures Model() == CloseEach(old(Model()), cached)
    {
      var i := 0;
      while i < |cached|
        invariant i <= |cached|
        invariant CloseEach(Model(), cached[i..]) == CloseEach(old(Model()), cached)
      {
        var q := cached[i];
        assert cached[i..][0] == q && cached[i..][1..] == cached[i + 1..];
        if q < |queues| {
          queues := queues[q := queues[q].(closing := ByTheClose)];
          log := log + [QueueCloseStarted(q, true)];
        }
        i := i + 1;
      }
    }

    method DrainEnded(timedOut: bool)
      requires Enabled(Model(), DrainEnds(timedOut))
      modifies this
      ensures Model() == Next(old(Model()), DrainEnds(timedOut))
    {
      hide CloseQueues;
      CloseCached();
    }

    method QueueClosed(q: nat, ok: bool)
      requires Enabled(Model(), QueueCloses(q, ok))
      modifies this
      ensures Model() == Next(old(Model()), QueueCloses(q, ok))
    {
      queues := queues[q := queues[q].(closed := Some(ok))];
      forgotten := forgotten - {q};
      log := log + [QueueCloseSettled(q)];
    }

    /** The closes are settled: the refusals among them are the answer, and the mark comes off. */
    method CloseEnded(timedOut: bool) returns (refusals: seq<nat>)
      requires Enabled(Model(), CloseEnds(timedOut))
      modifies this
      ensures Model() == Next(old(Model()), CloseEnds(timedOut))
      ensures refusals == Model().phase.refusals
    {
      refusals := [];
      for q := 0 to |queues|
        invariant refusals == RefusedBelow(queues, q)
      {
        if queues[q].closing.ByTheClose? && queues[q].closed == Some(false) {
          refusals := refusals + [q];
        }
      }
      phase := Settled(refusals);
      log := log + [MarkTakenOff];
    }
  }

  lemma GetRefused(s: State, name: Name)
    ensures !Answer(s, name).Handed? ==> Get(s, name) == s
  {
  }
}
