/**
 * The sync that brings the job schedulers a store keeps to the ones declared:
 * upserts, then a paginated listing of every queue and the removal of the strays.
 */
module Schedules {

  type Name = string
  type Id = string
  type Pattern = string

  datatype Declaration = Declaration(queue: Name, id: Id, pattern: Pattern)

  datatype Synced = Synced(declared: seq<(Name, Id)>, removed: seq<(Name, Id)>)

  const PAGE_SIZE: nat := 100

  predicate Distinct<T(==)>(s: seq<T>) {
    forall i, j | 0 <= i < j < |s| :: s[i] != s[j]
  }

  /** What a queue should hold: each id declared for it, with the pattern declared last. */
  function DeclaredFor(schedules: seq<Declaration>, queue: Name): map<Id, Pattern> {
    if schedules == [] then map[]
    else
      var last := schedules[|schedules| - 1];
      var before := DeclaredFor(schedules[..|schedules| - 1], queue);
      if last.queue == queue then before[last.id := last.pattern] else before
  }

  /** Every declared id with its queue, in the order declared. */
  function IdsOf(schedules: seq<Declaration>): seq<(Name, Id)> {
    seq(|schedules|, i requires 0 <= i < |schedules| => (schedules[i].queue, schedules[i].id))
  }

  /** The ids declared for a queue; none for a queue without a declaration. */
  function Known(declared: map<Name, set<Id>>, queue: Name): set<Id> {
    if queue in declared then declared[queue] else {}
  }

  function Restricted(patterns: map<Id, Pattern>, known: set<Id>): map<Id, Pattern> {
    map id | id in patterns && id in known :: patterns[id]
  }

  /** Each queue holds what it held, laid over with what is declared for it. */
  predicate Upserted(now: map<Name, map<Id, Pattern>>, was: map<Name, map<Id, Pattern>>, schedules: seq<Declaration>) {
    now.Keys == was.Keys && forall name <- now :: now[name] == was[name] + DeclaredFor(schedules, name)
  }

  /** What is there and not declared. */
  predicate IsStray(patterns: map<Name, map<Id, Pattern>>, known: set<Id>, name: Name, id: Id) {
    name in patterns && id in patterns[name] && id !in known
  }

  /**
   * The schedulers of a store, queue by queue: their patterns, and the order a
   * listing gives them in, of which nothing is promised.
   */
  class Store {
    const registry: seq<Name>
    var patterns: map<Name, map<Id, Pattern>>
    var listing: map<Name, seq<Id>>

    ghost predicate Valid()
      reads this
    {
      && Distinct(registry)
      && (forall name <- registry :: name in patterns && name in listing)
      && (forall name <- registry ::
            Distinct(listing[name]) && forall id :: id in listing[name] <==> id in patterns[name])
    }

    method Upsert(queue: Name, id: Id, pattern: Pattern)
      requires Valid() && queue in registry
      modifies this
      ensures Valid() && patterns == old(patterns)[queue := old(patterns)[queue][id := pattern]]
    {
      if id !in patterns[queue] {
        listing := listing[queue := listing[queue] + [id]];
      }
      patterns := patterns[queue := patterns[queue][id := pattern]];
    }

    method Remove(queue: Name, id: Id) returns (was: bool)
      requires Valid() && queue in registry
      modifies this
      ensures Valid() && patterns == old(patterns)[queue := old(patterns)[queue] - {id}]
      ensures was == (id in old(patterns)[queue])
    {
      was := id in patterns[queue];
      DropKeeps(listing[queue], id);
      patterns := patterns[queue := patterns[queue] - {id}];
      listing := listing[queue := Drop(listing[queue], id)];
    }

    /** The schedulers from `start` to `end` of the listing, both included. */
    method GetRange(queue: Name, start: nat, end: nat) returns (page: seq<Id>)
      requires Valid() && queue in registry && start <= end
      ensures var all := listing[queue];
              page == if start >= |all| then [] else if end >= |all| then all[start..] else all[start..end + 1]
    {
      var all := listing[queue];
      page := if start >= |all| then [] else if end >= |all| then all[start..] else all[start..end + 1];
    }

    /** Every scheduler of a queue, page by page: the loop ends, and misses none past a page. */
    method ListIds(queue: Name) returns (ids: seq<Id>)
      requires Valid() && queue in registry
      ensures ids == listing[queue]
    {
      ids := [];
      var start := 0;
      while true
        invariant start <= |listing[queue]| + PAGE_SIZE
        invariant start <= |listing[queue]| && ids == listing[queue][..start]
        decreases |listing[queue]| + PAGE_SIZE - start
      {
        var page := GetRange(queue, start, start + PAGE_SIZE - 1);
        ids := ids + page;
        if |page| < PAGE_SIZE {
          return;
        }
        start := start + PAGE_SIZE;
      }
    }

    method UpsertAll(schedules: seq<Declaration>)
      requires Valid() && forall d <- schedules :: d.queue in registry
      modifies this
      ensures Valid() && Upserted(patterns, old(patterns), schedules)
    {
      hide Upserted, Distinct;
      var n := 0;
      NothingUpserted(patterns);
      while n < |schedules|
        invariant n <= |schedules| && Valid() && Upserted(patterns, old(patterns), schedules[..n])
      {
        var d := schedules[n];
        OneMoreUpserted(patterns, old(patterns), schedules, n);
        Upsert(d.queue, d.id, d.pattern);
        n := n + 1;
      }
      assert schedules[..n] == schedules;
    }

    /** Removes from one queue every scheduler that is not known. */
    method RemoveStrays(queue: Name, known: set<Id>) returns (removed: seq<(Name, Id)>)
      requires Valid() && queue in registry
      modifies this
      ensures Valid() && patterns == old(patterns)[queue := Restricted(old(patterns)[queue], known)]
      ensures Distinct(removed)
      ensures forall name, id :: (name, id) in removed <==> name == queue && IsStray(old(patterns), known, queue, id)
    {
      hide Distinct, Left, Restricted;
      removed := [];
      var ids := ListIds(queue);
      ghost var was := patterns[queue];
      var n := 0;
      DistinctEmpty();
      NoneSeen(was, known);
      assert patterns == patterns[queue := was];
      while n < |ids|
        invariant n <= |ids| && Valid() && Distinct(ids)
        invariant forall id :: id in ids <==> id in was
        invariant patterns == old(patterns)[queue := Left(was, known, ids[..n])]
        invariant Distinct(removed)
        invariant forall name, id :: (name, id) in removed <==> name == queue && id in ids[..n] && id !in known
      {
        var id := ids[n];
        assert ids[..n + 1] == ids[..n] + [id];
        NotAmongTheFirst(ids, n);
        OneMoreSeen(was, known, ids[..n], id);
        if id !in known {
          var _ := Remove(queue, id);
          DistinctGrows(removed, (queue, id));
          removed := removed + [(queue, id)];
        }
        n := n + 1;
      }
      assert ids[..n] == ids;
      AllSeen(was, known, ids);
    }

    /** Walks the whole registry for strays, the queues without a declaration included. */
    method RemoveUndeclared(declared: map<Name, set<Id>>) returns (removed: seq<(Name, Id)>)
      requires Valid()
      modifies this
      ensures Valid() && patterns.Keys == old(patterns).Keys
      ensures forall name <- registry :: patterns[name] == Restricted(old(patterns)[name], Known(declared, name))
      ensures Distinct(removed)
      ensures forall name, id :: (name, id) in removed <==>
                name in registry && IsStray(old(patterns), Known(declared, name), name, id)
    {
      hide Distinct, Restricted, IsStray, Known;
      removed := [];
      var n := 0;
      DistinctEmpty();
      while n < |registry|
        invariant n <= |registry| && Valid() && patterns.Keys == old(patterns).Keys
        invariant forall name <- registry[..n] ::
                    patterns[name] == Restricted(old(patterns)[name], Known(declared, name))
        invariant forall name <- patterns :: name !in registry[..n] ==> patterns[name] == old(patterns)[name]
        invariant Distinct(removed)
        invariant forall name, id :: (name, id) in removed <==>
                    name in registry[..n] && IsStray(old(patterns), Known(declared, name), name, id)
      {
        var queue := registry[n];
        assert registry[..n + 1] == registry[..n] + [queue];
        NotAmongTheFirstNames(registry, n);
        ghost var was := patterns;
        var strays := RemoveStrays(queue, Known(declared, queue));
        SameStrays(was, old(patterns), Known(declared, queue), queue);
        forall x <- strays
          ensures x !in removed
        {
          assert x == (x.0, x.1);
        }
        DistinctJoins(removed, strays);
        removed := removed + strays;
        n := n + 1;
      }
      assert registry[..n] == registry;
    }

    /**
     * After the sync every registered queue holds exactly what is declared for it,
     * with the last pattern declared; what was removed is what was there and is
     * not declared, each once.
     */
    method SyncSchedules(schedules: seq<Declaration>) returns (synced: Synced)
      requires Valid() && forall d <- schedules :: d.queue in registry
      modifies this
      ensures Valid()
      ensures forall name <- registry :: patterns[name] == DeclaredFor(schedules, name)
      ensures Distinct(synced.removed)
      ensures forall name, id :: (name, id) in synced.removed <==>
                name in registry && id in old(patterns)[name] && id !in DeclaredFor(schedules, name)
      ensures |synced.declared| == |schedules|
      ensures forall i | 0 <= i < |schedules| :: synced.declared[i] == (schedules[i].queue, schedules[i].id)
    {
      hide Distinct, DeclaredFor, Known, Restricted;
      var declared := DeclaredIds(schedules);
      UpsertAll(schedules);
      forall name <- registry
        ensures Restricted(patterns[name], Known(declared, name)) == DeclaredFor(schedules, name)
      {
        RestrictedToDeclared(old(patterns)[name], DeclaredFor(schedules, name));
      }
      var removed := RemoveUndeclared(declared);
      synced := Synced(IdsOf(schedules), removed);
    }

    /** A sync that follows a sync of the same declarations removes nothing and changes nothing. */
    method SyncTwice(schedules: seq<Declaration>) returns (first: Synced, second: Synced)
      requires Valid() && forall d <- schedules :: d.queue in registry
      modifies this
      ensures second.removed == [] && second.declared == first.declared
      ensures Valid() && forall name <- registry :: patterns[name] == DeclaredFor(schedules, name)
    {
      hide DeclaredFor, Distinct;
      first := SyncSchedules(schedules);
      second := SyncSchedules(schedules);
      SomethingIsIn(second.removed);
    }
  }

  /** What is left of a queue once the schedulers in `seen` were looked at. */
  function Left(patterns: map<Id, Pattern>, known: set<Id>, seen: seq<Id>): map<Id, Pattern> {
    map id | id in patterns && (id in known || id !in seen) :: patterns[id]
  }

  lemma NoneSeen(patterns: map<Id, Pattern>, known: set<Id>)
    ensures Left(patterns, known, []) == patterns
  {
  }

  lemma OneMoreSeen(patterns: map<Id, Pattern>, known: set<Id>, seen: seq<Id>, id: Id)
    ensures Left(patterns, known, seen + [id])
            == if id in known then Left(patterns, known, seen) else Left(patterns, known, seen) - {id}
  {
  }

  lemma AllSeen(patterns: map<Id, Pattern>, known: set<Id>, seen: seq<Id>)
    requires forall id <- patterns :: id in seen
    ensures Left(patterns, known, seen) == Restricted(patterns, known)
  {
  }

  lemma SomethingIsIn(removed: seq<(Name, Id)>)
    ensures removed == [] || exists name, id :: (name, id) in removed
  {
    if removed != [] {
      assert (removed[0].0, removed[0].1) in removed;
    }
  }

  lemma RestrictedToDeclared(found: map<Id, Pattern>, declared: map<Id, Pattern>)
    ensures Restricted(found + declared, declared.Keys) == declared
  {
  }

  lemma SameStrays(a: map<Name, map<Id, Pattern>>, b: map<Name, map<Id, Pattern>>, known: set<Id>, name: Name)
    requires name in a && name in b && a[name] == b[name]
    ensures forall id :: IsStray(a, known, name, id) <==> IsStray(b, known, name, id)
  {
  }

  lemma NothingUpserted(patterns: map<Name, map<Id, Pattern>>)
    ensures forall schedules :: schedules == [] ==> Upserted(patterns, patterns, schedules)
  {
  }

  lemma OneMoreUpserted(now: map<Name, map<Id, Pattern>>, was: map<Name, map<Id, Pattern>>, schedules: seq<Declaration>,
                        n: nat)
    requires n < |schedules| && schedules[n].queue in now && Upserted(now, was, schedules[..n])
    ensures var d := schedules[n]; Upserted(now[d.queue := now[d.queue][d.id := d.pattern]], was, schedules[..n + 1])
  {
    hide DeclaredFor;
    OneMoreDeclared(schedules, n);
  }

  lemma OneMoreDeclared(schedules: seq<Declaration>, n: nat)
    requires n < |schedules|
    ensures var d := schedules[n];
            forall name :: DeclaredFor(schedules[..n + 1], name) ==
                           if d.queue == name then DeclaredFor(schedules[..n], name)[d.id := d.pattern]
                           else DeclaredFor(schedules[..n], name)
  {
    assert schedules[..n + 1][..n] == schedules[..n];
  }

  /** The ids declared, queue by queue. */
  method DeclaredIds(schedules: seq<Declaration>) returns (declared: map<Name, set<Id>>)
    ensures forall name :: Known(declared, name) == DeclaredFor(schedules, name).Keys
  {
    declared := map[];
    var n := 0;
    while n < |schedules|
      invariant n <= |schedules|
      invariant forall name :: Known(declared, name) == DeclaredFor(schedules[..n], name).Keys
    {
      var d := schedules[n];
      var ids := Known(declared, d.queue);
      assert schedules[..n + 1][..n] == schedules[..n];
      declared := declared[d.queue := ids + {d.id}];
      n := n + 1;
    }
    assert schedules[..n] == schedules;
  }

  function Drop(ids: seq<Id>, id: Id): (rest: seq<Id>)
    ensures forall k :: k in rest <==> k in ids && k != id
  {
    if ids == [] then [] else (if ids[0] == id then [] else [ids[0]]) + Drop(ids[1..], id)
  }

  lemma {:induction false} DropKeeps(ids: seq<Id>, id: Id)
    requires Distinct(ids)
    ensures Distinct(Drop(ids, id))
  {
    if ids != [] {
      assert ids[0] !in ids[1..];
      DropKeeps(ids[1..], id);
    }
  }

  lemma NotAmongTheFirst(ids: seq<Id>, n: nat)
    requires Distinct(ids) && n < |ids|
    ensures ids[n] !in ids[..n]
  {
  }

  lemma NotAmongTheFirstNames(names: seq<Name>, n: nat)
    requires Distinct(names) && n < |names|
    ensures names[n] !in names[..n]
  {
  }

  lemma DistinctEmpty()
    ensures Distinct<(Name, Id)>([])
  {
  }

  lemma DistinctGrows(s: seq<(Name, Id)>, x: (Name, Id))
    requires Distinct(s) && x !in s
    ensures Distinct(s + [x])
  {
  }

  lemma DistinctJoins(a: seq<(Name, Id)>, b: seq<(Name, Id)>)
    requires Distinct(a) && Distinct(b) && forall x <- b :: x !in a
    ensures Distinct(a + b)
  {
    forall i, j | 0 <= i < j < |a + b|
      ensures (a + b)[i] != (a + b)[j]
    {
      assert j >= |a| ==> (a + b)[j] == b[j - |a|] && b[j - |a|] in b;
    }
  }

  /** The pattern declared last for an id is the one a queue should hold. */
  lemma {:induction false} TheLastPatternCounts(schedules: seq<Declaration>, queue: Name, id: Id)
    ensures id in DeclaredFor(schedules, queue)
            <==> exists i | 0 <= i < |schedules| :: schedules[i].queue == queue && schedules[i].id == id
    ensures forall i | 0 <= i < |schedules| ::
              schedules[i].queue == queue && schedules[i].id == id
              && (forall j | i < j < |schedules| :: !(schedules[j].queue == queue && schedules[j].id == id))
              ==> id in DeclaredFor(schedules, queue) && DeclaredFor(schedules, queue)[id] == schedules[i].pattern
  {
    if schedules != [] {
      TheLastPatternCounts(schedules[..|schedules| - 1], queue, id);
      var last := |schedules| - 1;
      forall i | 0 <= i < last && schedules[i].queue == queue && schedules[i].id == id
        ensures schedules[..last][i] == schedules[i]
      {
      }
    }
  }
}
