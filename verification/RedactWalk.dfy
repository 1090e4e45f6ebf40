/**
 * The walk of redact-command-args: a depth-first walk with a memo keyed by
 * depth, a set of the objects being walked, and copy on write.
 */
module RedactWalk {
  import opened CopyOnWrite
  import opened Redaction

  /** What an object became, and at which depth. */
  datatype Known = Known(depth: nat, result: Value)

  /** The value of a key once the changes of its object are applied. */
  function Kept(node: Node, changes: map<string, Value>, key: string): Value
    requires key in node.props
  {
    if key in changes then changes[key] else node.props[key]
  }

  function CopyWith(node: Node, changes: map<string, Value>): Node {
    node.(props := node.props + changes)
  }

  /** The keys looked at so far are answered for, below `ancestors`. */
  ghost predicate Answered(source: Heap, h: Heap, ancestors: set<Id>, depth: nat, node: Node,
                           changes: map<string, Value>, keys: set<string>)
    requires keys <= node.props.Keys
  {
    forall k <- keys :: AnswersKey(source, h, ancestors, depth, node, k, Kept(node, changes, k))
  }

  /** One more key is answered for, in a heap the walk of that key has extended. */
  lemma AnsweredWithKey(source: Heap, h: Heap, h': Heap, ancestors: set<Id>, depth: nat, node: Node,
                        changes: map<string, Value>, keys: set<string>, key: string, next: Value)
    requires keys <= node.props.Keys && key in node.props && key !in keys && key !in changes
    requires Extends(h, h') && Answered(source, h, ancestors, depth, node, changes, keys)
    requires AnswersKey(source, h', ancestors, depth, node, key, next)
    ensures Answered(source, h', ancestors, depth, node, changes[key := next], keys + {key})
    ensures next == node.props[key] ==> Answered(source, h', ancestors, depth, node, changes, keys + {key})
  {
    forall k <- keys ensures AnswersKey(source, h', ancestors, depth, node, k, Kept(node, changes, k)) {
      assert AnswersKey(source, h, ancestors, depth, node, k, Kept(node, changes, k));
      if !Redacts(source, node, k) {
        AnswersWeaken(source, h, h', ancestors, ancestors, depth, depth, {}, node.props[k], Kept(node, changes, k));
      }
    }
    forall k <- keys ensures AnswersKey(source, h', ancestors, depth, node, k, Kept(node, changes[key := next], k)) {
      assert Kept(node, changes[key := next], k) == Kept(node, changes, k);
    }
  }

  /** The changes of the object `id`, one for each of `keys` that did not keep its value. */
  ghost predicate Collected(source: Heap, ranked: set<Id>, depth: nat, skip: set<string>, id: Id,
                            changes: map<string, Value>, keys: set<string>)
    requires id in source && keys <= source[id].props.Keys
  {
    && changes.Keys <= keys
    && (forall k <- changes :: !StrictlyEqual(changes[k], source[id].props[k]))
    && (forall k <- keys :: Kept(source[id], changes, k).Ref? ==> Kept(source[id], changes, k).id in ranked)
    && (forall k <- keys :: k !in changes ==> !source[id].props[k].NotANumber?)
    && (Calm(source, depth, skip, Ref(id)) ==> changes == map[])
  }

  lemma CollectedWithKey(source: Heap, ranked: set<Id>, ranked': set<Id>, depth: nat, skip: set<string>, id: Id,
                         changes: map<string, Value>, keys: set<string>, key: string, next: Value)
    requires id in source && keys <= source[id].props.Keys && key !in keys && Walks(source[id], skip, key)
    requires Collected(source, ranked, depth, skip, id, changes, keys) && ranked <= ranked'
    requires next.Ref? ==> next.id in ranked'
    requires !Redacts(source, source[id], key) && Calm(source, depth + 1, {}, source[id].props[key]) ==>
               next == source[id].props[key]
    ensures var changes' := if StrictlyEqual(next, source[id].props[key]) then changes else changes[key := next];
            Collected(source, ranked', depth, skip, id, changes', keys + {key})
  {
    var changes' := if StrictlyEqual(next, source[id].props[key]) then changes else changes[key := next];
    forall k <- keys ensures Kept(source[id], changes', k) == Kept(source[id], changes, k) {
    }
    if Calm(source, depth, skip, Ref(id)) {
      assert KeysOf(source[id]) != [] && ClearNode(source, skip, id);
    }
  }

  lemma CommandOfTheSource(source: Heap, h: Heap, id: Id)
    requires WellFormed(source) && Extends(source, h) && id in source
    ensures IsRedisCommand(h, source[id]) == IsRedisCommand(source, source[id])
  {
    assert WellFormedNode(source, source[id]);
  }

  /** The first `i` keys of an object the walk looks at, without the skipped ones. */
  ghost function Seen(node: Node, skip: set<string>, i: nat): set<string>
    requires i <= |KeysOf(node)|
  {
    set k <- KeysOf(node)[..i] | k !in skip
  }

  lemma NothingSeen(source: Heap, h: Heap, ranked: set<Id>, ancestors: set<Id>, depth: nat, skip: set<string>, id: Id)
    requires id in source
    ensures Seen(source[id], skip, 0) == {}
    ensures Answered(source, h, ancestors, depth + 1, source[id], map[], Seen(source[id], skip, 0))
    ensures Collected(source, ranked, depth, skip, id, map[], Seen(source[id], skip, 0))
  {
  }

  lemma SeenNext(h: Heap, node: Node, skip: set<string>, i: nat)
    requires WellFormedNode(h, node) && i < |KeysOf(node)|
    ensures Seen(node, skip, i) <= node.props.Keys && KeysOf(node)[i] in node.props
    ensures KeysOf(node)[i] !in Seen(node, skip, i)
    ensures KeysOf(node)[i] in skip ==> Seen(node, skip, i + 1) == Seen(node, skip, i)
    ensures KeysOf(node)[i] !in skip ==> Seen(node, skip, i + 1) == Seen(node, skip, i) + {KeysOf(node)[i]}
  {
    var keys := KeysOf(node);
    assert keys[..i + 1] == keys[..i] + [keys[i]];
    assert forall k <- keys :: k in node.props;
  }

  lemma SeenAll(h: Heap, node: Node, skip: set<string>)
    requires WellFormedNode(h, node)
    ensures Seen(node, skip, |KeysOf(node)|) == WalkedKeys(node, skip)
  {
    assert KeysOf(node)[..|KeysOf(node)|] == KeysOf(node);
    assert forall k <- KeysOf(node) :: k in node.props;
  }

  ghost function WalkedKeys(node: Node, skip: set<string>): set<string> {
    set k <- node.props | Walks(node, skip, k)
  }

  /** An object with its changes answers for the object once its keys are answered for. */
  lemma RebuiltAnswers(source: Heap, h: Heap, h': Heap, ranked: set<Id>, ancestors: set<Id>, depth: nat,
                       skip: set<string>,
                       id: Id, to: Id, changes: map<string, Value>)
    requires id in source && Extends(source, h) && Extends(h, h')
    requires to in h' && h'[to] == CopyWith(source[id], changes)
    requires if changes == map[] then to == id else to !in source
    requires Collected(source, ranked, depth, skip, id, changes, WalkedKeys(source[id], skip))
    requires Answered(source, h, ancestors + {id}, depth + 1, source[id], changes, WalkedKeys(source[id], skip))
    ensures Answers(source, h', ancestors, depth, skip, Ref(id), Ref(to))
    ensures Calm(source, depth, skip, Ref(id)) ==> to == id
  {
    hide Calm;
    var node := source[id];
    if changes != map[] {
      var k :| k in changes;
      assert Walks(node, skip, k) && h'[to].props[k] == changes[k];
    }
    forall k <- node.props | Walks(node, skip, k)
      ensures AnswersKey(source, h', ancestors + {id}, depth + 1, node, k, h'[to].props[k])
    {
      assert h'[to].props[k] == Kept(node, changes, k);
      assert AnswersKey(source, h, ancestors + {id}, depth + 1, node, k, Kept(node, changes, k));
      if !Redacts(source, node, k) {
        AnswersWeaken(source, h, h', ancestors + {id}, ancestors + {id}, depth + 1, depth + 1, {}, node.props[k],
                      Kept(node, changes, k));
      }
    }
    AnswersFromKeys(source, h', ancestors, depth, skip, id, to);
  }

  lemma RebuiltIsRanked(source: Heap, h: Heap, rank: map<Id, nat>, clock: nat, depth: nat, skip: set<string>, id: Id,
                        to: Id,
                        changes: map<string, Value>)
    requires id in source && to in h && h[to] == CopyWith(source[id], changes)
    requires Collected(source, rank.Keys, depth, skip, id, changes, WalkedKeys(source[id], skip))
    requires forall other <- rank :: rank[other] < clock
    ensures RankedNode(h[to], skip, rank, clock)
  {
    forall k <- h[to].props | Walks(h[to], skip, k) && h[to].props[k].Ref?
      ensures h[to].props[k].id in rank
    {
      assert k in WalkedKeys(source[id], skip) && h[to].props[k] == Kept(source[id], changes, k);
    }
  }

  class Walk {
    ghost const source: Heap
    var heap: Heap
    var nextId: Id
    var done: map<Id, Known>
    var active: set<Id>
    var circular: nat
    ghost var rank: map<Id, nat>
    ghost var clock: nat

    /** Ids from `free` on are not in use by the objects of the line. */
    constructor (line: Heap, free: Id)
      requires WellFormed(line) && forall id <- line :: id < free
      ensures source == heap == line && done == map[] && active == {} && circular == 0 && Valid()
    {
      source, heap, nextId := line, line, free;
      done, active, circular := map[], {}, 0;
      rank, clock := map[], 0;
    }

    ghost predicate ValidHeap()
      reads this
    {
      && WellFormed(source) && Extends(source, heap)
      && (forall id <- heap :: id < nextId)
      && Ranked(heap, rank)
      && (forall id <- rank :: rank[id] < clock)
    }

    ghost predicate ValidKnown(id: Id, known: Known)
      reads this
    {
      && id in source
      && Answers(source, heap, {}, known.depth, {}, Ref(id), known.result)
      && (Calm(source, known.depth, {}, Ref(id)) ==> known.result == Ref(id))
      && (known.result.Ref? ==> known.result.id in rank)
    }

    ghost predicate Valid()
      reads this
    {
      && ValidHeap()
      && (forall id <- done :: ValidKnown(id, done[id]))
    }

    lemma SourceIsThere(id: Id)
      requires Valid() && id in source
      ensures id in heap && heap[id] == source[id] && WellFormed(source) && WellFormedNode(source, source[id])
      ensures Extends(source, heap)
    {
    }

    /** The objects being walked, outermost first, each an edge above the next. */
    ghost predicate OnTrail(trail: seq<Id>, value: Value)
      reads this
    {
      active == (set id <- trail) && HangsOn(source, trail, value)
    }

    lemma ActiveIsNotCalm(trail: seq<Id>, value: Value, depth: nat)
      requires OnTrail(trail, value) && value.Ref? && value.id in active
      ensures !Calm(source, depth, {}, value)
    {
      if Calm(source, depth, {}, value) {
        CalmIsNoAncestor(source, trail, depth, value.id);
      }
    }

    /** A finished object whose walked keys lead to finished objects is finished. */
    ghost method Finish(id: Id)
      requires ValidHeap() && id in heap && RankedNode(heap[id], {}, rank, clock)
      modifies this`rank, this`clock
      ensures ValidHeap() && id in rank && forall other <- old(rank) :: other in rank
      ensures old(Valid()) ==> Valid()
      ensures RankedNode(heap[id], {}, rank, clock)
    {
      if id !in rank {
        rank, clock := rank[id := clock], clock + 1;
      }
    }

    lemma TrailGoesDown(trail: seq<Id>, id: Id, key: string)
      requires id in source && Walks(source[id], {}, key)
      requires trail != [] && trail[|trail| - 1] == id && OnTrail(trail, Text(""))
      ensures OnTrail(trail, source[id].props[key])
    {
      if source[id].props[key].Ref? {
        assert WalkedEdge(source, id, source[id].props[key].id);
      }
    }

    /** What `key` of the object being walked becomes. */
    method VisitKey(id: Id, key: string, command: bool, depth: nat, ghost trail: seq<Id>) returns (next: Value)
      requires Valid() && id in source && Walks(source[id], {}, key) && depth <= MAX_WALK_DEPTH
      requires trail != [] && trail[|trail| - 1] == id && OnTrail(trail, Text(""))
      requires command == IsRedisCommand(source, source[id])
      modifies this
      ensures Valid() && Extends(old(heap), heap) && active == old(active) && old(circular) <= circular
      ensures forall other <- old(rank) :: other in rank
      ensures AnswersKey(source, heap, active, depth + 1, source[id], key, next)
      ensures circular == old(circular) ==> AnswersKey(source, heap, {id}, depth + 1, source[id], key, next)
      ensures next.Ref? ==> next.id in rank
      ensures !Redacts(source, source[id], key) && Calm(source, depth + 1, {}, source[id].props[key]) ==>
                next == source[id].props[key]
      decreases MAX_WALK_DEPTH + 1 - depth, 0
    {
      hide Calm, Answers, Ranked, RankedNode;
      if command && key == "args" {
        return REDACTED;
      }
      TrailGoesDown(trail, id, key);
      assert !Redacts(source, source[id], key);
      next := Visit(heap[id].props[key], depth + 1, {}, trail);
      if circular == old(circular) {
        AnswersWeaken(source, heap, heap, {}, {id}, depth + 1, depth + 1, {}, source[id].props[key], next);
      }
    }

    /** The loop over the keys of the object being walked. */
    method VisitKeys(id: Id, depth: nat, skip: set<string>, ghost trail: seq<Id>) returns (changes: map<string, Value>)
      requires Valid() && id in source && depth <= MAX_WALK_DEPTH
      requires trail != [] && trail[|trail| - 1] == id && OnTrail(trail, Text(""))
      modifies this
      ensures Valid() && Extends(old(heap), heap) && active == old(active) && old(circular) <= circular
      ensures forall other <- old(rank) :: other in rank
      ensures var keys := WalkedKeys(source[id], skip);
        && Answered(source, heap, active, depth + 1, source[id], changes, keys)
        && (circular == old(circular) ==> Answered(source, heap, {id}, depth + 1, source[id], changes, keys))
        && Collected(source, rank.Keys, depth, skip, id, changes, keys)
      decreases MAX_WALK_DEPTH + 1 - depth, 1
    {
      hide Answered, Collected, Answers, Ranked, RankedNode, Calm, IsRedisCommand, ValidHeap, ValidKnown,
        AnswersKey, Seen;
      SourceIsThere(id);
      var node := heap[id];
      var keys := KeysOf(node);
      var command := IsRedisCommand(heap, node);
      CommandOfTheSource(source, heap, id);
      changes := map[];
      NothingSeen(source, heap, rank.Keys, active, depth, skip, id);
      NothingSeen(source, heap, rank.Keys, {id}, depth, skip, id);
      var i := 0;
      while i < |keys|
        invariant i <= |keys| && Valid() && active == old(active)
        invariant Extends(old(heap), heap) && old(circular) <= circular
        invariant forall other <- old(rank) :: other in rank
        invariant changes.Keys <= Seen(node, skip, i) <= node.props.Keys
        invariant Answered(source, heap, active, depth + 1, node, changes, Seen(node, skip, i))
        invariant circular == old(circular) ==>
                    Answered(source, heap, {id}, depth + 1, node, changes, Seen(node, skip, i))
        invariant Collected(source, rank.Keys, depth, skip, id, changes, Seen(node, skip, i))
      {
        var key := keys[i];
        SeenNext(source, node, skip, i);
        if key !in skip {
          ghost var before, ranked := heap, rank.Keys;
          var next := VisitKey(id, key, command, depth, trail);
          AnsweredWithKey(source, before, heap, active, depth + 1, node, changes, Seen(node, skip, i), key, next);
          if circular == old(circular) {
            AnsweredWithKey(source, before, heap, {id}, depth + 1, node, changes, Seen(node, skip, i), key, next);
          }
          CollectedWithKey(source, ranked, rank.Keys, depth, skip, id, changes, Seen(node, skip, i), key, next);
          if !StrictlyEqual(next, node.props[key]) {
            changes := changes[key := next];
          }
        }
        i := i + 1;
      }
      SeenAll(source, node, skip);
    }

    /** A new object: nothing that was there before is touched. */
    method Allocate(node: Node) returns (id: Id)
      requires Valid()
      modifies this`heap, this`nextId
      ensures Valid() && id !in old(heap) && heap == old(heap)[id := node]
    {
      id := nextId;
      ghost var before := heap;
      heap, nextId := heap[id := node], nextId + 1;
      forall k <- done ensures ValidKnown(k, done[k]) {
        AnswersWeaken(source, before, heap, {}, {}, done[k].depth, done[k].depth, {}, Ref(k), done[k].result);
      }
    }

    /** Copy on write: the object itself, or a new one with the changes. */
    method Rebuild(id: Id, depth: nat, skip: set<string>, changes: map<string, Value>) returns (result: Value)
      requires Valid() && id in source
      requires Collected(source, rank.Keys, depth, skip, id, changes, WalkedKeys(source[id], skip))
      requires Answered(source, heap, active + {id}, depth + 1, source[id], changes, WalkedKeys(source[id], skip))
      modifies this`heap, this`nextId, this`rank, this`clock
      ensures Valid() && Extends(old(heap), heap)
      ensures forall other <- old(rank) :: other in rank
      ensures Answers(source, heap, active, depth, skip, Ref(id), result)
      ensures Answered(source, old(heap), {id}, depth + 1, source[id], changes, WalkedKeys(source[id], skip)) ==>
                Answers(source, heap, {}, depth, skip, Ref(id), result)
      ensures Calm(source, depth, skip, Ref(id)) ==> result == Ref(id)
      ensures result.Ref? && result.id in heap && RankedNode(heap[result.id], skip, rank, clock)
      ensures skip == {} ==> result.id in rank
    {
      hide Calm, Collected, Answered, Answers, Ranked, RankedNode;
      ghost var before := heap;
      result := Ref(id);
      if |changes| > 0 {
        var copy := Allocate(CopyWith(heap[id], changes));
        result := Ref(copy);
      }
      RebuiltAnswers(source, before, heap, rank.Keys, active, depth, skip, id, result.id, changes);
      if Answered(source, before, {id}, depth + 1, source[id], changes, WalkedKeys(source[id], skip)) {
        assert {} + {id} == {id};
        RebuiltAnswers(source, before, heap, rank.Keys, {}, depth, skip, id, result.id, changes);
      }
      RebuiltIsRanked(source, heap, rank, clock, depth, skip, id, result.id, changes);
      if skip == {} {
        Finish(result.id);
      }
    }

    /** An answer of the memo is an answer at any position no higher up. */
    lemma KnownAnswers(id: Id, depth: nat)
      requires Valid() && id in done && done[id].depth <= depth
      ensures Answers(source, heap, {}, depth, {}, Ref(id), done[id].result)
      ensures Answers(source, heap, active, depth, {}, Ref(id), done[id].result)
      ensures Calm(source, depth, {}, Ref(id)) ==> done[id].result == Ref(id)
      ensures var r := done[id].result; r.Ref? ==> r.id in rank && RankedNode(heap[r.id], {}, rank, clock)
    {
      assert ValidKnown(id, done[id]);
      AnswersWeaken(source, heap, heap, {}, {}, done[id].depth, depth, {}, Ref(id), done[id].result);
      AnswersWeaken(source, heap, heap, {}, active, done[id].depth, depth, {}, Ref(id), done[id].result);
      if Calm(source, depth, {}, Ref(id)) {
        CalmHigherUp(source, depth, done[id].depth, {}, Ref(id));
      }
    }

    /** An object with keys that is neither being walked nor known. */
    method VisitObject(id: Id, depth: nat, skip: set<string>, ghost trail: seq<Id>) returns (result: Value)
      requires Valid() && id in source && id !in active && OnTrail(trail, Ref(id))
      requires depth <= MAX_WALK_DEPTH && (skip != {} ==> done == map[])
      modifies this
      ensures ValidHeap() && (skip == {} ==> Valid())
      ensures Extends(old(heap), heap) && active == old(active) && old(circular) <= circular
      ensures forall other <- old(rank) :: other in rank
      ensures Answers(source, heap, active, depth, skip, Ref(id), result)
      ensures circular == old(circular) ==> Answers(source, heap, {}, depth, skip, Ref(id), result)
      ensures Calm(source, depth, skip, Ref(id)) ==> result == Ref(id)
      ensures result.Ref? ==> result.id in heap && RankedNode(heap[result.id], skip, rank, clock)
      ensures skip == {} && result.Ref? ==> result.id in rank
      decreases MAX_WALK_DEPTH + 1 - depth, 2
    {
      hide Answered, Collected, Answers, Ranked, RankedNode, Calm;
      var circularBefore := circular;
      active := active + {id};
      var changes := VisitKeys(id, depth, skip, trail + [id]);
      active := active - {id};
      assert active + {id} == old(active) + {id};
      result := Rebuild(id, depth, skip, changes);
      if circular == circularBefore {
        done := done[id := Known(depth, result)];
      }
    }

    method Visit(value: Value, depth: nat, skip: set<string>, ghost trail: seq<Id>) returns (result: Value)
      requires Valid() && Scoped(source, value) && OnTrail(trail, value)
      requires depth <= MAX_WALK_DEPTH + 1 && (skip != {} ==> done == map[] && active == {})
      modifies this
      ensures ValidHeap() && (skip == {} ==> Valid())
      ensures Extends(old(heap), heap) && active == old(active) && old(circular) <= circular
      ensures forall id <- old(rank) :: id in rank
      ensures Answers(source, heap, active, depth, skip, value, result)
      ensures circular == old(circular) ==> Answers(source, heap, {}, depth, skip, value, result)
      ensures Calm(source, depth, skip, value) ==> result == value
      ensures result.Ref? ==> result.id in heap && RankedNode(heap[result.id], skip, rank, clock)
      ensures skip == {} && result.Ref? ==> result.id in rank
      decreases MAX_WALK_DEPTH + 1 - depth, 3
    {
      if !value.Ref? {
        return value;
      }
      var id := value.id;
      if id in active {
        circular := circular + 1;
        ActiveIsNotCalm(trail, value, depth);
        return CIRCULAR;
      }
      var node := heap[id];
      if KeysOf(node) == [] {
        Finish(id);
        return value;
      }
      if depth > MAX_WALK_DEPTH {
        return TRUNCATED;
      }
      if id in done && done[id].depth <= depth {
        KnownAnswers(id, depth);
        return done[id].result;
      }
      result := VisitObject(id, depth, skip, trail);
    }
  }

  /** Whether any value of the line itself is an object. */
  predicate HoldsNoObject(node: Node) {
    forall k <- node.keys :: k in node.props ==> !node.props[k].Ref?
  }

  /**
   * What is written instead of a line: the line itself when it holds no object,
   * and otherwise an answer for it, met at the top.
   */
  ghost predicate Redacted(source: Heap, h: Heap, skip: set<string>, line: Id, written: Value) {
    && line in source
    && if HoldsNoObject(source[line]) then written == Ref(line)
       else Answers(source, h, {}, 0, skip, Ref(line), written)
  }

  /** No path of walked keys is longer than `bound`: the value is no cycle. */
  ghost predicate FiniteHeight(h: Heap, skip: set<string>, v: Value, bound: nat) {
    forall path: seq<string> :: Follow(h, skip, v, path).Some? ==> |path| <= bound
  }

  /**
   * The written line holds nothing but the source's values, faithful copies and
   * marks, and no `args` of a command of the source on any path of it.
   */
  lemma {:induction false} WrittenLineIsFaithful(source: Heap, h: Heap, skip: set<string>, line: Id, written: Value,
                                                 path: seq<string>)
    requires WellFormed(source) && Extends(source, h) && Redacted(source, h, skip, line, written)
    ensures path != [] ==> FaithfulAt(source, h, {}, 0, skip, Ref(line), written, path)
  {
    if !HoldsNoObject(source[line]) {
      EveryPathIsFaithful(source, h, {}, 0, skip, Ref(line), written, path);
    } else if path != [] && Walks(source[line], skip, path[0]) {
      assert path[0] in source[line].keys;
      assert |path| > 1 ==> path[1..] != [];
      if |path| == 1 {
        assert path[..0] == [] && path[1..] == [];
      }
    }
  }

  /**
   * A line that holds an object comes back as itself only with nothing on its
   * walked paths to change, and exactly then if none of them leads past the limit.
   */
  lemma SameLineExactly(source: Heap, h: Heap, skip: set<string>, line: Id, written: Value)
    requires WellFormed(source) && Extends(source, h) && Redacted(source, h, skip, line, written)
    requires !HoldsNoObject(source[line])
    ensures written == Ref(line) ==> ClearPaths(source, skip, Ref(line))
    ensures ShallowPaths(source, 0, skip, Ref(line)) ==> (written == Ref(line) <==> ClearPaths(source, skip, Ref(line)))
  {
    if written == Ref(line) {
      forall path: seq<string> ensures ClearPath(source, skip, Ref(line), path) {
        SameObjectIsClear(source, h, {}, 0, skip, Ref(line), path);
      }
    }
    if ClearPaths(source, skip, Ref(line)) && ShallowPaths(source, 0, skip, Ref(line)) {
      ClearShallowPathsAreCalm(source, 0, skip, Ref(line));
      CalmIsAnsweredByItself(source, h, [], {}, 0, skip, Ref(line), written);
    }
  }

  /** A line `{ cost: NaN, tags: {} }`: no command, no cycle, nothing deep. */
  ghost const NAN_LINE: Heap := map[
    0 := Node(Entered, ["cost", "tags"], map["cost" := NotANumber, "tags" := Ref(1)]),
    1 := Node(Entered, [], map[])]

  /** A NaN under a walked key is enough for a copy: it is not equal to itself. */
  lemma NaNIsCopied(h: Heap, written: Value)
    requires Redacted(NAN_LINE, h, {}, 0, written)
    ensures WellFormed(NAN_LINE) && written != Ref(0)
  {
    var node := NAN_LINE[0];
    var tags := node.keys[1];
    assert "cost"[0] != "tags"[0];
    assert tags in node.keys && node.props[tags] == Ref(1);
    assert AnswersTo(0, NAN_LINE, h, {}, 0, {}, Ref(0), written);
    var key := node.keys[0];
    assert key in KeysOf(node) && node.props[key] == NotANumber;
    assert Walks(node, {}, key);
  }

  method RedactCommandArgs(source: Heap, free: Id, line: Id, skip: set<string>)
    returns (written: Value, heap: Heap, ghost height: nat)
    requires WellFormed(source) && line in source && forall id <- source :: id < free
    ensures Extends(source, heap)
    ensures Redacted(source, heap, skip, line, written)
    ensures forall path: seq<string>, id: Id :: ArgsAreRedactedExactly(source, heap, skip, Ref(line), written, path, id)
    ensures FiniteHeight(heap, skip, written, height)
    ensures (forall k <- source[line].keys | k in source[line].props :: !source[line].props[k].Ref?) ==>
              written == Ref(line)
    ensures !HoldsNoObject(source[line]) && written == Ref(line) ==> ClearPaths(source, skip, Ref(line))
    ensures !HoldsNoObject(source[line]) && ShallowPaths(source, 0, skip, Ref(line)) ==>
              (written == Ref(line) <==> ClearPaths(source, skip, Ref(line)))
  {
    if HoldsNoObject(source[line]) {
      forall path: seq<string> | |path| > 1 ensures Follow(source, skip, Ref(line), path).None? {
        assert path[0] in KeysOf(source[line]) ==> path[0] in source[line].keys;
        assert path[1..] != [];
      }
      NoArgsOfACommandAreWritten(source, source, skip, line, Ref(line));
      return Ref(line), source, 1;
    }
    var walk := new Walk(source, free);
    written := walk.Visit(Ref(line), 0, skip, []);
    heap, height := walk.heap, 0;
    if written.Ref? {
      height := walk.clock + 1;
      forall path: seq<string> | Follow(heap, skip, written, path).Some? ensures |path| <= height {
        RankBoundsPaths(heap, walk.rank, skip, written.id, walk.clock, path);
      }
    }
    SameLineExactly(source, heap, skip, line, written);
    NoArgsOfACommandAreWritten(source, heap, skip, line, written);
  }

  lemma NoArgsOfACommandAreWritten(source: Heap, h: Heap, skip: set<string>, line: Id, written: Value)
    requires WellFormed(source) && Extends(source, h) && Redacted(source, h, skip, line, written)
    ensures forall path: seq<string>, id: Id :: ArgsAreRedactedExactly(source, h, skip, Ref(line), written, path, id)
  {
    forall path: seq<string>, id: Id
      ensures ArgsAreRedactedExactly(source, h, skip, Ref(line), written, path, id)
    {
      WrittenLineIsFaithful(source, h, skip, line, written, path + ["args"]);
      APathMeetsNoArgsOfACommand(source, h, skip, Ref(line), written, path, id);
    }
  }
}
