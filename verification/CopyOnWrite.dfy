/**
 * When the redaction walk gives back the very object it was given, in terms of the
 * answer relation alone: a branch with nothing to change is its own only answer,
 * and a branch that came back as itself has nothing to change.
 */
module CopyOnWrite {
  import opened Redaction

  /** Nothing at this value for the walk to change: see `Calm`. */
  ghost predicate ClearNode(source: Heap, skip: set<string>, id: Id)
    requires id in source
  {
    var node := source[id];
    forall k <- node.props :: Walks(node, skip, k) ==> !Redacts(source, node, k) && !node.props[k].NotANumber?
  }

  /**
   * A branch with nothing to change: no command, no NaN and - what also rules
   * out a cycle - no object with keys past the limit.
   */
  ghost predicate Calm(source: Heap, depth: nat, skip: set<string>, v: Value)
    decreases MAX_WALK_DEPTH + 1 - depth
  {
    v.Ref? ==>
      && v.id in source
      && var node := source[v.id];
      KeysOf(node) == [] ||
      (&& depth <= MAX_WALK_DEPTH
       && ClearNode(source, skip, v.id)
       && forall k <- node.props :: Walks(node, skip, k) ==> Calm(source, depth + 1, {}, node.props[k]))
  }

  lemma {:induction false} CalmHigherUp(source: Heap, depth: nat, depth': nat, skip: set<string>, v: Value)
    requires Calm(source, depth, skip, v) && depth' <= depth
    ensures Calm(source, depth', skip, v)
    decreases MAX_WALK_DEPTH + 1 - depth
  {
    if v.Ref? && KeysOf(source[v.id]) != [] {
      var node := source[v.id];
      forall k <- node.props | Walks(node, skip, k) ensures Calm(source, depth' + 1, {}, node.props[k]) {
        CalmHigherUp(source, depth + 1, depth' + 1, {}, node.props[k]);
      }
    }
  }

  ghost predicate WalkedEdge(source: Heap, from: Id, to: Id) {
    from in source && exists k <- source[from].props :: Walks(source[from], {}, k) && source[from].props[k] == Ref(to)
  }

  /** A walk along edges from a node back to itself. */
  ghost predicate Cycle(source: Heap, loop: seq<Id>) {
    && |loop| > 1 && loop[0] == loop[|loop| - 1]
    && forall i | 0 < i < |loop| :: WalkedEdge(source, loop[i - 1], loop[i])
  }

  /** A calm branch is not on a cycle: the cycle would lead past the limit. */
  lemma {:induction false} CalmIsOnNoCycle(source: Heap, depth: nat, loop: seq<Id>)
    requires Cycle(source, loop) && Calm(source, depth, {}, Ref(loop[0]))
    ensures false
    decreases MAX_WALK_DEPTH + 1 - depth
  {
    var node := source[loop[0]];
    assert WalkedEdge(source, loop[0], loop[1]);
    var k :| k in node.props && Walks(node, {}, k) && node.props[k] == Ref(loop[1]);
    CalmIsOnNoCycle(source, depth + 1, loop[1..] + [loop[1]]);
  }

  /** The objects a value hangs on, each an edge above the next. */
  ghost predicate HangsOn(source: Heap, trail: seq<Id>, v: Value) {
    && (forall i | 0 < i < |trail| :: WalkedEdge(source, trail[i - 1], trail[i]))
    && (trail != [] && v.Ref? ==> WalkedEdge(source, trail[|trail| - 1], v.id))
  }

  /** A calm value is none of the objects it hangs on. */
  lemma CalmIsNoAncestor(source: Heap, trail: seq<Id>, depth: nat, id: Id)
    requires Calm(source, depth, {}, Ref(id)) && HangsOn(source, trail, Ref(id))
    ensures id !in trail
  {
    hide Calm, WalkedEdge;
    if id in trail {
      var j :| 0 <= j < |trail| && trail[j] == id;
      var loop := trail[j..] + [id];
      assert forall i | 0 < i < |loop| :: WalkedEdge(source, loop[i - 1], loop[i]);
      CalmIsOnNoCycle(source, depth, loop);
    }
  }

  /** Nothing to change anywhere below, and no object with keys past the limit. */
  ghost predicate ClearPaths(source: Heap, skip: set<string>, from: Value) {
    forall path: seq<string> :: ClearPath(source, skip, from, path)
  }

  ghost predicate ClearPath(source: Heap, skip: set<string>, from: Value, path: seq<string>) {
    var end := Follow(source, skip, from, path);
    end.Some? && end.value.Ref? ==>
      end.value.id in source && ClearNode(source, if path == [] then skip else {}, end.value.id)
  }

  ghost predicate ShallowPath(source: Heap, depth: nat, skip: set<string>, from: Value, path: seq<string>) {
    var end := Follow(source, skip, from, path);
    end.Some? && end.value.Ref? && end.value.id in source && KeysOf(source[end.value.id]) != [] ==>
      depth + |path| <= MAX_WALK_DEPTH
  }

  ghost predicate ShallowPaths(source: Heap, depth: nat, skip: set<string>, from: Value) {
    forall path: seq<string> :: ShallowPath(source, depth, skip, from, path)
  }

  lemma PathsBelowKey(source: Heap, depth: nat, skip: set<string>, from: Id, key: string)
    requires from in source && Walks(source[from], skip, key)
    requires ClearPaths(source, skip, Ref(from)) && ShallowPaths(source, depth, skip, Ref(from))
    ensures ClearPaths(source, {}, source[from].props[key])
    ensures ShallowPaths(source, depth + 1, {}, source[from].props[key])
  {
    var deeper, v := depth + 1, source[from].props[key];
    forall path: seq<string> ensures ClearPath(source, {}, v, path) {
      assert ([key] + path)[1..] == path && ClearPath(source, skip, Ref(from), [key] + path);
    }
    forall path: seq<string> ensures ShallowPath(source, deeper, {}, v, path) {
      assert ([key] + path)[1..] == path && ShallowPath(source, depth, skip, Ref(from), [key] + path);
    }
  }

  lemma {:induction false} ClearShallowPathsAreCalm(source: Heap, depth: nat, skip: set<string>, from: Value)
    requires WellFormed(source) && Scoped(source, from)
    requires ClearPaths(source, skip, from) && ShallowPaths(source, depth, skip, from)
    ensures Calm(source, depth, skip, from)
    decreases MAX_WALK_DEPTH + 1 - depth
  {
    if from.Ref? && KeysOf(source[from.id]) != [] {
      var node := source[from.id];
      assert ShallowPath(source, depth, skip, from, []) && ClearPath(source, skip, from, []);
      forall k <- node.props | Walks(node, skip, k) ensures Calm(source, depth + 1, {}, node.props[k]) {
        PathsBelowKey(source, depth, skip, from.id, k);
        ClearShallowPathsAreCalm(source, depth + 1, {}, node.props[k]);
      }
    }
  }

  /** A branch that came back as the very object it was has nothing to change in it. */
  lemma {:induction false} SameObjectIsClear(source: Heap, h: Heap, ancestors: set<Id>, depth: nat, skip: set<string>,
                                             from: Value, path: seq<string>)
    requires WellFormed(source) && Extends(source, h)
    requires Answers(source, h, ancestors, depth, skip, from, from)
    ensures ClearPath(source, skip, from, path)
    decreases |path|
  {
    assert AnswersTo(0, source, h, ancestors, depth, skip, from, from);
    if from.Ref? {
      var node := source[from.id];
      if path == [] {
        forall k <- node.props | Walks(node, skip, k)
          ensures !Redacts(source, node, k) && !node.props[k].NotANumber?
        {
          AnswersOfKey(source, h, ancestors, depth, skip, from.id, from.id, k);
        }
      } else if Walks(node, skip, path[0]) {
        AnswersOfKey(source, h, ancestors, depth, skip, from.id, from.id, path[0]);
        if Redacts(source, node, path[0]) {
          assert false;
        }
        SameObjectIsClear(source, h, ancestors + {from.id}, depth + 1, {}, node.props[path[0]], path[1..]);
      }
    }
  }

  /** A walked key of an object has a value of its own in what the object became. */
  ghost predicate IsChanged(source: Heap, h: Heap, skip: set<string>, from: Id, to: Id, key: string) {
    && from in source && to in h && key in source[from].props && key in h[to].props
    && Walks(source[from], skip, key) && !StrictlyEqual(h[to].props[key], source[from].props[key])
  }

  /** An answer for a value is a mark that is due, the value itself, or an object with a key that changed. */
  lemma AnswersAreOfThreeKinds(source: Heap, h: Heap, ancestors: set<Id>, depth: nat, skip: set<string>,
                               from: Value, to: Value)
    requires Answers(source, h, ancestors, depth, skip, from, to)
    ensures !from.Ref? ==> to == from
    ensures from.Ref? && to == CIRCULAR ==> from.id in ancestors
    ensures from.Ref? && to == TRUNCATED ==>
              depth > MAX_WALK_DEPTH && from.id in source && KeysOf(source[from.id]) != []
    ensures to == from || to == CIRCULAR || to == TRUNCATED
            || (from.Ref? && to.Ref? && exists key :: IsChanged(source, h, skip, from.id, to.id, key))
  {
    assert AnswersTo(0, source, h, ancestors, depth, skip, from, to);
    if to != from && to != CIRCULAR && to != TRUNCATED {
      var key :| key in source[from.id].props && Walks(source[from.id], skip, key)
                 && !StrictlyEqual(h[to.id].props[key], source[from.id].props[key]);
      assert IsChanged(source, h, skip, from.id, to.id, key);
    }
  }

  lemma HangsOnOneMore(source: Heap, trail: seq<Id>, skip: set<string>, id: Id, key: string)
    requires HangsOn(source, trail, Ref(id)) && id in source && Walks(source[id], skip, key)
    ensures HangsOn(source, trail + [id], source[id].props[key])
  {
    assert Walks(source[id], {}, key);
  }

  /**
   * The only answer for a calm value is the value itself, below the objects it
   * hangs on: there is nothing to redact or to cut, and it is none of them.
   */
  lemma {:induction false} CalmIsAnsweredByItself(source: Heap, h: Heap, trail: seq<Id>, ancestors: set<Id>,
                                                  depth: nat, skip: set<string>, from: Value, to: Value)
    requires Calm(source, depth, skip, from) && HangsOn(source, trail, from)
    requires ancestors == (set id <- trail) && Answers(source, h, ancestors, depth, skip, from, to)
    requires trail != [] ==> skip == {}
    ensures to == from
    decreases MAX_WALK_DEPTH + 1 - depth
  {
    hide Answers, HangsOn, WalkedEdge;
    AnswersAreOfThreeKinds(source, h, ancestors, depth, skip, from, to);
    if from.Ref? && to == CIRCULAR {
      CalmIsNoAncestor(source, trail, depth, from.id);
    }
    if to != from && to != CIRCULAR && to != TRUNCATED {
      var key :| IsChanged(source, h, skip, from.id, to.id, key);
      var next, kept := source[from.id].props[key], h[to.id].props[key];
      AnswersOfKey(source, h, ancestors, depth, skip, from.id, to.id, key);
      HangsOnOneMore(source, trail, skip, from.id, key);
      assert forall k :: k in trail + [from.id] <==> k in trail || k == from.id;
      CalmIsAnsweredByItself(source, h, trail + [from.id], ancestors + {from.id}, depth + 1, {}, next, kept);
    }
  }
}
