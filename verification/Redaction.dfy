/**
 * What the log redaction walk promises, stated over a heap of nodes.
 *
 * A line of the log is a graph: shared, cyclic and of any depth. The heap is a
 * map from ids to nodes; the walk allocates nodes and never changes one. The
 * answer of the walk for a value is related to the value itself by `Answers`,
 * and everything a reader of the log cares about is derived from that relation:
 * what every path of the result holds below, and when the result is the very
 * object that was logged in `CopyOnWrite`.
 */
module Redaction {
  import opened Wrappers

  type Id = nat

  /** `NotANumber` is apart from the other scalars: it is not equal to itself. */
  datatype Value = Scalar(n: int) | NotANumber | Text(text: string) | Ref(id: Id)

  /** `Entered` is a plain object or an error; `Instance` is any other class. */
  datatype Kind = List | Entered | Instance

  /** `keys` are the own enumerable keys in order; `props` is all that can be read. */
  datatype Node = Node(kind: Kind, keys: seq<string>, props: map<string, Value>)

  type Heap = map<Id, Node>

  const REDACTED := Text("[Redacted]")
  const TRUNCATED := Text("[Truncated]")
  const CIRCULAR := Text("[Circular]")
  const MAX_WALK_DEPTH := 8

  ghost predicate WellFormed(h: Heap) {
    forall id <- h :: WellFormedNode(h, h[id])
  }

  ghost predicate WellFormedNode(h: Heap, node: Node) {
    && (forall i | 0 <= i < |node.keys| :: node.keys[i] in node.props)
    && (forall i, j | 0 <= i < j < |node.keys| :: node.keys[i] != node.keys[j])
    && (forall k <- node.props :: Scoped(h, node.props[k]))
  }

  predicate Scoped(h: Heap, v: Value) {
    v.Ref? ==> v.id in h
  }

  ghost predicate Extends(h: Heap, h': Heap) {
    forall id <- h :: id in h' && h'[id] == h[id]
  }

  /** `===` of the program: a NaN differs from every value, itself included. */
  predicate StrictlyEqual(a: Value, b: Value) {
    a == b && !a.NotANumber?
  }

  /** The keys the walk looks at: of a class instance only `args` and `command`. */
  function KeysOf(node: Node): (keys: seq<string>)
    ensures forall k <- keys :: k in node.keys
  {
    if node.kind != Instance then node.keys
    else (if "args" in node.keys then ["args"] else []) + (if "command" in node.keys then ["command"] else [])
  }

  /** A command of ioredis: a string `name` and a list under `args`. */
  predicate IsRedisCommand(h: Heap, node: Node) {
    && "name" in node.props && node.props["name"].Text?
    && "args" in node.props && node.props["args"].Ref?
    && node.props["args"].id in h && h[node.props["args"].id].kind.List?
  }

  /** Whether the walk goes through `key` of `node`, or redacts it. */
  predicate Walks(node: Node, skip: set<string>, key: string) {
    key in KeysOf(node) && key !in skip && key in node.props
  }

  predicate Redacts(h: Heap, node: Node, key: string) {
    IsRedisCommand(h, node) && key == "args"
  }

  // ------------------------------------------------------------------
  // Paths of walked keys, and finite height: the result of a walk over a cyclic
  // line is no cycle.

  /** The value at the end of a path of walked keys, if the path is there. */
  ghost function Follow(h: Heap, skip: set<string>, v: Value, path: seq<string>): Option<Value>
    decreases |path|
  {
    if path == [] then Some(v)
    else if v.Ref? && v.id in h && Walks(h[v.id], skip, path[0])
    then Follow(h, {}, h[v.id].props[path[0]], path[1..])
    else None
  }

  /** Every walked edge out of a ranked node leads to a ranked node further down. */
  ghost predicate Ranked(h: Heap, rank: map<Id, nat>) {
    forall id <- rank :: id in h && RankedNode(h[id], {}, rank, rank[id])
  }

  ghost predicate RankedNode(node: Node, skip: set<string>, rank: map<Id, nat>, bound: nat) {
    forall k <- node.props :: Walks(node, skip, k) && node.props[k].Ref? ==>
      node.props[k].id in rank && rank[node.props[k].id] < bound
  }

  lemma {:induction false} RankBoundsPaths(h: Heap, rank: map<Id, nat>, skip: set<string>, id: Id, bound: nat,
                                           path: seq<string>)
    requires Ranked(h, rank) && id in h && RankedNode(h[id], skip, rank, bound)
    requires Follow(h, skip, Ref(id), path).Some?
    ensures |path| <= bound + 1
    decreases |path|
  {
    if |path| > 1 {
      var next := h[id].props[path[0]];
      assert path[1..] != [] && next.Ref? && next.id in rank;
      RankBoundsPaths(h, rank, {}, next.id, rank[next.id], path[1..]);
    }
  }

  // ------------------------------------------------------------------
  // The answer of the walk for a value.

  /**
   * `to` is `from` as the walk leaves it: the same kind and keys and, outside
   * the walked keys, the same values; the very same object when every walked
   * key kept its value, and otherwise a new one.
   */
  ghost predicate Mirrors(source: Heap, h: Heap, skip: set<string>, from: Id, to: Id) {
    && from in source && to in h
    && var was, now := source[from], h[to];
    && now.kind == was.kind && now.keys == was.keys && now.props.Keys == was.props.Keys
    && (forall k <- was.props :: !Walks(was, skip, k) ==> now.props[k] == was.props[k])
    && (to == from ==> forall k <- was.props :: Walks(was, skip, k) ==> !was.props[k].NotANumber?)
    && (to != from ==>
          && to !in source
          && exists k <- was.props :: Walks(was, skip, k) && !StrictlyEqual(now.props[k], was.props[k]))
  }

  /**
   * The first `n` levels of `to` are an answer for `from`, met `depth` levels
   * down below the objects `ancestors`: a scalar is itself, an object met again
   * inside itself may be `[Circular]`, an object past the limit may be
   * `[Truncated]`, and any other object is mirrored with the `args` of a
   * command of the source redacted.
   */
  ghost predicate AnswersTo(n: nat, source: Heap, h: Heap, ancestors: set<Id>, depth: nat, skip: set<string>,
                            from: Value, to: Value)
    decreases n
  {
    if !from.Ref? then to == from
    else
      && from.id in source
      && var node := source[from.id];
      if to == CIRCULAR then from.id in ancestors && KeysOf(node) != []
      else if to == TRUNCATED then depth > MAX_WALK_DEPTH && KeysOf(node) != []
      else
        && to.Ref?
        && Mirrors(source, h, skip, from.id, to.id)
        && (n > 0 ==> forall k <- node.props :: Walks(node, skip, k) ==>
          var kept := h[to.id].props[k];
          if Redacts(source, node, k) then kept == REDACTED
          else AnswersTo(n - 1, source, h, ancestors + {from.id}, depth + 1, {}, node.props[k], kept))
  }

  /** `to` is an answer for `from`, however far down it is read. */
  ghost predicate Answers(source: Heap, h: Heap, ancestors: set<Id>, depth: nat, skip: set<string>,
                          from: Value, to: Value)
  {
    forall n: nat :: AnswersTo(n, source, h, ancestors, depth, skip, from, to)
  }

  /** An answer stays one deeper down, below more ancestors and in a larger heap. */
  lemma {:induction false} AnswersToWeakens(n: nat, source: Heap, h: Heap, h': Heap, ancestors: set<Id>,
                                            ancestors': set<Id>,
                                            depth: nat, depth': nat, skip: set<string>, from: Value, to: Value)
    requires AnswersTo(n, source, h, ancestors, depth, skip, from, to)
    requires Extends(h, h') && ancestors <= ancestors' && depth <= depth'
    ensures AnswersTo(n, source, h', ancestors', depth', skip, from, to)
  {
    hide Walks, Redacts;
    if from.Ref? && to.Ref? && n > 0 {
      var node, was := source[from.id], h[to.id];
      assert h'[to.id] == was;
      forall k <- node.props | Walks(node, skip, k) && !Redacts(source, node, k)
        ensures AnswersTo(n - 1, source, h', ancestors' + {from.id}, depth' + 1, {}, node.props[k], was.props[k])
      {
        AnswersToWeakens(n - 1, source, h, h', ancestors + {from.id}, ancestors' + {from.id},
                         depth + 1, depth' + 1, {}, node.props[k], was.props[k]);
      }
    }
  }

  lemma AnswersWeaken(source: Heap, h: Heap, h': Heap, ancestors: set<Id>, ancestors': set<Id>,
                      depth: nat, depth': nat, skip: set<string>, from: Value, to: Value)
    requires Answers(source, h, ancestors, depth, skip, from, to)
    requires Extends(h, h') && ancestors <= ancestors' && depth <= depth'
    ensures Answers(source, h', ancestors', depth', skip, from, to)
  {
    forall n: nat ensures AnswersTo(n, source, h', ancestors', depth', skip, from, to) {
      AnswersToWeakens(n, source, h, h', ancestors, ancestors', depth, depth', skip, from, to);
    }
  }

  /** What is asked of a walked key of a mirrored node, for an answer of the node. */
  ghost predicate AnswersKey(source: Heap, h: Heap, ancestors: set<Id>, depth: nat, node: Node, key: string, to: Value)
    requires key in node.props
  {
    if Redacts(source, node, key) then to == REDACTED
    else Answers(source, h, ancestors, depth, {}, node.props[key], to)
  }

  /** An answer for an object is put together from the answers for its keys. */
  lemma AnswersFromKeys(source: Heap, h: Heap, ancestors: set<Id>, depth: nat, skip: set<string>, from: Id, to: Id)
    requires Mirrors(source, h, skip, from, to)
    requires forall k <- source[from].props :: Walks(source[from], skip, k) ==>
               AnswersKey(source, h, ancestors + {from}, depth + 1, source[from], k, h[to].props[k])
    ensures Answers(source, h, ancestors, depth, skip, Ref(from), Ref(to))
  {
    var node := source[from];
    forall n: nat ensures AnswersTo(n, source, h, ancestors, depth, skip, Ref(from), Ref(to)) {
      if n > 0 {
        forall k <- node.props | Walks(node, skip, k) && !Redacts(source, node, k)
          ensures AnswersTo(n - 1, source, h, ancestors + {from}, depth + 1, {}, node.props[k], h[to].props[k])
        {
          assert AnswersKey(source, h, ancestors + {from}, depth + 1, node, k, h[to].props[k]);
        }
      }
    }
  }

  /** And taken apart into them again. */
  lemma AnswersOfKey(source: Heap, h: Heap, ancestors: set<Id>, depth: nat, skip: set<string>, from: Id, to: Id,
                     key: string)
    requires Answers(source, h, ancestors, depth, skip, Ref(from), Ref(to))
    requires from in source && Walks(source[from], skip, key)
    ensures Mirrors(source, h, skip, from, to)
    ensures AnswersKey(source, h, ancestors + {from}, depth + 1, source[from], key, h[to].props[key])
  {
    var node := source[from];
    assert AnswersTo(0, source, h, ancestors, depth, skip, Ref(from), Ref(to));
    assert AnswersTo(1, source, h, ancestors, depth, skip, Ref(from), Ref(to));
    if !Redacts(source, node, key) {
      var below, deeper, was, now := ancestors + {from}, depth + 1, node.props[key], h[to].props[key];
      forall n: nat ensures AnswersTo(n, source, h, below, deeper, {}, was, now) {
        assert AnswersTo(n + 1, source, h, ancestors, depth, skip, Ref(from), Ref(to));
      }
    }
  }

  // ------------------------------------------------------------------
  // What a command is, by its own fields.

  /** Under `name` a text, and under `args` a list. */
  ghost predicate HasCommandFields(source: Heap, id: Id) {
    && id in source && "name" in source[id].props && "args" in source[id].props
    && (exists name :: source[id].props["name"] == Text(name))
    && exists list :: source[id].props["args"] == Ref(list) && list in source && source[list].kind == List
  }

  /** The walk looks at every key of a plain object, a list or an error, and at two keys of any other instance. */
  lemma TheWalkLooksAt(node: Node, skip: set<string>, key: string)
    requires key in node.props
    ensures Walks(node, skip, key) <==>
              && key in node.keys && key !in skip
              && (node.kind == Instance ==> key == "args" || key == "command")
  {
    assert node.kind == Instance ==> (key in KeysOf(node) <==> key in node.keys && (key == "args" || key == "command"));
  }

  /**
   * Of any answer for an object: the walked `args` is `[Redacted]` if the object
   * has the fields of a command. Every other walked key, and the `args` of any
   * other object, is an answer for the value of the source.
   */
  lemma OnlyTheArgsOfACommandAreRedacted(source: Heap, h: Heap, ancestors: set<Id>, depth: nat, skip: set<string>,
                                         id: Id, to: Id, key: string)
    requires WellFormed(source) && id in source && key in source[id].props && Walks(source[id], skip, key)
    requires Answers(source, h, ancestors, depth, skip, Ref(id), Ref(to))
    ensures to in h && key in h[to].props
    ensures if key == "args" && HasCommandFields(source, id) then h[to].props[key] == Text("[Redacted]")
            else Answers(source, h, ancestors + {id}, depth + 1, {}, source[id].props[key], h[to].props[key])
  {
    hide Answers, Mirrors;
    AnswersOfKey(source, h, ancestors, depth, skip, id, to, key);
    MirrorsHasTheKeys(source, h, skip, id, to);
    CommandsAreKnownByTheirFields(source, id);
  }

  lemma MirrorsHasTheKeys(source: Heap, h: Heap, skip: set<string>, from: Id, to: Id)
    requires Mirrors(source, h, skip, from, to)
    ensures to in h && h[to].props.Keys == source[from].props.Keys
  {
  }

  lemma CommandsAreKnownByTheirFields(source: Heap, id: Id)
    requires id in source
    ensures IsRedisCommand(source, source[id]) <==> HasCommandFields(source, id)
  {
    var node := source[id];
    if IsRedisCommand(source, node) {
      assert node.props["name"] == Text(node.props["name"].text) && node.props["args"] == Ref(node.props["args"].id);
    }
  }

  // ------------------------------------------------------------------
  // What a reader of the line finds at the end of a path.

  /** The path ends on the `args` of a command of the source. */
  ghost predicate EndsOnCommandArgs(source: Heap, skip: set<string>, from: Value, path: seq<string>) {
    && path != []
    && var owner := Follow(source, skip, from, path[..|path| - 1]);
    owner.Some? && owner.value.Ref? && owner.value.id in source
      && Redacts(source, source[owner.value.id], path[|path| - 1])
  }

  /** The source value at the end of the path is also on the way to it. */
  ghost predicate MetAgain(source: Heap, skip: set<string>, from: Value, path: seq<string>, id: Id) {
    exists i | 0 <= i < |path| :: Follow(source, skip, from, path[..i]) == Some(Ref(id))
  }

  /**
   * What stands at the end of a path of the result. `ancestors` are those of the
   * root the path starts from: none for a whole line.
   */
  ghost predicate FaithfulAt(source: Heap, h: Heap, ancestors: set<Id>, depth: nat, skip: set<string>,
                             from: Value, to: Value, path: seq<string>)
  {
    var sourceEnd := Follow(source, skip, from, path);
    var end := Follow(h, skip, to, path);
    end.Some? ==>
      && sourceEnd.Some?
      && (if EndsOnCommandArgs(source, skip, from, path) then end.value == REDACTED
          else if !sourceEnd.value.Ref? then end.value == sourceEnd.value
          else if end.value == CIRCULAR then
            sourceEnd.value.id in ancestors || MetAgain(source, skip, from, path, sourceEnd.value.id)
          else if end.value == TRUNCATED then depth + |path| > MAX_WALK_DEPTH
          else end.value.Ref? && Mirrors(source, h, if path == [] then skip else {}, sourceEnd.value.id, end.value.id))
  }

  lemma {:induction false} FollowThrough(h: Heap, skip: set<string>, v: Value, path: seq<string>)
    requires path != [] && v.Ref? && v.id in h && Walks(h[v.id], skip, path[0])
    ensures forall i | 0 < i <= |path| ::
              Follow(h, skip, v, path[..i]) == Follow(h, {}, h[v.id].props[path[0]], path[1..][..i - 1])
  {
    forall i | 0 < i <= |path|
      ensures Follow(h, skip, v, path[..i]) == Follow(h, {}, h[v.id].props[path[0]], path[1..][..i - 1])
    {
      assert path[..i][1..] == path[1..][..i - 1] && path[..i][0] == path[0];
    }
  }

  /** The marks of a path below a key are those of the path through the key. */
  lemma {:induction false} FaithfulBelowKey(source: Heap, ancestors: set<Id>, skip: set<string>, from: Id,
                                            path: seq<string>)
    requires path != [] && from in source && Walks(source[from], skip, path[0])
    requires !Redacts(source, source[from], path[0]) || |path| > 1
    ensures var v := source[from].props[path[0]];
            && Follow(source, skip, Ref(from), path) == Follow(source, {}, v, path[1..])
            && EndsOnCommandArgs(source, skip, Ref(from), path) == EndsOnCommandArgs(source, {}, v, path[1..])
            && forall id :: id == from || MetAgain(source, {}, v, path[1..], id) ==>
                 MetAgain(source, skip, Ref(from), path, id)
  {
    var v, rest := source[from].props[path[0]], path[1..];
    FollowThrough(source, skip, Ref(from), path);
    assert Follow(source, skip, Ref(from), path[..0]) == Some(Ref(from));
    if rest == [] {
      assert path == [path[0]];
    } else {
      assert path[..|path| - 1][1..] == rest[..|rest| - 1];
    }
    forall id | MetAgain(source, {}, v, rest, id) ensures MetAgain(source, skip, Ref(from), path, id) {
      var i :| 0 <= i < |rest| && Follow(source, {}, v, rest[..i]) == Some(Ref(id));
      assert path[1..][..(i + 1) - 1] == rest[..i];
      assert Follow(source, skip, Ref(from), path[..i + 1]) == Some(Ref(id));
    }
  }

  lemma AnswerAtRoot(source: Heap, h: Heap, ancestors: set<Id>, depth: nat, skip: set<string>, from: Value, to: Value)
    requires Answers(source, h, ancestors, depth, skip, from, to)
    ensures FaithfulAt(source, h, ancestors, depth, skip, from, to, [])
    ensures to.Ref? ==> from.Ref? && Mirrors(source, h, skip, from.id, to.id)
  {
    assert AnswersTo(0, source, h, ancestors, depth, skip, from, to);
  }

  lemma FaithfulAtArgs(source: Heap, h: Heap, ancestors: set<Id>, depth: nat, skip: set<string>, from: Id, to: Value,
                       path: seq<string>)
    requires from in source && path != [] && Walks(source[from], skip, path[0])
             && Redacts(source, source[from], path[0])
    requires to.Ref? && to.id in h && path[0] in h[to.id].props && h[to.id].props[path[0]] == REDACTED
    requires Follow(h, skip, to, path).Some?
    ensures FaithfulAt(source, h, ancestors, depth, skip, Ref(from), to, path)
  {
    assert Follow(h, {}, REDACTED, path[1..]).Some?;
    assert path[..|path| - 1] == [] && path[1..] == [];
  }

  lemma WalkedInBoth(source: Heap, h: Heap, skip: set<string>, from: Id, to: Id, key: string)
    requires Mirrors(source, h, skip, from, to) && Walks(h[to], skip, key)
    ensures from in source && Walks(source[from], skip, key)
  {
  }

  lemma NothingThereIsFaithful(source: Heap, h: Heap, ancestors: set<Id>, depth: nat, skip: set<string>,
                               from: Value, to: Value, path: seq<string>)
    requires Follow(h, skip, to, path).None?
    ensures FaithfulAt(source, h, ancestors, depth, skip, from, to, path)
  {
  }

  lemma FaithfulThroughKey(source: Heap, h: Heap, ancestors: set<Id>, depth: nat, skip: set<string>,
                           from: Id, to: Id, path: seq<string>)
    requires path != [] && from in source && to in h && path[0] in h[to].props
    requires Walks(source[from], skip, path[0]) && Walks(h[to], skip, path[0])
    requires !Redacts(source, source[from], path[0])
    requires FaithfulAt(source, h, ancestors + {from}, depth + 1, {}, source[from].props[path[0]], h[to].props[path[0]],
                        path[1..])
    ensures FaithfulAt(source, h, ancestors, depth, skip, Ref(from), Ref(to), path)
  {
    hide Mirrors, MetAgain, EndsOnCommandArgs;
    FaithfulBelowKey(source, ancestors, skip, from, path);
  }

  /**
   * Every path of the result mirrors the source: it ends in the source's own
   * value, in `[Redacted]` exactly when it ends on the `args` of a command of the
   * source, in `[Circular]` only where the source value is also an ancestor on
   * this very path, in `[Truncated]` only past the limit, or in a faithful copy.
   */
  lemma {:induction false} EveryPathIsFaithful(source: Heap, h: Heap, ancestors: set<Id>, depth: nat, skip: set<string>,
                                               from: Value, to: Value, path: seq<string>)
    requires WellFormed(source)
    requires Answers(source, h, ancestors, depth, skip, from, to)
    ensures FaithfulAt(source, h, ancestors, depth, skip, from, to, path)
    decreases |path|
  {
    hide Answers, Mirrors, FaithfulAt, Redacts;
    AnswerAtRoot(source, h, ancestors, depth, skip, from, to);
    if path != [] {
      if Follow(h, skip, to, path).None? {
        NothingThereIsFaithful(source, h, ancestors, depth, skip, from, to, path);
      } else {
        var key, rest := path[0], path[1..];
        WalkedInBoth(source, h, skip, from.id, to.id, key);
        AnswersOfKey(source, h, ancestors, depth, skip, from.id, to.id, key);
        if Redacts(source, source[from.id], key) {
          FaithfulAtArgs(source, h, ancestors, depth, skip, from.id, to, path);
        } else {
          EveryPathIsFaithful(source, h, ancestors + {from.id}, depth + 1, {}, source[from.id].props[key],
                              h[to.id].props[key], rest);
          FaithfulThroughKey(source, h, ancestors, depth, skip, from.id, to.id, path);
        }
      }
    }
  }

  /**
   * What stands under the `args` of an object a path of the source leads to: if the
   * object has the fields of a command, nothing or `[Redacted]`; if it has not, the
   * source's own text or number, a mark of the walk, or an object of the same kind.
   */
  ghost predicate ArgsAreRedactedExactly(source: Heap, h: Heap, skip: set<string>, from: Value, to: Value,
                                         path: seq<string>, id: Id)
  {
    var end := Follow(h, skip, to, path + ["args"]);
    Follow(source, skip, from, path) == Some(Ref(id)) && end.Some? ==>
      && id in source && "args" in source[id].props
      && if HasCommandFields(source, id) then end.value == Text("[Redacted]")
         else if !source[id].props["args"].Ref? then end.value == source[id].props["args"]
         else end.value == Text("[Circular]") || (end.value == Text("[Truncated]") && |path| >= 8)
              || (end.value.Ref? && end.value.id in h && source[id].props["args"].id in source
                  && h[end.value.id].kind == source[source[id].props["args"].id].kind)
  }

  lemma APathMeetsNoArgsOfACommand(source: Heap, h: Heap, skip: set<string>, from: Value, to: Value,
                                   path: seq<string>, id: Id)
    requires WellFormed(source) && FaithfulAt(source, h, {}, 0, skip, from, to, path + ["args"])
    ensures ArgsAreRedactedExactly(source, h, skip, from, to, path, id)
  {
    var longer := path + ["args"];
    assert longer[..|longer| - 1] == path;
    if Follow(source, skip, from, path) == Some(Ref(id)) && Follow(h, skip, to, longer).Some? {
      FollowOneMore(source, skip, from, path, id);
      CommandsAreKnownByTheirFields(source, id);
    }
  }

  /** The last step of a path. */
  lemma {:induction false} FollowOneMore(source: Heap, skip: set<string>, from: Value, path: seq<string>, id: Id)
    requires Follow(source, skip, from, path) == Some(Ref(id)) && Follow(source, skip, from, path + ["args"]).Some?
    ensures id in source && "args" in source[id].props
    ensures Follow(source, skip, from, path + ["args"]) == Some(source[id].props["args"])
    decreases |path|
  {
    var longer := path + ["args"];
    if path == [] {
      assert longer[1..] == [];
    } else {
      assert longer[1..] == path[1..] + ["args"];
      FollowOneMore(source, {}, source[from.id].props[path[0]], path[1..], id);
    }
  }

  /** A path of the result stops short of the source's only at a mark of the walk. */
  ghost predicate CutShort(h: Heap, skip: set<string>, to: Value, path: seq<string>) {
    exists i | 0 <= i <= |path| ::
      var end := Follow(h, skip, to, path[..i]);
      end == Some(CIRCULAR) || end == Some(TRUNCATED) || end == Some(REDACTED)
  }

  /** Nothing else is left out: a source path is in the result or meets a mark. */
  lemma {:induction false} EverySourcePathIsKeptOrCut(source: Heap, h: Heap, ancestors: set<Id>, depth: nat,
                                                      skip: set<string>,
                                                      from: Value, to: Value, path: seq<string>)
    requires WellFormed(source)
    requires Answers(source, h, ancestors, depth, skip, from, to)
    requires Follow(source, skip, from, path).Some?
    ensures Follow(h, skip, to, path).Some? || CutShort(h, skip, to, path)
    decreases |path|
  {
    assert AnswersTo(0, source, h, ancestors, depth, skip, from, to);
    if path != [] {
      if !to.Ref? {
        assert Follow(h, skip, to, path[..0]) == Some(to);
      } else {
        var node := source[from.id];
        var key, rest := path[0], path[1..];
        AnswersOfKey(source, h, ancestors, depth, skip, from.id, to.id, key);
        FollowThrough(h, skip, to, path);
        if Redacts(source, node, key) {
          assert path[1..][..1 - 1] == [];
          assert Follow(h, skip, to, path[..1]) == Some(REDACTED);
        } else {
          EverySourcePathIsKeptOrCut(source, h, ancestors + {from.id}, depth + 1, {}, node.props[key],
                                     h[to.id].props[key], rest);
          if CutShort(h, {}, h[to.id].props[key], rest) {
            var i :| 0 <= i <= |rest| &&
              var end := Follow(h, {}, h[to.id].props[key], rest[..i]);
              end == Some(CIRCULAR) || end == Some(TRUNCATED) || end == Some(REDACTED);
            assert rest[..i] == path[1..][..(i + 1) - 1];
            assert Follow(h, skip, to, path[..i + 1]) == Follow(h, {}, h[to.id].props[key], rest[..i]);
          }
        }
      }
    }
  }
}
