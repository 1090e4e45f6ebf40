/**
 * Any number of runners migrating one database, their statements interleaved in
 * any order and any of them failing. Each runner has a session of its own; the
 * advisory lock is granted to a session while no other session holds it, and it
 * counts its grants. A connection that ends takes its grants with it.
 */
module MigrationRunners {
  import opened Wrappers

  type Migration = nat

  /** A row of the journal, with the run that committed it; `None` for the rows found there at first. */
  datatype Row = Row(id: Migration, owner: Option<Run>)

  /** The `number`th run of a runner. */
  datatype Run = Run(runner: nat, number: nat)

  /** Where a run stands. The phases from `Preparing` to `Releasing` are the locked body and its release. */
  datatype Phase =
    | Idle
    | Asking
    | Attempted
    | Preparing
    | Counting
    | Reading(before: nat)
    | Committing(before: nat, seen: seq<Row>)
    | Recounting(before: nat)
    | Releasing
    | Gone

  datatype Runner = Runner(folder: seq<Migration>, phase: Phase, number: nat, held: nat, heldBefore: bool)

  /** What a run returned: its own count and the journal's. */
  datatype Answer = Answer(run: Run, applied: int, total: nat, folder: seq<Migration>)

  datatype World = World(runners: seq<Runner>, journal: seq<Row>, answers: seq<Answer>)

  /** A statement of a runner; the flags say whether it failed and whether it took effect all the same. */
  datatype Step =
    | CallerLocks
    | CallerUnlocks
    | ReadSession(folder: seq<Migration>)
    | Lock
    | LockFails(granted: bool)
    | CleanUp(landed: bool)
    | Prepare(ok: bool)
    | CountBefore(ok: bool)
    | ReadJournal(ok: bool)
    | Commit(ok: bool, landed: bool)
    | CountAfter(ok: bool)
    | Unlock(landed: bool)
    | ConnectionEnds

  predicate InBody(phase: Phase) {
    phase.Preparing? || phase.Counting? || phase.Reading? || phase.Committing? || phase.Recounting? || phase.Releasing?
  }

  /** The phases of a run that committed nothing yet. */
  predicate AheadOfCommit(phase: Phase) {
    phase.Asking? || phase.Attempted? || phase.Preparing? || phase.Counting? || phase.Reading? || phase.Committing?
  }

  /** The lock can be granted to `i`: no other session holds it. */
  predicate Free(w: World, i: nat) {
    forall j | 0 <= j < |w.runners| :: j != i ==> w.runners[j].held == 0
  }

  predicate Enabled(w: World, i: nat, step: Step) {
    i < |w.runners| &&
    var r := w.runners[i];
    match step
    case CallerLocks => r.phase.Idle? && Free(w, i)
    case CallerUnlocks => r.phase.Idle? && r.held > 0
    case ReadSession(folder) => r.phase.Idle? && NoRepeat(folder)
    case Lock => r.phase.Asking? && Free(w, i)
    case LockFails(granted) => r.phase.Asking? && (granted ==> Free(w, i))
    case CleanUp(_) => r.phase.Attempted?
    case Prepare(_) => r.phase.Preparing?
    case CountBefore(_) => r.phase.Counting?
    case ReadJournal(_) => r.phase.Reading?
    case Commit(ok, landed) => r.phase.Committing? && (ok ==> landed)
    case CountAfter(_) => r.phase.Recounting?
    case Unlock(_) => r.phase.Releasing?
    case ConnectionEnds => true
  }

  predicate Holds(rows: seq<Row>, id: Migration) {
    exists k | 0 <= k < |rows| :: rows[k].id == id
  }

  /** The rows the migrator commits: the folder's migrations the journal it read does not hold. */
  function Pending(folder: seq<Migration>, seen: seq<Row>, run: Run): seq<Row> {
    if folder == [] then []
    else (if Holds(seen, folder[0]) then [] else [Row(folder[0], Some(run))]) + Pending(folder[1..], seen, run)
  }

  /** How many rows a run committed. */
  function CommittedBy(journal: seq<Row>, run: Run): nat {
    if journal == [] then 0
    else CommittedBy(journal[..|journal| - 1], run) + if journal[|journal| - 1].owner == Some(run) then 1 else 0
  }

  function Next(w: World, i: nat, step: Step): World {
    if !Enabled(w, i, step) then w
    else
      var r := w.runners[i];
      match step
      case CallerLocks => Set(w, i, r.(held := r.held + 1))
      case CallerUnlocks => Set(w, i, r.(held := r.held - 1))
      case ReadSession(folder) =>
        Set(w, i, r.(phase := Asking, folder := folder, number := r.number + 1, heldBefore := r.held > 0))
      case Lock => Set(w, i, r.(phase := Preparing, held := r.held + 1))
      case LockFails(granted) => Set(w, i, r.(phase := Attempted, held := r.held + if granted then 1 else 0))
      case CleanUp(landed) =>
        Set(w, i, r.(phase := Idle, held := if !r.heldBefore && r.held > 0 && landed then r.held - 1 else r.held))
      case Prepare(ok) => Set(w, i, r.(phase := if ok then Counting else Releasing))
      case CountBefore(ok) => Set(w, i, r.(phase := if ok then Reading(|w.journal|) else Releasing))
      case ReadJournal(ok) => Set(w, i, r.(phase := if ok then Committing(r.phase.before, w.journal) else Releasing))
      case Commit(ok, landed) =>
        var rows := if landed then Pending(r.folder, r.phase.seen, Run(i, r.number)) else [];
        Set(w, i, r.(phase := if ok then Recounting(r.phase.before) else Releasing)).(journal := w.journal + rows)
      case CountAfter(ok) =>
        var released := Set(w, i, r.(phase := Releasing));
        if !ok then released
        else
          var total := |w.journal|;
          released.(answers := w.answers + [Answer(Run(i, r.number), total - r.phase.before, total, r.folder)])
      case Unlock(landed) => Set(w, i, r.(phase := Idle, held := if r.held > 0 && landed then r.held - 1 else r.held))
      case ConnectionEnds => Set(w, i, r.(phase := Gone, held := 0))
  }

  function Set(w: World, i: nat, r: Runner): World
    requires i < |w.runners|
  {
    w.(runners := w.runners[i := r])
  }

  function RunAll(w: World, steps: seq<(nat, Step)>): World
    decreases |steps|
  {
    if steps == [] then w else RunAll(Next(w, steps[0].0, steps[0].1), steps[1..])
  }

  // ------------------------------------------------------------------
  // What every statement keeps.

  /** At most one session holds the lock. */
  predicate OneHolder(w: World) {
    forall i, j | 0 <= i < |w.runners| && 0 <= j < |w.runners| && i != j ::
      w.runners[i].held == 0 || w.runners[j].held == 0
  }

  predicate BodyIsLocked(w: World) {
    forall i | 0 <= i < |w.runners| :: InBody(w.runners[i].phase) ==> w.runners[i].held > 0
  }

  predicate NoRepeat(ids: seq<Migration>) {
    forall a, b | 0 <= a < b < |ids| :: ids[a] != ids[b]
  }

  predicate NothingTwice(journal: seq<Row>) {
    forall a, b | 0 <= a < b < |journal| :: journal[a].id != journal[b].id
  }

  /** Each row of a runner is of its current run or an earlier one. */
  predicate RowsAreOfRuns(w: World) {
    forall k | 0 <= k < |w.journal| && w.journal[k].owner.Some? ::
      var run := w.journal[k].owner.value;
      run.runner < |w.runners| && run.number <= w.runners[run.runner].number
      && (run.number == w.runners[run.runner].number ==> !AheadOfCommit(w.runners[run.runner].phase))
  }

  /** What a run in the body knows of the journal is so: nobody else writes to it. */
  predicate Knows(journal: seq<Row>, i: nat, r: Runner) {
    match r.phase
    case Reading(before) => before == |journal|
    case Committing(before, seen) => before == |journal| && seen == journal && NoRepeat(r.folder)
    case Recounting(before) =>
      && |journal| == before + CommittedBy(journal, Run(i, r.number))
      && forall id <- r.folder :: Holds(journal, id)
    case _ => true
  }

  predicate FoldersDoNotRepeat(w: World) {
    forall i | 0 <= i < |w.runners| :: AheadOfCommit(w.runners[i].phase) ==> NoRepeat(w.runners[i].folder)
  }

  predicate AllKnow(w: World) {
    forall i | 0 <= i < |w.runners| :: Knows(w.journal, i, w.runners[i])
  }

  /**
   * An answer is the number of rows of its own run, all among the rows it counted, with
   * every migration of its folder.
   */
  predicate IsTrue(journal: seq<Row>, a: Answer) {
    && a.total <= |journal|
    && a.applied == CommittedBy(journal, a.run) == CommittedBy(journal[..a.total], a.run)
    && forall id <- a.folder :: Holds(journal[..a.total], id)
  }

  /** An answer is of a run that is past its commit. */
  predicate IsOver(runners: seq<Runner>, a: Answer) {
    a.run.runner < |runners| && a.run.number <= runners[a.run.runner].number
    && (a.run.number == runners[a.run.runner].number ==>
          var phase := runners[a.run.runner].phase; !AheadOfCommit(phase) && !phase.Recounting?)
  }

  predicate AnswersAreTrue(w: World) {
    forall k | 0 <= k < |w.answers| :: IsTrue(w.journal, w.answers[k]) && IsOver(w.runners, w.answers[k])
  }

  predicate Sound(w: World) {
    && OneHolder(w) && BodyIsLocked(w) && NothingTwice(w.journal) && RowsAreOfRuns(w)
    && FoldersDoNotRepeat(w) && AllKnow(w) && AnswersAreTrue(w)
  }

  /** A world before any run: sessions that may hold the lock already, one at most, and a journal as found. */
  predicate IsInitial(w: World) {
    && (forall i | 0 <= i < |w.runners| :: w.runners[i].phase == Idle)
    && OneHolder(w) && NothingTwice(w.journal) && (forall row <- w.journal :: row.owner == None) && w.answers == []
  }

  // ------------------------------------------------------------------
  // Counting rows.

  lemma {:induction false} CommittedBySplits(a: seq<Row>, b: seq<Row>, run: Run)
    ensures CommittedBy(a + b, run) == CommittedBy(a, run) + CommittedBy(b, run)
  {
    if b == [] {
      assert a + b == a;
    } else {
      assert (a + b)[..|a + b| - 1] == a + b[..|b| - 1];
      CommittedBySplits(a, b[..|b| - 1], run);
    }
  }

  lemma {:induction false} NoneCommitted(journal: seq<Row>, run: Run)
    requires forall k | 0 <= k < |journal| :: journal[k].owner != Some(run)
    ensures CommittedBy(journal, run) == 0
  {
    if journal != [] {
      NoneCommitted(journal[..|journal| - 1], run);
    }
  }

  lemma {:induction false} AllCommitted(journal: seq<Row>, run: Run)
    requires forall k | 0 <= k < |journal| :: journal[k].owner == Some(run)
    ensures CommittedBy(journal, run) == |journal|
  {
    if journal != [] {
      AllCommitted(journal[..|journal| - 1], run);
    }
  }

  lemma HoldsGrows(a: seq<Row>, b: seq<Row>)
    ensures forall id :: Holds(a, id) || Holds(b, id) ==> Holds(a + b, id)
  {
    forall id | Holds(b, id) ensures Holds(a + b, id) {
      var k :| 0 <= k < |b| && b[k].id == id;
      assert (a + b)[|a| + k].id == id;
    }
    forall id | Holds(a, id) ensures Holds(a + b, id) {
      var k :| 0 <= k < |a| && a[k].id == id;
      assert (a + b)[k].id == id;
    }
  }

  /** The rows a commit adds: its own, of the folder, each new to the journal and to each other. */
  lemma {:induction false} PendingIsNew(folder: seq<Migration>, seen: seq<Row>, run: Run)
    requires NoRepeat(folder)
    ensures var rows := Pending(folder, seen, run);
            && NothingTwice(rows)
            && forall k | 0 <= k < |rows| ::
                 rows[k].owner == Some(run) && rows[k].id in folder && !Holds(seen, rows[k].id)
  {
    hide Holds;
    if folder != [] {
      var rest := Pending(folder[1..], seen, run);
      PendingIsNew(folder[1..], seen, run);
      assert folder[0] !in folder[1..];
      if Holds(seen, folder[0]) {
        assert Pending(folder, seen, run) == rest;
      } else {
        assert Pending(folder, seen, run) == [Row(folder[0], Some(run))] + rest;
      }
    }
  }

  /** After a commit no migration of the folder is missing. */
  lemma {:induction false} PendingMissesNone(folder: seq<Migration>, seen: seq<Row>, run: Run)
    ensures forall id <- folder :: Holds(seen, id) || Holds(Pending(folder, seen, run), id)
  {
    hide Holds;
    if folder != [] {
      var first := if Holds(seen, folder[0]) then [] else [Row(folder[0], Some(run))];
      PendingMissesNone(folder[1..], seen, run);
      HoldsGrows(first, Pending(folder[1..], seen, run));
      HoldsItsRow(folder[0], run);
      forall id <- folder ensures Holds(seen, id) || Holds(Pending(folder, seen, run), id) {
        assert id == folder[0] || id in folder[1..];
      }
    }
  }

  lemma HoldsItsRow(id: Migration, run: Run)
    ensures Holds([Row(id, Some(run))], id)
  {
    assert [Row(id, Some(run))][0].id == id;
  }

  // ------------------------------------------------------------------
  // Every statement keeps it.

  lemma LocksAreKept(w: World, i: nat, step: Step)
    requires Sound(w)
    ensures var w' := Next(w, i, step); OneHolder(w') && BodyIsLocked(w') && FoldersDoNotRepeat(w')
  {
    hide AllKnow, AnswersAreTrue, RowsAreOfRuns, NothingTwice, Pending;
  }

  lemma RowsKeepTheirRuns(w: World, i: nat, step: Step)
    requires Sound(w)
    ensures RowsAreOfRuns(Next(w, i, step))
  {
    hide AllKnow, AnswersAreTrue, OneHolder, BodyIsLocked, NothingTwice, Pending, Free;
    if Enabled(w, i, step) && step.Commit? {
      PendingIsNew(w.runners[i].folder, w.runners[i].phase.seen, Run(i, w.runners[i].number));
    }
  }

  /** Without a commit the journal stays, and so does what the others know of it. */
  lemma QuietStepKeeps(w: World, i: nat, step: Step)
    requires Sound(w) && !step.Commit?
    ensures var w' := Next(w, i, step); w'.journal == w.journal && AllKnow(w')
  {
    hide AnswersAreTrue, OneHolder, BodyIsLocked, NothingTwice, RowsAreOfRuns, Pending, Free, Holds, CommittedBy;
  }

  /** A commit is made in the body, so by the only run in it. */
  lemma CommitKeeps(w: World, i: nat, step: Step)
    requires Sound(w) && step.Commit? && Enabled(w, i, step)
    ensures var w' := Next(w, i, step); NothingTwice(w'.journal) && AllKnow(w')
  {
    hide AnswersAreTrue, FoldersDoNotRepeat, Free, Pending, CommittedBy, Holds;
    var r := w.runners[i];
    var run := Run(i, r.number);
    var rows := if step.landed then Pending(r.folder, r.phase.seen, run) else [];
    CommitAdds(w.journal, r, rows, i, step.landed);
    NoneCommitted(w.journal, run);
    forall j | 0 <= j < |w.runners| && j != i
      ensures Knows(w.journal + rows, j, w.runners[j])
    {
      assert !InBody(w.runners[j].phase);
    }
  }

  lemma CommitAdds(journal: seq<Row>, r: Runner, rows: seq<Row>, i: nat, landed: bool)
    requires r.phase.Committing? && r.phase.seen == journal && NoRepeat(r.folder) && NothingTwice(journal)
    requires rows == if landed then Pending(r.folder, r.phase.seen, Run(i, r.number)) else []
    ensures NothingTwice(journal + rows)
    ensures CommittedBy(journal + rows, Run(i, r.number)) == CommittedBy(journal, Run(i, r.number)) + |rows|
    ensures landed ==> forall id <- r.folder :: Holds(journal + rows, id)
  {
    hide CommittedBy;
    var run := Run(i, r.number);
    PendingIsNew(r.folder, journal, run);
    PendingMissesNone(r.folder, journal, run);
    HoldsGrows(journal, rows);
    CommittedBySplits(journal, rows, run);
    AllCommitted(rows, run);
    forall a, b | 0 <= a < |journal| && 0 <= b < |rows| ensures journal[a].id != rows[b].id {
      assert !Holds(journal, rows[b].id);
    }
  }

  lemma AnswersStayTrue(w: World, i: nat, step: Step)
    requires Sound(w)
    ensures AnswersAreTrue(Next(w, i, step))
  {
    hide OneHolder, BodyIsLocked, NothingTwice, RowsAreOfRuns, Free, Pending, CommittedBy, Holds, FoldersDoNotRepeat;
    var w' := Next(w, i, step);
    assert w.journal[..|w.journal|] == w.journal;
    forall k | 0 <= k < |w.answers| ensures IsTrue(w'.journal, w.answers[k]) && IsOver(w'.runners, w.answers[k]) {
      var a := w.answers[k];
      if Enabled(w, i, step) && step.Commit? {
        var r := w.runners[i];
        var rows := if step.landed then Pending(r.folder, r.phase.seen, Run(i, r.number)) else [];
        AnswerOutlivesCommit(w.journal, rows, a, Run(i, r.number), r, step.landed);
      }
    }
  }

  /** The rows another run commits do not change what a run that is over has committed. */
  lemma AnswerOutlivesCommit(journal: seq<Row>, rows: seq<Row>, a: Answer, run: Run, r: Runner, landed: bool)
    requires IsTrue(journal, a) && a.run != run && r.phase.Committing? && NoRepeat(r.folder)
    requires rows == if landed then Pending(r.folder, r.phase.seen, run) else []
    ensures IsTrue(journal + rows, a)
  {
    hide Holds, CommittedBy, Pending;
    assert (journal + rows)[..a.total] == journal[..a.total];
    PendingIsNew(r.folder, r.phase.seen, run);
    CommittedBySplits(journal, rows, a.run);
    NoneCommitted(rows, a.run);
  }

  lemma NextIsSound(w: World, i: nat, step: Step)
    requires Sound(w)
    ensures Sound(Next(w, i, step)) && w.journal <= Next(w, i, step).journal && w.answers <= Next(w, i, step).answers
  {
    hide OneHolder, BodyIsLocked, NothingTwice, RowsAreOfRuns, AllKnow, AnswersAreTrue, FoldersDoNotRepeat, Free,
         Pending;
    LocksAreKept(w, i, step);
    RowsKeepTheirRuns(w, i, step);
    AnswersStayTrue(w, i, step);
    if step.Commit? && Enabled(w, i, step) {
      CommitKeeps(w, i, step);
    } else if !step.Commit? {
      QuietStepKeeps(w, i, step);
    }
  }

  lemma {:induction false} RunIsSound(w: World, steps: seq<(nat, Step)>)
    requires Sound(w)
    ensures Sound(RunAll(w, steps)) && w.journal <= RunAll(w, steps).journal && w.answers <= RunAll(w, steps).answers
    decreases |steps|
  {
    hide Next, Sound;
    if steps != [] {
      NextIsSound(w, steps[0].0, steps[0].1);
      RunIsSound(Next(w, steps[0].0, steps[0].1), steps[1..]);
    }
  }

  lemma InitialIsSound(w: World)
    requires IsInitial(w)
    ensures Sound(w)
  {
  }

  // ------------------------------------------------------------------
  // The promises, for every interleaving.

  /** At most one runner is inside the locked body, and its session is the one that holds the lock. */
  lemma AtMostOneInside(w: World, steps: seq<(nat, Step)>, i: nat, j: nat)
    requires IsInitial(w) && i < |RunAll(w, steps).runners| && j < |RunAll(w, steps).runners|
    requires InBody(RunAll(w, steps).runners[i].phase) && InBody(RunAll(w, steps).runners[j].phase)
    ensures i == j && RunAll(w, steps).runners[i].held > 0 && Free(RunAll(w, steps), i)
  {
    InitialIsSound(w);
    RunIsSound(w, steps);
  }

  /** No migration is committed twice, by however many runners. */
  lemma NoMigrationIsCommittedTwice(w: World, steps: seq<(nat, Step)>)
    requires IsInitial(w)
    ensures NothingTwice(RunAll(w, steps).journal) && w.journal <= RunAll(w, steps).journal
  {
    InitialIsSound(w);
    RunIsSound(w, steps);
  }

  /**
   * What a run returned is, at any later moment, exactly the number of migrations
   * that run committed; they are among the rows it counted, and so is every
   * migration of its folder.
   */
  lemma AppliedIsTheRunsOwn(w: World, steps: seq<(nat, Step)>, a: Answer)
    requires IsInitial(w) && a in RunAll(w, steps).answers
    ensures var end := RunAll(w, steps);
            && a.total <= |end.journal|
            && a.applied == CommittedBy(end.journal, a.run) == CommittedBy(end.journal[..a.total], a.run)
            && forall id <- a.folder :: Holds(end.journal[..a.total], id)
  {
    InitialIsSound(w);
    RunIsSound(w, steps);
  }

  // ------------------------------------------------------------------
  // A run gives up what it took.

  /** A session that did not hold the lock ahead of its run holds it once in the body, and not before it asks. */
  predicate GrantsAgree(w: World) {
    forall i | 0 <= i < |w.runners| && !w.runners[i].heldBefore ::
      var r := w.runners[i];
      && (r.phase.Asking? ==> r.held == 0) && (r.phase.Attempted? ==> r.held <= 1)
      && (InBody(r.phase) ==> r.held == 1)
  }

  lemma {:induction false} RunKeepsGrants(w: World, steps: seq<(nat, Step)>)
    requires GrantsAgree(w)
    ensures GrantsAgree(RunAll(w, steps))
    decreases |steps|
  {
    hide Next, GrantsAgree;
    if steps != [] {
      NextKeepsGrants(w, steps[0].0, steps[0].1);
      RunKeepsGrants(Next(w, steps[0].0, steps[0].1), steps[1..]);
    }
  }

  lemma NextKeepsGrants(w: World, i: nat, step: Step)
    requires GrantsAgree(w)
    ensures GrantsAgree(Next(w, i, step))
  {
    hide Free, Pending;
  }

  /** Every runner that asks may now be granted the lock. */
  predicate LockIsOpen(w: World) {
    forall j | 0 <= j < |w.runners| && w.runners[j].phase.Asking? :: Enabled(w, j, Lock)
  }

  /**
   * A run of a session that did not hold the lock already gives it back to all the
   * others: with its unlock, with the cleanup of an attempt that was granted all
   * the same, or with the end of its connection.
   */
  lemma TheLockIsGivenBack(w: World, steps: seq<(nat, Step)>, i: nat, step: Step)
    requires IsInitial(w) && step in {Unlock(true), CleanUp(true), ConnectionEnds}
    requires var now := RunAll(w, steps);
             Enabled(now, i, step) && now.runners[i].held > 0 && !now.runners[i].heldBefore
    ensures LockIsOpen(Next(RunAll(w, steps), i, step))
  {
    hide RunAll, NothingTwice, RowsAreOfRuns, AllKnow, AnswersAreTrue, FoldersDoNotRepeat, BodyIsLocked;
    InitialIsSound(w);
    RunIsSound(w, steps);
    RunKeepsGrants(w, steps);
    var now := RunAll(w, steps);
    assert forall j | 0 <= j < |now.runners| && j != i :: now.runners[j].held == 0;
    assert Next(now, i, step).runners[i].held == 0;
  }

  // ------------------------------------------------------------------
  // A run nothing disturbs.

  /** The statements of a run, none of them failing. */
  function Undisturbed(i: nat, folder: seq<Migration>): seq<(nat, Step)> {
    [(i, ReadSession(folder)), (i, Lock), (i, Prepare(true)), (i, CountBefore(true)), (i, ReadJournal(true)),
     (i, Commit(true, true)), (i, CountAfter(true)), (i, Unlock(true))]
  }

  function PlaceIn(folder: seq<Migration>, id: Migration): nat {
    if folder == [] || folder[0] == id then 0 else 1 + PlaceIn(folder[1..], id)
  }

  predicate InFolderOrder(folder: seq<Migration>, rows: seq<Row>) {
    forall a, b | 0 <= a < b < |rows| :: PlaceIn(folder, rows[a].id) < PlaceIn(folder, rows[b].id)
  }

  /** Migrations are committed in the order of the folder. */
  lemma {:induction false} PendingIsInFolderOrder(folder: seq<Migration>, seen: seq<Row>, run: Run)
    requires NoRepeat(folder)
    ensures InFolderOrder(folder, Pending(folder, seen, run))
  {
    hide Holds;
    if folder != [] {
      var rest := Pending(folder[1..], seen, run);
      PendingIsInFolderOrder(folder[1..], seen, run);
      PendingIsNew(folder[1..], seen, run);
      assert folder[0] !in folder[1..];
      assert forall k | 0 <= k < |rest| ::
               PlaceIn(folder, rest[k].id) == 1 + PlaceIn(folder[1..], rest[k].id);
      assert PlaceIn(folder, folder[0]) == 0;
    }
  }

  /** The journal after a run: what was there, and behind it what the folder has more, in its order. */
  ghost predicate IsMigrated(before: seq<Row>, after: seq<Row>, folder: seq<Migration>, run: Run) {
    && before <= after
    && (forall k | |before| <= k < |after| :: after[k].owner == Some(run))
    && (forall id :: Holds(after, id) <==> Holds(before, id) || id in folder)
    && NothingTwice(after) && InFolderOrder(folder, after[|before|..])
  }

  lemma CommitMigrates(journal: seq<Row>, folder: seq<Migration>, run: Run)
    requires NoRepeat(folder) && NothingTwice(journal)
    ensures IsMigrated(journal, journal + Pending(folder, journal, run), folder, run)
  {
    hide Holds, CommittedBy, Pending;
    var rows := Pending(folder, journal, run);
    PendingIsNew(folder, journal, run);
    PendingMissesNone(folder, journal, run);
    PendingIsInFolderOrder(folder, journal, run);
    HoldsGrows(journal, rows);
    assert (journal + rows)[|journal|..] == rows;
    forall a, b | 0 <= a < |journal| && 0 <= b < |rows| ensures journal[a].id != rows[b].id {
      HoldsOf(journal, a);
    }
    forall id | Holds(journal + rows, id) ensures Holds(journal, id) || id in folder {
      HoldsSplits(journal, rows, id);
    }
  }

  lemma HoldsOf(rows: seq<Row>, k: nat)
    requires k < |rows|
    ensures Holds(rows, rows[k].id)
  {
  }

  lemma HoldsSplits(a: seq<Row>, b: seq<Row>, id: Migration)
    requires Holds(a + b, id)
    ensures Holds(a, id) || exists k | 0 <= k < |b| :: b[k].id == id
  {
    var k :| 0 <= k < |a + b| && (a + b)[k].id == id;
    if k >= |a| {
      assert b[k - |a|].id == id;
    }
  }

  /**
   * A run nothing disturbs, with the lock free for it, commits exactly what its
   * folder has and the journal does not, answers with how many those are, and
   * leaves its own session and every other as it was.
   */
  lemma AnUndisturbedRunMigrates(w: World, steps: seq<(nat, Step)>, i: nat, folder: seq<Migration>)
    requires IsInitial(w) && i < |RunAll(w, steps).runners| && NoRepeat(folder)
    requires RunAll(w, steps).runners[i].phase == Idle && Free(RunAll(w, steps), i)
    ensures var now := RunAll(w, steps);
      var end := RunAll(now, Undisturbed(i, folder));
      var run := Run(i, now.runners[i].number + 1);
      && IsMigrated(now.journal, end.journal, folder, run)
      && end.answers == now.answers + [Answer(run, |end.journal| - |now.journal|, |end.journal|, folder)]
      && |end.runners| == |now.runners|
      && (forall j | 0 <= j < |now.runners| && j != i :: end.runners[j] == now.runners[j])
      && end.runners[i].phase == Idle && end.runners[i].held == now.runners[i].held
  {
    hide RunAll, IsMigrated, Pending, Next, Free, RowsAreOfRuns, AllKnow, AnswersAreTrue, FoldersDoNotRepeat;
    InitialIsSound(w);
    RunIsSound(w, steps);
    var now := RunAll(w, steps);
    CommitMigrates(now.journal, folder, Run(i, now.runners[i].number + 1));
    UndisturbedUnfolds(now, i, folder);
    TheStartDoes(now, i, folder);
    TheBodyDoes(now, i, Next(Next(Next(Next(now, i, ReadSession(folder)), i, Lock), i, Prepare(true)), i,
                             CountBefore(true)));
  }

  lemma TheStartDoes(now: World, i: nat, folder: seq<Migration>)
    requires i < |now.runners| && NoRepeat(folder) && now.runners[i].phase == Idle && Free(now, i)
    ensures var r := now.runners[i];
      Next(Next(Next(Next(now, i, ReadSession(folder)), i, Lock), i, Prepare(true)), i, CountBefore(true))
      == Set(now, i, r.(phase := Reading(|now.journal|), folder := folder, number := r.number + 1,
                        heldBefore := r.held > 0, held := r.held + 1))
  {
    hide Free;
    var r := now.runners[i];
    FreeStays(now, i, Next(now, i, ReadSession(folder)));
    assert Next(Next(now, i, ReadSession(folder)), i, Lock)
           == Set(now, i, r.(phase := Preparing, folder := folder, number := r.number + 1,
                             heldBefore := r.held > 0, held := r.held + 1));
  }

  lemma FreeStays(w: World, i: nat, w': World)
    requires Free(w, i) && i < |w.runners| == |w'.runners|
    requires forall j | 0 <= j < |w.runners| && j != i :: w'.runners[j].held == w.runners[j].held
    ensures Free(w', i)
  {
  }

  lemma TheBodyDoes(now: World, i: nat, reading: World)
    requires i < |now.runners| && |reading.runners| == |now.runners|
    requires reading.runners[i].phase == Reading(|now.journal|)
    requires reading == Set(now, i, reading.runners[i]) && reading.runners[i].held > 0
    ensures var r := reading.runners[i];
      var run := Run(i, r.number);
      var end := Next(Next(Next(Next(reading, i, ReadJournal(true)), i, Commit(true, true)), i, CountAfter(true)), i,
                      Unlock(true));
      && end.journal == now.journal + Pending(r.folder, now.journal, run)
      && end.answers == now.answers + [Answer(run, |end.journal| - |now.journal|, |end.journal|, r.folder)]
      && end.runners == now.runners[i := r.(phase := Idle, held := r.held - 1)]
  {
    hide Pending, Free;
    var read := Next(reading, i, ReadJournal(true));
    var committed := Next(read, i, Commit(true, true));
    var counted := Next(committed, i, CountAfter(true));
    assert read.runners[i].phase == Committing(|now.journal|, now.journal);
    assert committed.runners[i].phase == Recounting(|now.journal|);
    assert counted.runners[i].phase == Releasing;
  }

  lemma UndisturbedUnfolds(w: World, i: nat, folder: seq<Migration>)
    ensures RunAll(w, Undisturbed(i, folder))
            == Next(Next(Next(Next(Next(Next(Next(Next(w, i, ReadSession(folder)), i, Lock), i, Prepare(true)), i,
                                             CountBefore(true)), i, ReadJournal(true)), i, Commit(true, true)), i,
                              CountAfter(true)), i, Unlock(true))
  {
    hide Next, RunAll;
    var steps := Undisturbed(i, folder);
    var locking := Next(w, i, ReadSession(folder));
    var preparing := Next(locking, i, Lock);
    var counting := Next(preparing, i, Prepare(true));
    var reading := Next(counting, i, CountBefore(true));
    var committing := Next(reading, i, ReadJournal(true));
    var recounting := Next(committing, i, Commit(true, true));
    var releasing := Next(recounting, i, CountAfter(true));
    RunUnfolds(w, steps, 0);
    RunUnfolds(locking, steps, 1);
    RunUnfolds(preparing, steps, 2);
    RunUnfolds(counting, steps, 3);
    RunUnfolds(reading, steps, 4);
    RunUnfolds(committing, steps, 5);
    RunUnfolds(recounting, steps, 6);
    RunUnfolds(releasing, steps, 7);
    assert steps[0..] == steps;
  }

  lemma RunUnfolds(w: World, steps: seq<(nat, Step)>, k: nat)
    requires k < |steps|
    ensures RunAll(w, steps[k..]) == RunAll(Next(w, steps[k].0, steps[k].1), steps[k + 1..])
    ensures k + 1 == |steps| ==> RunAll(w, steps[k..]) == Next(w, steps[k].0, steps[k].1)
  {
    hide Next;
    assert steps[k..][1..] == steps[k + 1..];
  }

  // ------------------------------------------------------------------
  // Statements that fail, and the lock of the caller.

  /** A statement of the body that failed. */
  predicate FailsInTheBody(step: Step) {
    match step
    case Prepare(ok) => !ok
    case CountBefore(ok) => !ok
    case ReadJournal(ok) => !ok
    case Commit(ok, _) => !ok
    case CountAfter(ok) => !ok
    case _ => false
  }

  /**
   * A statement of the body that fails is the last of its run ahead of the release:
   * it answers nothing, and commits nothing unless it is a commit that landed all
   * the same.
   */
  lemma AFailureEndsTheBody(w: World, i: nat, step: Step)
    requires Enabled(w, i, step) && FailsInTheBody(step)
    ensures var w' := Next(w, i, step);
      && w'.runners[i] == w.runners[i].(phase := Releasing) && w'.answers == w.answers
      && (w'.journal == w.journal || (step.Commit? && step.landed))
  {
    hide Pending, Free;
  }

  /** The caller took the lock ahead of the runs of its session, and it is still held for it. */
  predicate CallerHolds(w: World, i: nat) {
    i < |w.runners|
    && var r := w.runners[i];
       && r.held >= (if InBody(r.phase) then 2 else 1) && !r.phase.Gone?
       && (!r.phase.Idle? ==> r.heldBefore)
  }

  /** The runs of a session never give up the lock its caller holds, whatever of them fails. */
  lemma {:induction false} ACallerKeepsItsLock(w: World, i: nat, steps: seq<(nat, Step)>)
    requires CallerHolds(w, i) && (i, CallerUnlocks) !in steps && (i, ConnectionEnds) !in steps
    ensures CallerHolds(RunAll(w, steps), i)
    decreases |steps|
  {
    hide Next, CallerHolds;
    if steps != [] {
      assert steps[0] in steps;
      OneStepKeepsItsLock(w, i, steps[0].0, steps[0].1);
      ACallerKeepsItsLock(Next(w, steps[0].0, steps[0].1), i, steps[1..]);
    }
  }

  lemma OneStepKeepsItsLock(w: World, i: nat, j: nat, step: Step)
    requires CallerHolds(w, i) && (j == i ==> !step.CallerUnlocks? && !step.ConnectionEnds?)
    ensures CallerHolds(Next(w, j, step), i)
  {
    hide Pending, Free;
  }
}
