/** The CRM store's entities: which ones of a file are ACTIVE, after any sequence of operations. */
module CrmEntities {
  import opened Options
  import opened CrmStore

  /** The ACTIVE entities of a file, oldest first. */
  function ActiveOf(entities: seq<Entity>, file: nat): seq<string> {
    if entities == [] then []
    else
      var last := entities[|entities| - 1];
      ActiveOf(entities[..|entities| - 1], file) + (if last.active && last.file == file then [last.fields] else [])
  }

  predicate Alive(db: Db, source: nat) {
    source in db.sources ==> db.sources[source].status != Deleted
  }

  // ---- what an operation does to a file's entities --------------------------------------------------------

  /** A completion arrives while the file is listed and being processed. */
  predicate Finishes(db: Db, op: Op, f: nat) {
    op.CompleteFile? && op.file == f && f in db.files && db.files[f].listed && db.files[f].status == FileProcessing
  }

  /** The file is marked deleted, or its source is deleted, which takes a live source with no run in progress. */
  predicate Clears(db: Db, op: Op, f: nat) {
    || (op.MarkFilesDeleted? && f in op.files)
    || (op.SoftDelete? && f in db.files && db.files[f].source == op.source && MayDelete(db, op.source))
  }

  predicate MayDelete(db: Db, source: nat) {
    && source in db.sources && db.sources[source].status != Deleted
    && forall id :: id in db.runs && db.runs[id].source == source ==> db.runs[id].status !in {Queued, Running}
  }

  /** The first 2,000 at most. */
  function Capped(batch: seq<string>): seq<string> {
    batch[..if |batch| < 2000 then |batch| else 2000]
  }

  /** What the operations have brought a file: what its last completion brought, unless the file or its source was
      deleted since. */
  function Brought(ops: seq<Timed>, f: nat): seq<string> {
    if ops == [] then []
    else
      var before, op := RunAll(EMPTY_DB, ops[..|ops| - 1]), ops[|ops| - 1].op;
      if Finishes(before, op, f) then Capped(op.entities)
      else if Clears(before, op, f) then []
      else Brought(ops[..|ops| - 1], f)
  }

  // ---- the invariant --------------------------------------------------------------------------------------

  predicate Owned(db: Db) {
    forall i :: 0 <= i < |db.entities| ==> OwnedBy(db.entities[i], db.files)
  }

  predicate OwnedBy(e: Entity, files: map<nat, File>) {
    e.file in files && e.source == files[e.file].source
  }

  predicate CountOk(db: Db, f: nat)
    requires f in db.files
  {
    var file, active := db.files[f], ActiveOf(db.entities, f);
    && (!file.listed ==> active == [])
    && (file.listed && file.status == FileCompleted && Alive(db, file.source) ==>
          |active| == if file.entityCount < 2000 then file.entityCount else 2000)
  }

  predicate Counted(db: Db) {
    forall f :: f in db.files ==> CountOk(db, f)
  }

  predicate EntityInv(db: Db) {
    Owned(db) && Counted(db)
  }

  // ---- active entities under the store's updates ------------------------------------------------------------

  lemma {:induction false} ActiveAppend(a: seq<Entity>, b: seq<Entity>, f: nat)
    ensures ActiveOf(a + b, f) == ActiveOf(a, f) + ActiveOf(b, f)
  {
    if b == [] {
      assert a + b == a;
    } else {
      assert (a + b)[..|a + b| - 1] == a + b[..|b| - 1];
      ActiveAppend(a, b[..|b| - 1], f);
    }
  }

  lemma {:induction false} ActiveNew(file: nat, source: nat, batch: seq<string>, f: nat)
    ensures ActiveOf(NewEntities(file, source, batch), f) == if f == file then batch else []
  {
    if batch != [] {
      var n := |batch| - 1;
      ActiveNew(file, source, batch[..n], f);
      assert NewEntities(file, source, batch)[..n] == NewEntities(file, source, batch[..n]);
      assert batch[..n] + [batch[n]] == batch;
    }
  }

  /** `b` is `a` with exactly the entities of some kind withdrawn. */
  predicate WithdrawnFrom(a: seq<Entity>, b: seq<Entity>) {
    |b| == |a| && forall i :: 0 <= i < |a| ==> b[i] == a[i] || b[i] == a[i].(active := false)
  }

  lemma {:induction false} ActiveGone(a: seq<Entity>, b: seq<Entity>, f: nat)
    requires WithdrawnFrom(a, b)
    requires forall i :: 0 <= i < |b| && b[i].file == f ==> !b[i].active
    ensures ActiveOf(b, f) == []
  {
    if b != [] {
      ActiveGone(a[..|a| - 1], b[..|b| - 1], f);
    }
  }

  lemma {:induction false} ActiveSame(a: seq<Entity>, b: seq<Entity>, f: nat)
    requires WithdrawnFrom(a, b)
    requires forall i :: 0 <= i < |a| && a[i].file == f ==> b[i] == a[i]
    ensures ActiveOf(b, f) == ActiveOf(a, f)
  {
    if b != [] {
      ActiveSame(a[..|a| - 1], b[..|b| - 1], f);
    }
  }

  lemma ActiveWithdrawFiles(entities: seq<Entity>, files: set<nat>, f: nat)
    ensures ActiveOf(WithdrawFiles(entities, files), f) == if f in files then [] else ActiveOf(entities, f)
  {
    if f in files {
      ActiveGone(entities, WithdrawFiles(entities, files), f);
    } else {
      ActiveSame(entities, WithdrawFiles(entities, files), f);
    }
  }

  lemma ActiveWithdrawSource(db: Db, source: nat, f: nat)
    requires Owned(db)
    ensures ActiveOf(WithdrawSource(db.entities, source), f)
            == if f in db.files && db.files[f].source == source then [] else ActiveOf(db.entities, f)
  {
    if f in db.files && db.files[f].source == source {
      ActiveGone(db.entities, WithdrawSource(db.entities, source), f);
    } else {
      ActiveSame(db.entities, WithdrawSource(db.entities, source), f);
    }
  }

  // ---- steps --------------------------------------------------------------------------------------------------

  lemma CompleteActive(db: Db, id: nat, batch: seq<string>, f: nat)
    requires id in db.files && Persisted(db.files[id], |batch|).Some?
    ensures ActiveOf(DoCompleteFile(db, id, batch).entities, f) == if f == id then Capped(batch) else ActiveOf(db.entities, f)
  {
    hide ActiveOf;
    var source := db.files[id].source;
    var kept, news := WithdrawFiles(db.entities, {id}), NewEntities(id, source, Kept(batch));
    ActiveWithdrawFiles(db.entities, {id}, f);
    ActiveNew(id, source, Kept(batch), f);
    ActiveAppend(kept, news, f);
    assert ActiveOf(kept, f) + [] == ActiveOf(kept, f);
    assert [] + Kept(batch) == Capped(batch);
  }

  lemma MayDeleteExactly(db: Db, source: nat)
    ensures MayDelete(db, source) <==>
      source in db.sources && db.sources[source].status != Deleted && !HasActiveRun(db, source)
  {
  }

  /** Exactly three things change which entities of a file are ACTIVE: a completion makes them those it brings, the
      deletion of the file or of its source leaves none, and nothing else touches them. */
  lemma ActiveAfter(db: Db, op: Op, now: int, f: nat)
    requires Owned(db)
    ensures ActiveOf(Step(db, op, now).entities, f)
            == if Finishes(db, op, f) then Capped(op.entities)
               else if Clears(db, op, f) then [] else ActiveOf(db.entities, f)
  {
    hide ActiveOf;
    hide HasActiveRun;
    hide MayDelete;
    hide SetStages;
    hide RunningStage;
    match op {
      case CompleteFile(file, batch) =>
        if file in db.files && Persisted(db.files[file], |batch|).Some? {
          CompleteActive(db, file, batch, f);
        }
      case MarkFilesDeleted(files) => ActiveWithdrawFiles(db.entities, files, f);
      case SoftDelete(source) =>
        MayDeleteExactly(db, source);
        ActiveWithdrawSource(db, source, f);
      case _ =>
    }
  }

  /** What an operation may do to the columns of a file that the counts depend on. */
  lemma RowAfter(db: Db, op: Op, now: int, f: nat)
    requires f in Step(db, op, now).files
    ensures var t := Step(db, op, now);
      && (f !in db.files ==> t.files[f].listed && t.files[f].status == FilePending)
      && (f in db.files ==> FileLater(db, op, f, db.files[f], t.files[f]))
  {
    hide HasActiveRun;
    hide SetStages;
    hide RunningStage;
    if op.FailFile? && f in db.files {
      FailKeepsRow(db.files[f], op.stage, op.completed, op.pending);
    }
  }

  predicate FileLater(db: Db, op: Op, f: nat, a: File, b: File) {
    && b.source == a.source
    && (!b.listed ==> !a.listed || (op.MarkFilesDeleted? && f in op.files))
    && (b.status == FileCompleted && b.listed ==>
          || (Finishes(db, op, f) && b.entityCount == |op.entities|)
          || (a.status == FileCompleted && a.listed && b.entityCount == a.entityCount && !(op.MarkFilesDeleted? && f in op.files)))
  }

  lemma FailKeepsRow(file: File, stage: nat, completed: seq<nat>, pending: seq<nat>)
    ensures var r := FileFails(file, stage, completed, pending);
      r.Some? ==> r.value.source == file.source && r.value.listed == file.listed && r.value.status == FileFailed
  {
    var first := SetStages(file, Minus(pending, stage), PENDING);
    SetStagesAt(file, Minus(pending, stage), PENDING);
    SetStagesAt(first, Minus(completed, stage), COMPLETED);
  }

  lemma RowsStay(db: Db, op: Op, now: int, f: nat)
    requires f in db.files
    ensures f in Step(db, op, now).files && Step(db, op, now).files[f].source == db.files[f].source
  {
    hide HasActiveRun;
    hide SetStages;
    hide RunningStage;
    if op.FailFile? {
      FailKeepsRow(db.files[f], op.stage, op.completed, op.pending);
    }
  }

  lemma OwnedAfter(db: Db, op: Op, now: int)
    requires Owned(db)
    ensures Owned(Step(db, op, now))
  {
    var t := Step(db, op, now);
    LaterStep(db, op, now);
    forall i | 0 <= i < |t.entities|
      ensures OwnedBy(t.entities[i], t.files)
    {
      if i < |db.entities| {
        assert OwnedBy(db.entities[i], db.files);
        RowsStay(db, op, now, db.entities[i].file);
      } else {
        NewOwned(db, op, now, i);
      }
    }
  }

  lemma NewOwned(db: Db, op: Op, now: int, i: nat)
    requires |db.entities| <= i < |Step(db, op, now).entities|
    ensures OwnedBy(Step(db, op, now).entities[i], Step(db, op, now).files)
  {
    hide HasActiveRun;
    hide SetStages;
    hide RunningStage;
  }

  lemma AliveAfter(db: Db, op: Op, now: int, source: nat)
    requires Alive(Step(db, op, now), source)
    ensures Alive(db, source) && (op.SoftDelete? && op.source == source ==> !MayDelete(db, source))
  {
    hide SetStages;
    hide RunningStage;
    MayDeleteExactly(db, source);
    hide HasActiveRun;
    hide MayDelete;
  }

  lemma CountAfter(db: Db, op: Op, now: int, f: nat)
    requires EntityInv(db) && f in Step(db, op, now).files
    ensures CountOk(Step(db, op, now), f)
  {
    hide Step;
    hide ActiveOf;
    hide MayDelete;
    var t := Step(db, op, now);
    ActiveAfter(db, op, now, f);
    RowAfter(db, op, now, f);
    if f in db.files {
      assert CountOk(db, f);
      if Alive(t, t.files[f].source) {
        AliveAfter(db, op, now, t.files[f].source);
      }
    } else {
      NoneOwned(db, f);
    }
  }

  /** An unknown file has no entities. */
  lemma NoneOwned(db: Db, f: nat)
    requires Owned(db) && f !in db.files
    ensures ActiveOf(db.entities, f) == []
  {
    NoneOf(db.entities, f);
  }

  lemma {:induction false} NoneOf(entities: seq<Entity>, f: nat)
    requires forall i :: 0 <= i < |entities| ==> entities[i].file != f
    ensures ActiveOf(entities, f) == []
  {
    if entities != [] {
      NoneOf(entities[..|entities| - 1], f);
    }
  }

  lemma EntityStepKeeps(db: Db, op: Op, now: int)
    requires EntityInv(db)
    ensures EntityInv(Step(db, op, now))
  {
    hide Step;
    hide CountOk;
    OwnedAfter(db, op, now);
    forall f | f in Step(db, op, now).files
      ensures CountOk(Step(db, op, now), f)
    {
      CountAfter(db, op, now, f);
    }
  }

  // ---- every run ------------------------------------------------------------------------------------------------

  /** Entity generations: after any sequence of operations by any workers, the ACTIVE entities of every file
      are exactly those its last completion brought, at most 2,000 of them, unless the file or its source was
      deleted since, and then none; and a COMPLETED, listed file of a live source has as many as it counts. */
  lemma {:induction false} EntityGenerations(ops: seq<Timed>, f: nat)
    ensures EntityInv(RunAll(EMPTY_DB, ops))
    ensures ActiveOf(RunAll(EMPTY_DB, ops).entities, f) == Brought(ops, f)
  {
    hide Step;
    hide Finishes;
    hide Clears;
    if ops != [] {
      var before, last := RunAll(EMPTY_DB, ops[..|ops| - 1]), ops[|ops| - 1];
      EntityGenerations(ops[..|ops| - 1], f);
      EntityStepKeeps(before, last.op, last.now);
      ActiveAfter(before, last.op, last.now, f);
    }
  }

  /** Entities are history: rows are never lost or rewritten, and only ever go from ACTIVE to WITHDRAWN. */
  predicate Later(a: seq<Entity>, b: seq<Entity>) {
    |a| <= |b| && forall i :: 0 <= i < |a| ==> b[i] == a[i] || b[i] == a[i].(active := false)
  }

  lemma LaterStep(db: Db, op: Op, now: int)
    ensures Later(db.entities, Step(db, op, now).entities)
  {
    hide SetStages;
    hide HasActiveRun;
    hide RunningStage;
  }

  lemma {:induction false} OnlyWithdrawn(db: Db, ops: seq<Timed>)
    ensures Later(db.entities, RunAll(db, ops).entities)
  {
    if ops != [] {
      OnlyWithdrawn(db, ops[..|ops| - 1]);
      var mid := RunAll(db, ops[..|ops| - 1]);
      LaterStep(mid, ops[|ops| - 1].op, ops[|ops| - 1].now);
      LaterTwice(db.entities, mid.entities, RunAll(db, ops).entities);
    }
  }

  lemma LaterTwice(a: seq<Entity>, b: seq<Entity>, c: seq<Entity>)
    requires Later(a, b) && Later(b, c)
    ensures Later(a, c)
  {
  }

  // ---- deletion ---------------------------------------------------------------------------------------------------

  /** Marking files deleted takes them off the list with all their ACTIVE entities, and leaves every other file as
      it is. */
  lemma MarkedDeleted(db: Db, files: set<nat>, now: int, f: nat)
    requires EntityInv(db) && f in db.files
    ensures var t := Step(db, MarkFilesDeleted(files), now);
      && f in t.files
      && (if f in files then t.files[f] == db.files[f].(listed := false) && ActiveOf(t.entities, f) == []
          else t.files[f] == db.files[f] && ActiveOf(t.entities, f) == ActiveOf(db.entities, f))
  {
    ActiveAfter(db, MarkFilesDeleted(files), now, f);
  }

  /** Deleting a source that is there, live, and without a run in progress withdraws everything of its files and
      nothing of any other; otherwise nothing happens at all. */
  lemma SourceDeleted(db: Db, source: nat, now: int, f: nat)
    requires EntityInv(db)
    ensures var t := Step(db, SoftDelete(source), now);
      if MayDelete(db, source) then
        && source in t.sources && t.sources[source].status == Deleted
        && (forall other :: other != source ==> (other in t.sources <==> other in db.sources))
        && (forall other :: other != source && other in db.sources ==> t.sources[other] == db.sources[other])
        && t.files == db.files && t.runs == db.runs
        && ActiveOf(t.entities, f) == if f in db.files && db.files[f].source == source then [] else ActiveOf(db.entities, f)
      else t == db
  {
    hide MayDelete;
    hide HasActiveRun;
    MayDeleteExactly(db, source);
    ActiveAfter(db, SoftDelete(source), now, f);
  }

  /** The file that a completion reaches is COMPLETED with its count, and has exactly the first 2,000 it brings. */
  lemma CompletionBrings(db: Db, f: nat, batch: seq<string>, now: int)
    requires Owned(db) && Finishes(db, CompleteFile(f, batch), f)
    ensures var t := Step(db, CompleteFile(f, batch), now);
      && f in t.files && t.files[f].status == FileCompleted && t.files[f].entityCount == |batch|
      && t.files[f].failedStage.None? && t.files[f].stages == db.files[f].stages[PERSIST := COMPLETED]
      && ActiveOf(t.entities, f) == Capped(batch)
  {
    hide ActiveOf;
    ActiveAfter(db, CompleteFile(f, batch), now, f);
  }

  /** A file without ACTIVE entities, such as one of a deleted source, has none until a completion of it arrives,
      whatever else happens. */
  lemma {:induction false} StaysEmpty(db: Db, ops: seq<Timed>, f: nat)
    requires EntityInv(db) && ActiveOf(db.entities, f) == []
    requires forall k :: 0 <= k < |ops| ==> !Finishes(RunAll(db, ops[..k]), ops[k].op, f)
    ensures EntityInv(RunAll(db, ops)) && ActiveOf(RunAll(db, ops).entities, f) == []
  {
    hide Step;
    hide EntityInv;
    hide ActiveOf;
    hide Finishes;
    hide Clears;
    if ops != [] {
      var n := |ops| - 1;
      forall k | 0 <= k < n
        ensures !Finishes(RunAll(db, ops[..n][..k]), ops[..n][k].op, f)
      {
        assert ops[..n][..k] == ops[..k];
      }
      StaysEmpty(db, ops[..n], f);
      EmptyStep(RunAll(db, ops[..n]), ops[n].op, ops[n].now, f);
    }
  }

  lemma EmptyStep(db: Db, op: Op, now: int, f: nat)
    requires EntityInv(db) && ActiveOf(db.entities, f) == [] && !Finishes(db, op, f)
    ensures EntityInv(Step(db, op, now)) && ActiveOf(Step(db, op, now).entities, f) == []
  {
    EntityStepKeeps(db, op, now);
    ActiveAfter(db, op, now, f);
  }

  /** A deleted source's file gets ACTIVE entities again in exactly one way: a completion of that file that
      arrives while it is still listed and PROCESSING. */
  lemma LateCompletion(db: Db, op: Op, now: int, f: nat)
    requires EntityInv(db) && f in db.files && !Alive(db, db.files[f].source) && ActiveOf(db.entities, f) == []
    ensures ActiveOf(Step(db, op, now).entities, f) != []
            <==> op.CompleteFile? && op.file == f && op.entities != []
                 && db.files[f].listed && db.files[f].status == FileProcessing
  {
    hide Step;
    hide ActiveOf;
    ActiveAfter(db, op, now, f);
  }

  /** A worker that outlives its recovered run may start a file, the source may be deleted now that no run is
      active, and the file completed after that. */
  lemma LateWorker(db: Db, f: nat, run: nat, batch: seq<string>, ops: seq<Timed>) returns (more: seq<Timed>)
    requires RunAll(EMPTY_DB, ops) == db && EntityInv(db) && f in db.files && batch != []
    requires db.files[f].listed && db.files[f].status == FilePending
    requires db.files[f].source in db.sources && Alive(db, db.files[f].source) && !HasActiveRun(db, db.files[f].source)
    ensures var t := RunAll(EMPTY_DB, more);
      && f in t.files && t.files[f].source == db.files[f].source && !Alive(t, db.files[f].source)
      && ActiveOf(t.entities, f) == Capped(batch)
  {
    hide ActiveOf;
    hide EntityInv;
    hide HasActiveRun;
    hide Kept;
    hide Capped;
    hide WithdrawFiles;
    hide WithdrawSource;
    hide NewEntities;
    var source := db.files[f].source;
    var d1 := OnFile(db, f, Begun(db.files[f], run));
    SameRunsActive(db, d1, source);
    var d2 := DoSoftDelete(d1, source);
    var d3 := DoCompleteFile(d2, f, batch);
    more := RunMore(ops, db, BeginFile(f, run), d1);
    more := RunMore(more, d1, SoftDelete(source), d2);
    more := RunMore(more, d2, CompleteFile(f, batch), d3);
    EntityStepKeeps(db, BeginFile(f, run), 0);
    EntityStepKeeps(d1, SoftDelete(source), 0);
    CompletedActive(d2, f, batch);
  }

  lemma CompletedActive(db: Db, f: nat, batch: seq<string>)
    requires EntityInv(db) && f in db.files && db.files[f].listed && db.files[f].status == FileProcessing
    ensures ActiveOf(DoCompleteFile(db, f, batch).entities, f) == Capped(batch)
  {
    hide ActiveOf;
    ActiveAfter(db, CompleteFile(f, batch), 0, f);
  }

  lemma SameRunsActive(a: Db, b: Db, source: nat)
    requires a.runs == b.runs
    ensures HasActiveRun(a, source) == HasActiveRun(b, source)
  {
  }

  /** And that does happen: here with one source, one file and one run whose last heartbeat is older than
      time 1, recovered as stale. */
  lemma LateCompletionHappens() returns (ops: seq<Timed>)
    ensures var db := RunAll(EMPTY_DB, ops);
      1 in db.files && db.files[1].source == 1 && !Alive(db, 1) && ActiveOf(db.entities, 1) == ["record"]
  {
    hide EntityInv;
    ops := RecoveredRun();
    EntityGenerations(ops, 1);
    ops := LateWorker(RunAll(EMPTY_DB, ops), 1, 1, ["record"], ops);
  }

  /** One source with one claimed run. */
  const CLAIMED: Db := Db(
    map[1 := Source(Active, LastSync(None, None, None, None))],
    map[1 := Run(1, 0, Running, Some("w"), Some(0), None, 0, None)], map[], [])

  lemma ClaimedRun() returns (ops: seq<Timed>)
    ensures RunAll(EMPTY_DB, ops) == CLAIMED
  {
    var d1 := DoCreateSource(EMPTY_DB, 1);
    var d2 := DoCreateRun(d1, 1, 1, 0);
    ops := RunMore([], EMPTY_DB, CreateSource(1), d1);
    ops := RunMore(ops, d1, CreateRun(1, 1), d2);
    ops := RunMore(ops, d2, ClaimRun(1, "w"), CLAIMED);
  }

  lemma RecoveredRun() returns (ops: seq<Timed>)
    ensures var db := RunAll(EMPTY_DB, ops);
      && 1 in db.files && db.files[1].listed && db.files[1].status == FilePending && db.files[1].source == 1
      && 1 in db.sources && Alive(db, 1) && !HasActiveRun(db, 1)
  {
    hide RunningStage;
    ops := ClaimedRun();
    var d4 := DoUpsertFile(CLAIMED, 1, 1, "key", 1, true);
    ops := RunMore(ops, CLAIMED, UpsertFile(1, 1, "key", 1, true), d4);
    ops := RunMore(ops, d4, FailInterrupted(1, "interrupted", Some(1), None),
                   DoFailInterrupted(d4, 1, "interrupted", Some(1), None, 0));
  }

  lemma RunMore(ops: seq<Timed>, before: Db, op: Op, after: Db) returns (more: seq<Timed>)
    requires RunAll(EMPTY_DB, ops) == before && after == Step(before, op, 0)
    ensures RunAll(EMPTY_DB, more) == after
  {
    more := ops + [Timed(op, 0)];
    assert more[..|more| - 1] == ops;
  }
}
