/** The sync store as the program keeps it: tables updated in place, one transaction a method. */
module CrmRepo {
  import opened Options
  import opened CrmStore

  const IN_LIST_BATCH := 500

  /** Marking files deleted in two transactions is marking them in one. */
  lemma DeletedTwice(db: Db, a: set<nat>, b: set<nat>)
    ensures DoMarkFilesDeleted(DoMarkFilesDeleted(db, a), b) == DoMarkFilesDeleted(db, a + b)
  {
    var t, u := DoMarkFilesDeleted(DoMarkFilesDeleted(db, a), b), DoMarkFilesDeleted(db, a + b);
    assert t.entities == u.entities;
    assert t.files == u.files;
  }

  lemma DeletedNone(db: Db)
    ensures DoMarkFilesDeleted(db, {}) == db
  {
    assert DoMarkFilesDeleted(db, {}).entities == db.entities;
    assert DoMarkFilesDeleted(db, {}).files == db.files;
  }

  // ---- stage and column updates -------------------------------------------------------------------------

  datatype Attempts = Keep | Zero | OneMore

  /** The columns a file update writes next to the stages; `None` leaves a column as it is. */
  datatype Columns = Columns(status: FileStatus, failedStage: Option<nat>, attempts: Attempts, lastRun: Option<nat>,
                             entityCount: Option<nat>, relist: bool)

  function WithStages(file: File, changes: seq<Change>): File {
    if changes == [] then file
    else
      var last := changes[|changes| - 1];
      SetStage(WithStages(file, changes[..|changes| - 1]), last.stage, last.status)
  }

  function Written(file: File, columns: Option<Columns>): File {
    match columns
    case None => file
    case Some(c) =>
      file.(status := c.status, failedStage := c.failedStage, listed := file.listed || c.relist,
            attempts := match c.attempts case Keep => file.attempts case Zero => 0 case OneMore => file.attempts + 1,
            lastRun := if c.lastRun.Some? then c.lastRun.value else file.lastRun,
            entityCount := if c.entityCount.Some? then c.entityCount.value else file.entityCount)
  }

  /** One change for each of the stages. */
  function Each(stages: seq<nat>, status: StageStatus): seq<Change>
    decreases |stages|
  {
    if stages == [] then [] else [Change.Change(stages[0], status)] + Each(stages[1..], status)
  }

  const FILE_STAGES: seq<nat> := [DOWNLOAD, EXTRACTION, INTELLIGENCE, ENTITIES, PERSIST]

  lemma {:induction false} WithStagesConcat(file: File, a: seq<Change>, b: seq<Change>)
    ensures WithStages(file, a + b) == WithStages(WithStages(file, a), b)
  {
    hide SetStage;
    if b == [] {
      assert a + b == a;
    } else {
      assert (a + b)[..|a + b| - 1] == a + b[..|b| - 1];
      WithStagesConcat(file, a, b[..|b| - 1]);
    }
  }

  lemma WithStagesOne(file: File, change: Change)
    ensures WithStages(file, [change]) == SetStage(file, change.stage, change.status)
  {
    assert [change][..0] == [];
  }

  lemma {:induction false} EachSets(file: File, stages: seq<nat>, status: StageStatus)
    ensures WithStages(file, Each(stages, status)) == SetStages(file, stages, status)
    decreases |stages|
  {
    hide SetStage;
    if stages != [] {
      var first := Change.Change(stages[0], status);
      WithStagesConcat(file, [first], Each(stages[1..], status));
      WithStagesOne(file, first);
      EachSets(SetStage(file, stages[0], status), stages[1..], status);
    }
  }

  /** Putting every stage back leaves nothing of what they were. */
  lemma AllPutBack(file: File)
    ensures WithStages(file, Each(FILE_STAGES, PENDING)) == file.(stages := ALL_PENDING)
  {
    EachSets(file, FILE_STAGES, PENDING);
    SetStagesAt(file, FILE_STAGES, PENDING);
    forall i | 0 <= i < STAGES ensures i in FILE_STAGES {
      assert FILE_STAGES[i] == i;
    }
    assert SetStages(file, FILE_STAGES, PENDING).stages == ALL_PENDING;
  }

  /** The changes of a failing file: what never ran back to PENDING, what ran COMPLETED, then the failure. */
  function FailChanges(stage: nat, completed: seq<nat>, pending: seq<nat>): seq<Change> {
    Each(Minus(pending, stage), PENDING) + Each(Minus(completed, stage), COMPLETED) + [Change.Change(stage, FAILED)]
  }

  lemma FailChangesSet(file: File, stage: nat, completed: seq<nat>, pending: seq<nat>)
    ensures WithStages(file, FailChanges(stage, completed, pending))
            == SetStage(SetStages(SetStages(file, Minus(pending, stage), PENDING), Minus(completed, stage), COMPLETED),
                        stage, FAILED)
  {
    hide SetStage;
    hide SetStages;
    var back, done := Each(Minus(pending, stage), PENDING), Each(Minus(completed, stage), COMPLETED);
    var failure := Change.Change(stage, FAILED);
    WithStagesConcat(file, back + done, [failure]);
    WithStagesConcat(file, back, done);
    EachSets(file, Minus(pending, stage), PENDING);
    EachSets(WithStages(file, back), Minus(completed, stage), COMPLETED);
    WithStagesOne(WithStages(file, back + done), failure);
  }

  lemma FailedByUpdate(file: File, stage: nat)
    ensures Written(WithStages(file, [Change.Change(stage, FAILED)]),
                    Some(Columns(FileFailed, Some(stage), Keep, None, None, false))) == FailedAt(file, stage)
  {
    WithStagesOne(file, Change.Change(stage, FAILED));
  }

  lemma StagesOnly(file: File, stage: nat, completed: seq<nat>, pending: seq<nat>)
    ensures var r := WithStages(file, FailChanges(stage, completed, pending));
      r == file.(stages := r.stages)
  {
    hide SetStages;
    FailChangesSet(file, stage, completed, pending);
    var first := SetStages(file, Minus(pending, stage), PENDING);
    SetStagesAt(file, Minus(pending, stage), PENDING);
    SetStagesAt(first, Minus(completed, stage), COMPLETED);
  }

  /** A failed file: FAILED at the stage named, COMPLETED and back to PENDING where told so, the rest as it was. */
  predicate FailsAt(before: File, after: File, stage: nat, completed: seq<nat>, pending: seq<nat>) {
    && after == before.(status := FileFailed, failedStage := Some(stage), stages := after.stages)
    && forall i :: 0 <= i < STAGES ==>
         after.stages[i] == if i == stage then FAILED else if i in completed then COMPLETED
                            else if i in pending then PENDING else before.stages[i]
  }

  lemma FailsThere(file: File, stage: nat, completed: seq<nat>, pending: seq<nat>)
    ensures var r := FileFails(file, stage, completed, pending);
      r.Some? ==> FailsAt(file, r.value, stage, completed, pending)
  {
    var first := SetStages(file, Minus(pending, stage), PENDING);
    SetStagesAt(file, Minus(pending, stage), PENDING);
    SetStagesAt(first, Minus(completed, stage), COMPLETED);
    MinusHolds(pending, stage);
    MinusHolds(completed, stage);
  }

  /** A file's entities withdrawn, every other one as it was, and behind them the first 2,000 of the new ones. */
  predicate Replaced(before: seq<Entity>, after: seq<Entity>, file: nat, source: nat, batch: seq<string>) {
    && |after| == |before| + (if |batch| < 2000 then |batch| else 2000)
    && (forall i :: 0 <= i < |before| ==> after[i] == if before[i].file == file then before[i].(active := false) else before[i])
    && forall i :: |before| <= i < |after| ==> after[i] == Entity(file, source, true, batch[i - |before|])
  }

  function SetOf(ids: seq<nat>): set<nat> {
    set id | id in ids
  }

  lemma DeletedReads(db: Db, ids: seq<nat>)
    ensures var t := DoMarkFilesDeleted(db, SetOf(ids));
      && t.files == (map f | f in db.files :: if f in ids then db.files[f].(listed := false) else db.files[f])
      && |t.entities| == |db.entities|
      && forall i :: 0 <= i < |t.entities| ==>
           t.entities[i] == if db.entities[i].file in ids then db.entities[i].(active := false) else db.entities[i]
  {
  }

  class CrmRepo {
    var sources: map<nat, Source>
    var runs: map<nat, Run>
    var files: map<nat, File>
    var entities: seq<Entity>

    constructor ()
      ensures Now() == EMPTY_DB
    {
      sources, runs, files, entities := map[], map[], map[], [];
    }

    function Now(): Db
      reads this
    {
      Db(sources, runs, files, entities)
    }

    // ---- runs -------------------------------------------------------------------------------------------

    method ActiveRun(source: nat) returns (found: bool)
      ensures found == HasActiveRun(Now(), source)
    {
      found := exists id :: id in runs && runs[id].source == source && IsActive(runs[id]);
    }

    /** The unique index on a source's run in progress refuses a second one. */
    method CreateRun(id: nat, source: nat, now: int) returns (created: bool)
      modifies this
      ensures Now() == DoCreateRun(old(Now()), id, source, now)
      ensures created <==> id !in old(runs) && source in sources
                           && forall r :: r in old(runs) && old(runs)[r].source == source ==>
                                old(runs)[r].status != Queued && old(runs)[r].status != Running
      ensures runs == if created then old(runs)[id := Run(source, now, Queued, None, None, None, now, None)] else old(runs)
    {
      var taken := ActiveRun(source);
      if id in runs || source !in sources || taken {
        return false;
      }
      runs := runs[id := Run(source, now, Queued, None, None, None, now, None)];
      created := true;
    }

    ghost predicate Before(a: nat, b: nat)
      reads this
    {
      a in runs && b in runs
      && (runs[a].createdAt < runs[b].createdAt || (runs[a].createdAt == runs[b].createdAt && a <= b))
    }

    method OldestQueued() returns (r: Option<nat>)
      ensures r.Some? ==> r.value in runs && runs[r.value].status == Queued
      ensures r.Some? ==> forall id :: id in runs && runs[id].status == Queued ==> Before(r.value, id)
      ensures r.None? ==> forall id :: id in runs ==> runs[id].status != Queued
    {
      var todo := runs.Keys;
      r := None;
      while todo != {}
        invariant todo <= runs.Keys
        invariant r.Some? ==> r.value in runs && runs[r.value].status == Queued
        invariant r.Some? ==> forall id :: id in runs && id !in todo && runs[id].status == Queued ==> Before(r.value, id)
        invariant r.None? ==> forall id :: id in runs && id !in todo ==> runs[id].status != Queued
        decreases |todo|
      {
        var id :| id in todo;
        todo := todo - {id};
        if runs[id].status == Queued {
          if r.None? || runs[id].createdAt < runs[r.value].createdAt
             || (runs[id].createdAt == runs[r.value].createdAt && id <= r.value) {
            r := Some(id);
          }
        }
      }
    }

    method ClaimNextRun(worker: string, now: int) returns (r: Option<nat>)
      modifies this
      ensures r.Some? ==> old(Before(r.value, r.value)) && old(runs)[r.value].status == Queued
      ensures r.Some? ==> forall id :: id in old(runs) && old(runs)[id].status == Queued ==> old(Before(r.value, id))
      ensures r.Some? ==> Now() == DoClaimRun(old(Now()), r.value, worker, now)
      ensures r.Some? ==> var was := old(runs)[r.value];
                runs == old(runs)[r.value := was.(status := Running, worker := Some(worker), startedAt := Some(now), updatedAt := now)]
      ensures r.None? ==> Now() == old(Now()) && forall id :: id in runs ==> runs[id].status != Queued
    {
      r := OldestQueued();
      if r.Some? {
        runs := runs[r.value := runs[r.value].(status := Running, worker := Some(worker), startedAt := Some(now), updatedAt := now)];
      }
    }

    method TouchRun(id: nat, worker: string, now: int)
      modifies this
      ensures Now() == DoTouchRun(old(Now()), id, worker, now)
      ensures runs == if id in old(runs) && old(runs)[id].status == Running && old(runs)[id].worker == Some(worker)
                      then old(runs)[id := old(runs)[id].(updatedAt := now)] else old(runs)
    {
      if id in runs && runs[id].status == Running && runs[id].worker == Some(worker) {
        runs := runs[id := runs[id].(updatedAt := now)];
      }
    }

    method RecordOnSource(source: nat, status: RunStatus, error: Option<string>, now: int)
      modifies this`sources
      ensures sources == RecordOn(old(sources), source, status, error, now)
      ensures sources == if source !in old(sources) || old(sources)[source].status == Deleted then old(sources)
                         else old(sources)[source := Source(old(sources)[source].status,
                           LastSync(Some(now), Some(status), error,
                                    if status == Completed then Some(now) else old(sources)[source].last.successAt))]
    {
      if source in sources && sources[source].status != Deleted {
        var last := sources[source].last;
        var successAt := last.successAt;
        if status == Completed {
          successAt := Some(now);
        }
        sources := sources[source := sources[source].(last := LastSync(Some(now), Some(status), error, successAt))];
      }
    }

    method FinishRun(id: nat, worker: string, status: RunStatus, error: Option<string>, now: int) returns (ok: bool)
      modifies this
      ensures Now() == DoFinishRun(old(Now()), id, worker, status, error, now)
      ensures ok <==> (status == Completed || status == Partial || status == Failed)
                      && id in old(runs) && old(runs)[id].status == Running && old(runs)[id].worker == Some(worker)
      ensures runs == if ok then old(runs)[id := old(runs)[id].(status := status, error := error, finishedAt := Some(now), updatedAt := now)]
                      else old(runs)
    {
      if !Finished(status) || id !in runs || runs[id].status != Running || runs[id].worker != Some(worker) {
        return false;
      }
      var source := runs[id].source;
      runs := runs[id := runs[id].(status := status, error := error, finishedAt := Some(now), updatedAt := now)];
      RecordOnSource(source, status, error, now);
      ok := true;
    }

    /** The in-flight files of a run fail at the stage they were in. */
    method FailInFlight(run: nat)
      modifies this`files
      ensures files == map f | f in old(files) :: FailedWith(old(files)[f], run)
    {
      hide RunningStage;
      hide FailedAt;
      var todo := set f | f in files && files[f].lastRun == run && files[f].status == FileProcessing;
      while todo != {}
        invariant files.Keys == old(files).Keys && todo <= files.Keys
        invariant forall f :: f in todo ==> f in files && files[f].lastRun == run && files[f].status == FileProcessing
        invariant forall f :: f in files ==> files[f] == if f in todo then old(files)[f] else FailedWith(old(files)[f], run)
        decreases |todo|
      {
        var f :| f in todo;
        todo := todo - {f};
        var stage := RunningStage(files[f]);
        FailedByUpdate(files[f], stage);
        var ok := UpdateFileIn(f, [Change.Change(stage, FAILED)],
                               Some(Columns(FileFailed, Some(stage), Keep, None, None, false)), Some({FileProcessing}), false);
      }
    }

    method FailInterruptedRun(id: nat, reason: string, staleBefore: Option<int>, worker: Option<string>, now: int)
      returns (ok: bool)
      modifies this
      ensures Now() == DoFailInterrupted(old(Now()), id, reason, staleBefore, worker, now)
      ensures ok <==> id in old(runs) && old(runs)[id].status == Running
                      && (staleBefore.Some? ==> old(runs)[id].updatedAt < staleBefore.value)
                      && (worker.Some? ==> old(runs)[id].worker == worker)
      ensures runs == if ok then old(runs)[id := old(runs)[id].(status := Failed, error := Some(reason), finishedAt := Some(now), updatedAt := now)]
                      else old(runs)
      ensures files.Keys == old(files).Keys
      ensures ok ==> forall f :: f in old(files) ==>
                if old(files)[f].lastRun == id && old(files)[f].status == FileProcessing then FailsInFlight(old(files)[f], files[f])
                else files[f] == old(files)[f]
    {
      hide FailedWith;
      if id !in runs || !Interruptible(runs[id], staleBefore, worker) {
        return false;
      }
      var source := runs[id].source;
      runs := runs[id := runs[id].(status := Failed, error := Some(reason), finishedAt := Some(now), updatedAt := now)];
      FailInFlight(id);
      forall f | f in files
        ensures if old(files)[f].lastRun == id && old(files)[f].status == FileProcessing then FailsInFlight(old(files)[f], files[f])
                else files[f] == old(files)[f]
      {
        FailedInFlight(old(files)[f], id);
      }
      RecordOnSource(source, Failed, Some(reason), now);
      ok := true;
    }

    // ---- files ------------------------------------------------------------------------------------------

    method FindFile(source: nat, key: string) returns (r: Option<nat>)
      ensures r.Some? ==> Tracks(Now(), r.value, source, key)
      ensures r.None? ==> forall id :: id in files ==> !Tracks(Now(), id, source, key)
    {
      if exists id :: id in files && files[id].source == source && files[id].key == key {
        var id :| id in files && files[id].source == source && files[id].key == key;
        return Some(id);
      }
      r := None;
    }

    /** `newId` is the id a new row would get. */
    method UpsertFile(newId: nat, source: nat, key: string, run: nat, resetAttempts: bool) returns (id: nat)
      requires newId !in files
      modifies this
      ensures Now() == DoUpsertFile(old(Now()), id, source, key, run, resetAttempts)
      ensures Tracks(Now(), id, source, key)
      ensures if id in old(files) then
                files == old(files)[id := old(files)[id].(listed := true, status := FilePending, stages := ALL_PENDING, failedStage := None,
                                                          attempts := if resetAttempts then 0 else old(files)[id].attempts)]
              else
                id == newId && files == old(files)[id := File(source, key, true, FilePending, ALL_PENDING, None, 0, run, 0)]
    {
      var found := FindFile(source, key);
      if found.None? {
        files := files[newId := Inserted(source, key, run)];
        return newId;
      }
      id := found.value;
      AllPutBack(files[id]);
      var attempts := Keep;
      if resetAttempts {
        attempts := Zero;
      }
      var ok := UpdateFileIn(id, Each(FILE_STAGES, PENDING),
                             Some(Columns(FilePending, None, attempts, None, None, true)), None, false);
    }

    /** All file updates: nothing happens unless the row is there and still matches; then the stage changes one
        after the other, and the columns. */
    method UpdateFileIn(id: nat, changes: seq<Change>, columns: Option<Columns>, allowed: Option<set<FileStatus>>,
                        mustBeListed: bool)
      returns (ok: bool)
      modifies this`files
      ensures ok <==> id in old(files) && (allowed.Some? ==> old(files)[id].status in allowed.value)
                      && (mustBeListed ==> old(files)[id].listed)
      ensures files == if ok then old(files)[id := Written(WithStages(old(files)[id], changes), columns)] else old(files)
    {
      hide SetStage;
      if id !in files {
        return false;
      }
      var file := files[id];
      if allowed.Some? && file.status !in allowed.value {
        return false;
      }
      if mustBeListed && !file.listed {
        return false;
      }
      for i := 0 to |changes|
        invariant file == WithStages(files[id], changes[..i])
      {
        assert changes[..i + 1][..i] == changes[..i];
        file := SetStage(file, changes[i].stage, changes[i].status);
      }
      assert changes[..|changes|] == changes;
      files := files[id := Written(file, columns)];
      ok := true;
    }

    /** A waiting or failed file starts: one more attempt, for this run, with nothing done yet. */
    method BeginFile(id: nat, run: nat) returns (ok: bool)
      modifies this
      ensures ok <==> id in old(files) && old(files)[id].listed
                      && (old(files)[id].status == FilePending || old(files)[id].status == FileFailed)
      ensures ok ==> var was := old(files)[id];
                files == old(files)[id := was.(status := FileProcessing, stages := ALL_PENDING, failedStage := None,
                                              attempts := was.attempts + 1, lastRun := run)]
      ensures Now() == OnFile(old(Now()), id, if id in old(files) then Begun(old(files)[id], run) else None)
    {
      if id in files {
        AllPutBack(files[id]);
      }
      ok := UpdateFileIn(id, Each(FILE_STAGES, PENDING), Some(Columns(FileProcessing, None, OneMore, Some(run), None, false)),
                         Some({FilePending, FileFailed}), true);
    }

    method SetFileStage(id: nat, change: Change) returns (ok: bool)
      modifies this
      ensures ok <==> id in old(files) && old(files)[id].status == FileProcessing
      ensures Now() == OnFile(old(Now()), id, if id in old(files) then StageDone(old(files)[id], change) else None)
      ensures ok ==> var was := old(files)[id];
                files == old(files)[id := was.(stages := if change.stage < STAGES then was.stages[change.stage := change.status] else was.stages)]
    {
      if id in files {
        WithStagesOne(files[id], change);
      }
      ok := UpdateFileIn(id, [change], None, Some({FileProcessing}), false);
    }

    method FailFile(id: nat, stage: nat, completed: seq<nat>, pending: seq<nat>) returns (ok: bool)
      modifies this
      ensures ok <==> id in old(files) && old(files)[id].status == FileProcessing
      ensures Now() == OnFile(old(Now()), id,
                              if id in old(files) then FileFails(old(files)[id], stage, completed, pending) else None)
      ensures ok ==> id in files && files == old(files)[id := files[id]]
                     && FailsAt(old(files)[id], files[id], stage, completed, pending)
    {
      hide SetStages;
      hide SetStage;
      hide FailChanges;
      if id in files {
        FailChangesSet(files[id], stage, completed, pending);
        StagesOnly(files[id], stage, completed, pending);
        FailsThere(files[id], stage, completed, pending);
      }
      ok := UpdateFileIn(id, FailChanges(stage, completed, pending),
                         Some(Columns(FileFailed, Some(stage), Keep, None, None, false)), Some({FileProcessing}), false);
    }

    /** A failed file waits again, on a new retry budget. */
    method ResetFileForRetry(id: nat) returns (ok: bool)
      modifies this
      ensures ok <==> id in old(files) && old(files)[id].listed && old(files)[id].status == FileFailed
      ensures ok ==> var was := old(files)[id];
                files == old(files)[id := was.(status := FilePending, stages := ALL_PENDING, failedStage := None, attempts := 0)]
      ensures Now() == OnFile(old(Now()), id, if id in old(files) then Reset(old(files)[id]) else None)
    {
      if id in files {
        AllPutBack(files[id]);
      }
      ok := UpdateFileIn(id, Each(FILE_STAGES, PENDING), Some(Columns(FilePending, None, Zero, None, None, false)),
                         Some({FileFailed}), true);
    }

    // ---- entities ---------------------------------------------------------------------------------------

    method WithdrawWhere(ids: set<nat>)
      modifies this`entities
      ensures entities == WithdrawFiles(old(entities), ids)
    {
      var done := [];
      for i := 0 to |entities|
        invariant done == WithdrawFiles(entities[..i], ids)
      {
        if entities[i].file in ids {
          done := done + [entities[i].(active := false)];
        } else {
          done := done + [entities[i]];
        }
      }
      assert entities[..|entities|] == entities;
      entities := done;
    }

    /** The file's ACTIVE entities are withdrawn and at most `MAX_ENTITIES_PER_FILE` new ones inserted. */
    method ReplaceFileEntities(id: nat, source: nat, batch: seq<string>)
      modifies this`entities
      ensures entities == WithdrawFiles(old(entities), {id}) + NewEntities(id, source, Kept(batch))
      ensures Replaced(old(entities), entities, id, source, batch)
    {
      WithdrawWhere({id});
      ghost var before := entities;
      var kept := Kept(batch);
      for i := 0 to |kept|
        invariant entities == before + NewEntities(id, source, kept[..i])
      {
        entities := entities + [Entity(id, source, true, kept[i])];
      }
      assert kept[..|kept|] == kept;
    }

    method CompleteFile(id: nat, batch: seq<string>) returns (ok: bool)
      modifies this
      ensures Now() == DoCompleteFile(old(Now()), id, batch)
      ensures ok <==> id in old(files) && old(files)[id].status == FileProcessing && old(files)[id].listed
      ensures ok ==> var was := old(files)[id];
                files == old(files)[id := was.(status := FileCompleted, stages := was.stages[PERSIST := COMPLETED], failedStage := None,
                                              entityCount := |batch|)]
      ensures ok ==> Replaced(old(entities), entities, id, old(files)[id].source, batch)
    {
      if id !in files || files[id].status != FileProcessing || !files[id].listed {
        return false;
      }
      ReplaceFileEntities(id, files[id].source, batch);
      WithStagesOne(files[id], Change.Change(PERSIST, COMPLETED));
      ok := UpdateFileIn(id, [Change.Change(PERSIST, COMPLETED)],
                         Some(Columns(FileCompleted, None, Keep, None, Some(|batch|), false)), Some({FileProcessing}), false);
    }

    method MarkChunk(ids: set<nat>)
      modifies this
      ensures Now() == DoMarkFilesDeleted(old(Now()), ids)
    {
      files := map f | f in files :: if f in ids && files[f].listed then files[f].(listed := false) else files[f];
      WithdrawWhere(ids);
    }

    /** One transaction a chunk of ids. */
    method MarkFilesDeleted(ids: seq<nat>)
      modifies this
      ensures Now() == DoMarkFilesDeleted(old(Now()), SetOf(ids))
      ensures files == map f | f in old(files) :: if f in ids then old(files)[f].(listed := false) else old(files)[f]
      ensures |entities| == |old(entities)| && forall i :: 0 <= i < |entities| ==>
                entities[i] == if old(entities)[i].file in ids then old(entities)[i].(active := false) else old(entities)[i]
    {
      hide DoMarkFilesDeleted;
      var start := 0;
      DeletedNone(Now());
      assert SetOf(ids[..0]) == {};
      while start < |ids|
        invariant start <= |ids|
        invariant Now() == DoMarkFilesDeleted(old(Now()), SetOf(ids[..start]))
        decreases |ids| - start
      {
        var end := if start + IN_LIST_BATCH < |ids| then start + IN_LIST_BATCH else |ids|;
        DeletedTwice(old(Now()), SetOf(ids[..start]), SetOf(ids[start..end]));
        assert SetOf(ids[..start]) + SetOf(ids[start..end]) == SetOf(ids[..end]) by {
          assert ids[..start] + ids[start..end] == ids[..end];
        }
        MarkChunk(SetOf(ids[start..end]));
        start := end;
      }
      assert ids[..|ids|] == ids;
      DeletedReads(old(Now()), ids);
    }

    method SoftDeleteSource(source: nat) returns (ok: bool)
      modifies this
      ensures Now() == DoSoftDelete(old(Now()), source)
      ensures ok <==> source in old(sources) && old(sources)[source].status != Deleted
                      && forall r :: r in runs && runs[r].source == source ==> runs[r].status != Queued && runs[r].status != Running
      ensures ok ==> sources == old(sources)[source := old(sources)[source].(status := Deleted)]
      ensures ok ==> |entities| == |old(entities)| && forall i :: 0 <= i < |entities| ==>
                entities[i] == if old(entities)[i].source == source then old(entities)[i].(active := false) else old(entities)[i]
    {
      if source !in sources || sources[source].status == Deleted {
        return false;
      }
      var busy := ActiveRun(source);
      if busy {
        return false;
      }
      sources := sources[source := sources[source].(status := Deleted)];
      WithdrawBySource(source);
      ok := true;
    }

    method WithdrawBySource(source: nat)
      modifies this`entities
      ensures entities == WithdrawSource(old(entities), source)
    {
      var done := [];
      for i := 0 to |entities|
        invariant done == WithdrawSource(entities[..i], source)
      {
        if entities[i].source == source {
          done := done + [entities[i].(active := false)];
        } else {
          done := done + [entities[i]];
        }
      }
      assert entities[..|entities|] == entities;
      entities := done;
    }
  }
}
