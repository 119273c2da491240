/** The SharePoint sync store: sources, runs, tracked files and extracted entities.  One function an
    operation, each of them one transaction; a refused operation changes nothing. */
module CrmStore {
  import opened Options
  import DocRegistry

  type StageStatus = DocRegistry.StageStatus
  type Change = DocRegistry.Change

  const PENDING := StageStatus.Pending
  const RUNNING := StageStatus.Running
  const COMPLETED := StageStatus.Completed
  const FAILED := StageStatus.Failed

  // File stages, in order.
  const DOWNLOAD := 0
  const EXTRACTION := 1
  const INTELLIGENCE := 2
  const ENTITIES := 3
  const PERSIST := 4
  const STAGES := 5

  const MAX_ENTITIES_PER_FILE := 2000
  const MAX_FILE_ATTEMPTS := 3

  const ALL_PENDING: seq<StageStatus> := [PENDING, PENDING, PENDING, PENDING, PENDING]

  /** The stage columns of a file. */
  type StageColumns = s: seq<StageStatus> | |s| == STAGES witness ALL_PENDING

  datatype SourceStatus = Active | Disabled | Deleted

  datatype RunStatus = Queued | Running | Completed | Partial | Failed

  datatype FileStatus = FilePending | FileProcessing | FileCompleted | FileFailed

  /** The last-sync columns of a source. */
  datatype LastSync = LastSync(at: Option<int>, status: Option<RunStatus>, error: Option<string>, successAt: Option<int>)

  datatype Source = Source(status: SourceStatus, last: LastSync)

  datatype Run = Run(source: nat, createdAt: int, status: RunStatus, worker: Option<string>, startedAt: Option<int>, finishedAt: Option<int>,
                     updatedAt: int, error: Option<string>)

  datatype File = File(source: nat, key: string, listed: bool, status: FileStatus, stages: StageColumns,
                       failedStage: Option<nat>, attempts: nat, lastRun: nat, entityCount: nat)

  datatype Entity = Entity(file: nat, source: nat, active: bool, fields: string)

  /** The tables. */
  datatype Db = Db(sources: map<nat, Source>, runs: map<nat, Run>, files: map<nat, File>, entities: seq<Entity>)

  const EMPTY_DB := Db(map[], map[], map[], [])

  datatype Op =
    | CreateSource(source: nat)
    | SetEnabled(source: nat, enabled: bool)
    | SoftDelete(source: nat)
    | CreateRun(run: nat, source: nat)
    | ClaimRun(run: nat, worker: string)
    | TouchRun(run: nat, worker: string)
    | FinishRun(run: nat, worker: string, status: RunStatus, error: Option<string>)
    | FailInterrupted(run: nat, reason: string, staleBefore: Option<int>, heldBy: Option<string>)
    | UpsertFile(file: nat, source: nat, key: string, run: nat, resetAttempts: bool)
    | MarkFilesDeleted(files: set<nat>)
    | BeginFile(file: nat, run: nat)
    | SetFileStage(file: nat, change: Change)
    | FailFile(file: nat, stage: nat, completed: seq<nat>, pending: seq<nat>)
    | CompleteFile(file: nat, entities: seq<string>)
    | ResetFile(file: nat)

  // ---- runs ---------------------------------------------------------------------------------------------

  predicate IsActive(run: Run) {
    run.status == Queued || run.status == Running
  }

  predicate HasActiveRun(db: Db, source: nat) {
    exists id :: id in db.runs && db.runs[id].source == source && IsActive(db.runs[id])
  }

  /** `_record_on_source`. */
  function Recorded(last: LastSync, status: RunStatus, error: Option<string>, now: int): LastSync {
    LastSync(Some(now), Some(status), error, if status == Completed then Some(now) else last.successAt)
  }

  function RecordOn(sources: map<nat, Source>, source: nat, status: RunStatus, error: Option<string>, now: int): map<nat, Source> {
    if source !in sources || sources[source].status == Deleted then sources
    else sources[source := sources[source].(last := Recorded(sources[source].last, status, error, now))]
  }

  function EndRun(db: Db, id: nat, status: RunStatus, error: Option<string>, now: int): Db
    requires id in db.runs
  {
    var run := db.runs[id];
    db.(runs := db.runs[id := run.(status := status, error := error, finishedAt := Some(now), updatedAt := now)],
        sources := RecordOn(db.sources, run.source, status, error, now))
  }

  predicate Finished(status: RunStatus) {
    status == Completed || status == Partial || status == Failed
  }

  function DoFinishRun(db: Db, id: nat, worker: string, status: RunStatus, error: Option<string>, now: int): Db {
    if id !in db.runs || db.runs[id].status != Running || db.runs[id].worker != Some(worker) || !Finished(status) then db
    else EndRun(db, id, status, error, now)
  }

  predicate Interruptible(run: Run, staleBefore: Option<int>, worker: Option<string>) {
    && run.status == Running && (staleBefore.Some? ==> run.updatedAt < staleBefore.value)
    && (worker.Some? ==> run.worker == worker)
  }

  /** The run ends FAILED, with the files it was processing. */
  function DoFailInterrupted(db: Db, id: nat, reason: string, staleBefore: Option<int>, worker: Option<string>, now: int): Db {
    if id !in db.runs || !Interruptible(db.runs[id], staleBefore, worker) then db
    else EndRun(db.(files := map f | f in db.files :: FailedWith(db.files[f], id)), id, Failed, Some(reason), now)
  }

  // ---- one file -------------------------------------------------------------------------------------------

  function SetStage(file: File, stage: nat, status: StageStatus): File {
    if stage < |file.stages| then file.(stages := file.stages[stage := status]) else file
  }

  function SetStages(file: File, stages: seq<nat>, status: StageStatus): File
    decreases |stages|
  {
    if stages == [] then file else SetStages(SetStage(file, stages[0], status), stages[1..], status)
  }

  lemma {:induction false} SetStagesAt(file: File, stages: seq<nat>, status: StageStatus)
    ensures var r := SetStages(file, stages, status);
      && |r.stages| == |file.stages| && r == file.(stages := r.stages)
      && forall i :: 0 <= i < |r.stages| ==> r.stages[i] == if i in stages then status else file.stages[i]
    decreases |stages|
  {
    if stages != [] {
      SetStagesAt(SetStage(file, stages[0], status), stages[1..], status);
    }
  }

  function FailedAt(file: File, stage: nat): File {
    SetStage(file, stage, FAILED).(status := FileFailed, failedStage := Some(stage))
  }

  function RunningStage(file: File): nat {
    var running := DocRegistry.FirstWith(file.stages, {RUNNING}, 0);
    var waiting := DocRegistry.FirstWith(file.stages, {PENDING, FAILED}, 0);
    if running.Some? then running.value else if waiting.Some? then waiting.value else STAGES - 1
  }

  function FailedWith(file: File, run: nat): File {
    if file.lastRun == run && file.status == FileProcessing then FailedAt(file, RunningStage(file)) else file
  }

  /** A file that failed in flight, at the stage it was in; nothing else of it changed. */
  ghost predicate FailsInFlight(before: File, after: File) {
    exists stage: nat :: stage < STAGES && DocRegistry.InFlight(before.stages, stage)
      && after == before.(status := FileFailed, failedStage := Some(stage), stages := before.stages[stage := FAILED])
  }

  lemma FailedInFlight(file: File, run: nat)
    ensures if file.lastRun == run && file.status == FileProcessing then FailsInFlight(file, FailedWith(file, run))
            else FailedWith(file, run) == file
  {
    var running := DocRegistry.FirstWith(file.stages, {RUNNING}, 0);
    var waiting := DocRegistry.FirstWith(file.stages, {PENDING, FAILED}, 0);
    assert DocRegistry.InFlight(file.stages, RunningStage(file));
  }

  /** A waiting file, or one with tries left. */
  predicate NeedsRetry(status: FileStatus, attempts: nat) {
    status == FilePending || ((status == FileFailed || status == FileProcessing) && attempts < MAX_FILE_ATTEMPTS)
  }

  function Inserted(source: nat, key: string, run: nat): File {
    File(source, key, true, FilePending, ALL_PENDING, None, 0, run, 0)
  }

  function Rearmed(file: File, resetAttempts: bool): File {
    file.(listed := true, status := FilePending, stages := ALL_PENDING, failedStage := None,
          attempts := if resetAttempts then 0 else file.attempts)
  }

  function Begun(file: File, run: nat): Option<File> {
    if !file.listed || (file.status != FilePending && file.status != FileFailed) then None
    else Some(file.(status := FileProcessing, stages := ALL_PENDING, failedStage := None, attempts := file.attempts + 1,
                    lastRun := run))
  }

  function StageDone(file: File, change: Change): Option<File> {
    if file.status != FileProcessing then None else Some(SetStage(file, change.stage, change.status))
  }

  function Minus(stages: seq<nat>, stage: nat): seq<nat> {
    if stages == [] then []
    else (if stages[0] == stage then [] else [stages[0]]) + Minus(stages[1..], stage)
  }

  lemma {:induction false} MinusHolds(stages: seq<nat>, stage: nat)
    ensures forall i :: i in Minus(stages, stage) <==> i in stages && i != stage
    decreases |stages|
  {
    if stages != [] {
      MinusHolds(stages[1..], stage);
    }
  }

  function FileFails(file: File, stage: nat, completed: seq<nat>, pending: seq<nat>): Option<File> {
    if file.status != FileProcessing then None
    else Some(FailedAt(SetStages(SetStages(file, Minus(pending, stage), PENDING), Minus(completed, stage), COMPLETED), stage))
  }

  function Persisted(file: File, count: nat): Option<File> {
    if file.status != FileProcessing || !file.listed then None
    else Some(SetStage(file, PERSIST, COMPLETED).(status := FileCompleted, failedStage := None, entityCount := count))
  }

  function Reset(file: File): Option<File> {
    if !file.listed || file.status != FileFailed then None
    else Some(file.(status := FilePending, stages := ALL_PENDING, failedStage := None, attempts := 0))
  }

  function OnFile(db: Db, id: nat, after: Option<File>): Db {
    if id in db.files && after.Some? then db.(files := db.files[id := after.value]) else db
  }

  // ---- entities -------------------------------------------------------------------------------------------

  function Withdrawn(e: Entity): Entity {
    e.(active := false)
  }

  function WithdrawFiles(entities: seq<Entity>, files: set<nat>): (r: seq<Entity>)
    ensures |r| == |entities|
    ensures forall i :: 0 <= i < |r| ==> r[i] == if entities[i].file in files then Withdrawn(entities[i]) else entities[i]
  {
    seq(|entities|, i requires 0 <= i < |entities| =>
      if entities[i].file in files then Withdrawn(entities[i]) else entities[i])
  }

  function WithdrawSource(entities: seq<Entity>, source: nat): (r: seq<Entity>)
    ensures |r| == |entities|
    ensures forall i :: 0 <= i < |r| ==> r[i] == if entities[i].source == source then Withdrawn(entities[i]) else entities[i]
  {
    seq(|entities|, i requires 0 <= i < |entities| =>
      if entities[i].source == source then Withdrawn(entities[i]) else entities[i])
  }

  function Kept(batch: seq<string>): seq<string> {
    if |batch| <= MAX_ENTITIES_PER_FILE then batch else batch[..MAX_ENTITIES_PER_FILE]
  }

  function NewEntities(file: nat, source: nat, batch: seq<string>): (r: seq<Entity>)
    ensures |r| == |batch|
    ensures forall i :: 0 <= i < |r| ==> r[i] == Entity(file, source, true, batch[i])
  {
    seq(|batch|, i requires 0 <= i < |batch| => Entity(file, source, true, batch[i]))
  }

  /** One transaction: the file's ACTIVE entities are withdrawn, the new ones inserted, the file COMPLETED. */
  function DoCompleteFile(db: Db, id: nat, batch: seq<string>): Db {
    if id !in db.files || Persisted(db.files[id], |batch|).None? then db
    else
      db.(files := db.files[id := Persisted(db.files[id], |batch|).value],
          entities := WithdrawFiles(db.entities, {id}) + NewEntities(id, db.files[id].source, Kept(batch)))
  }

  function DoMarkFilesDeleted(db: Db, files: set<nat>): Db {
    db.(files := map f | f in db.files :: if f in files && db.files[f].listed then db.files[f].(listed := false) else db.files[f],
        entities := WithdrawFiles(db.entities, files))
  }

  function DoSoftDelete(db: Db, source: nat): Db {
    if source !in db.sources || db.sources[source].status == Deleted || HasActiveRun(db, source) then db
    else
      db.(sources := db.sources[source := db.sources[source].(status := Deleted)],
          entities := WithdrawSource(db.entities, source))
  }

  // ---- all of them ------------------------------------------------------------------------------------------

  function DoCreateSource(db: Db, source: nat): Db {
    if source in db.sources then db
    else db.(sources := db.sources[source := Source(Active, LastSync(None, None, None, None))])
  }

  function DoSetEnabled(db: Db, source: nat, enabled: bool): Db {
    if source !in db.sources || db.sources[source].status == Deleted then db
    else db.(sources := db.sources[source := db.sources[source].(status := if enabled then Active else Disabled)])
  }

  function DoCreateRun(db: Db, id: nat, source: nat, now: int): Db {
    if id in db.runs || source !in db.sources || HasActiveRun(db, source) then db
    else db.(runs := db.runs[id := Run(source, now, Queued, None, None, None, now, None)])
  }

  function DoClaimRun(db: Db, id: nat, worker: string, now: int): Db {
    if id !in db.runs || db.runs[id].status != Queued then db
    else db.(runs := db.runs[id := db.runs[id].(status := Running, worker := Some(worker), startedAt := Some(now), updatedAt := now)])
  }

  function DoTouchRun(db: Db, id: nat, worker: string, now: int): Db {
    if id !in db.runs || db.runs[id].status != Running || db.runs[id].worker != Some(worker) then db
    else db.(runs := db.runs[id := db.runs[id].(updatedAt := now)])
  }

  /** A file is known by its source and key. */
  predicate Tracks(db: Db, id: nat, source: nat, key: string) {
    id in db.files && db.files[id].source == source && db.files[id].key == key
  }

  /** `id` is the file's row when it has one, else the id the database gives the new row. */
  function DoUpsertFile(db: Db, id: nat, source: nat, key: string, run: nat, resetAttempts: bool): Db {
    if Tracks(db, id, source, key) then db.(files := db.files[id := Rearmed(db.files[id], resetAttempts)])
    else if id in db.files || exists other :: other in db.files && Tracks(db, other, source, key) then db
    else db.(files := db.files[id := Inserted(source, key, run)])
  }

  function Step(db: Db, op: Op, now: int): Db {
    match op
    case CreateSource(source) => DoCreateSource(db, source)
    case SetEnabled(source, enabled) => DoSetEnabled(db, source, enabled)
    case SoftDelete(source) => DoSoftDelete(db, source)
    case CreateRun(run, source) => DoCreateRun(db, run, source, now)
    case ClaimRun(run, worker) => DoClaimRun(db, run, worker, now)
    case TouchRun(run, worker) => DoTouchRun(db, run, worker, now)
    case FinishRun(run, worker, status, error) => DoFinishRun(db, run, worker, status, error, now)
    case FailInterrupted(run, reason, stale, worker) => DoFailInterrupted(db, run, reason, stale, worker, now)
    case UpsertFile(file, source, key, run, reset) => DoUpsertFile(db, file, source, key, run, reset)
    case MarkFilesDeleted(files) => DoMarkFilesDeleted(db, files)
    case BeginFile(file, run) => OnFile(db, file, if file in db.files then Begun(db.files[file], run) else None)
    case SetFileStage(file, change) => OnFile(db, file, if file in db.files then StageDone(db.files[file], change) else None)
    case FailFile(file, stage, completed, pending) =>
      OnFile(db, file, if file in db.files then FileFails(db.files[file], stage, completed, pending) else None)
    case CompleteFile(file, entities) => DoCompleteFile(db, file, entities)
    case ResetFile(file) => OnFile(db, file, if file in db.files then Reset(db.files[file]) else None)
  }

  datatype Timed = Timed(op: Op, now: int)

  function RunAll(db: Db, ops: seq<Timed>): Db {
    if ops == [] then db
    else Step(RunAll(db, ops[..|ops| - 1]), ops[|ops| - 1].op, ops[|ops| - 1].now)
  }
}
