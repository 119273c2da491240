/** The document registry: one row an imported document, updated under a lock by conditional updates. */
module DocRegistry {
  import opened Options

  // Pipeline stages, in order.
  const UPLOAD := 0
  const EXTRACTION := 1
  const CHUNKING := 2
  const EMBEDDING := 3
  const PUBLISHING := 4
  const STAGES := 5

  datatype StageStatus = Pending | Running | Completed | Failed | Skipped

  datatype DocStatus = Queued | Processing | Published | FailedDoc | Unpublished

  /** What is kept about a stage that ran. */
  datatype Detail = Detail(startedAt: int, finishedAt: Option<int>, error: bool)

  type Details = map<nat, Detail>

  datatype Row = Row(status: DocStatus, stages: seq<StageStatus>, details: Details, failedStage: Option<nat>,
                     createdAt: int, updatedAt: int, worker: Option<string>, attempts: nat)

  datatype Change = Change(stage: nat, status: StageStatus)

  // ---- one row ------------------------------------------------------------------------------------------

  /** `apply_stage_change`. */
  function ApplyChange(details: Details, change: Change, now: int): Details {
    match change.status
    case Running => details[change.stage := Detail(now, None, false)]
    case Completed => details[change.stage := Detail(StartOf(details, change.stage, now), Some(now), false)]
    case Failed => details[change.stage := Detail(StartOf(details, change.stage, now), Some(now), true)]
    case Pending => details - {change.stage}
    case Skipped => details - {change.stage}
  }

  function StartOf(details: Details, stage: nat, now: int): int {
    if stage in details then details[stage].startedAt else now
  }

  function WithChange(row: Row, change: Change, now: int): Row {
    if change.stage >= |row.stages| then row
    else row.(stages := row.stages[change.stage := change.status],
              details := ApplyChange(row.details, change, now), updatedAt := now)
  }

  /** Every stage from `stage` on back to PENDING. */
  function ResetFrom(row: Row, stage: nat, now: int): (r: Row)
    ensures |r.stages| == |row.stages|
    decreases |row.stages| - stage
  {
    if stage >= |row.stages| then row.(updatedAt := now)
    else ResetFrom(WithChange(row, Change(stage, Pending), now), stage + 1, now)
  }

  function Stale(row: Row, staleBefore: Option<int>): bool {
    staleBefore.Some? ==> row.updatedAt < staleBefore.value
  }

  function Held(row: Row, worker: Option<string>): bool {
    worker.Some? ==> row.worker == worker
  }

  function Claimed(row: Row, worker: string, now: int): Option<Row> {
    if row.status != Queued then None
    else Some(row.(status := Processing, attempts := row.attempts + 1, worker := Some(worker), updatedAt := now))
  }

  function StageSet(row: Row, change: Change, now: int): Option<Row> {
    if row.status != Processing then None
    else
      var after := WithChange(row, change, now).(updatedAt := now);
      Some(if change.status == Failed then after.(failedStage := Some(change.stage)) else after)
  }

  function Touched(row: Row, worker: string, now: int): Option<Row> {
    if row.status != Processing || row.worker != Some(worker) then None else Some(row.(updatedAt := now))
  }

  function ResultsSet(row: Row, now: int): Option<Row> {
    if row.status != Processing then None else Some(row.(updatedAt := now))
  }

  function FinishedPublished(row: Row, now: int): Option<Row> {
    if row.status != Processing then None
    else Some(WithChange(row, Change(PUBLISHING, Completed), now).(status := Published, failedStage := None, updatedAt := now))
  }

  /** `finish` as FAILED, and the update of an interrupted document. */
  function FinishedFailed(row: Row, stage: nat, staleBefore: Option<int>, worker: Option<string>, now: int): Option<Row> {
    if row.status != Processing || !Stale(row, staleBefore) || !Held(row, worker) then None
    else Some(WithChange(row, Change(stage, Failed), now).(status := FailedDoc, failedStage := Some(stage), updatedAt := now))
  }

  function ResetForRetry(row: Row, fromStage: nat, now: int): Option<Row> {
    if row.status != FailedDoc then None
    else Some(ResetFrom(row, fromStage, now).(status := Queued, failedStage := None))
  }

  function ResetForRepublish(row: Row, now: int): Option<Row> {
    if row.status != Published && row.status != FailedDoc then None
    else Some(ResetFrom(row, CHUNKING, now).(status := Queued, failedStage := None))
  }

  function MarkedUnpublished(row: Row, now: int): Option<Row> {
    if row.status != Published && row.status != FailedDoc then None
    else Some(row.(status := Unpublished, updatedAt := now))
  }

  /** The first stage with one of the statuses. */
  function FirstWith(stages: seq<StageStatus>, wanted: set<StageStatus>, from: nat): (r: Option<nat>)
    ensures r.Some? ==> from <= r.value < |stages| && stages[r.value] in wanted
    ensures forall k :: from <= k < (if r.Some? then r.value else |stages|) ==> stages[k] !in wanted
    decreases |stages| - from
  {
    if from >= |stages| then None
    else if stages[from] in wanted then Some(from)
    else FirstWith(stages, wanted, from + 1)
  }

  /** The stage to blame for an interruption. */
  function InterruptedStage(row: Row): nat {
    var running := FirstWith(row.stages, {Running}, 0);
    var waiting := FirstWith(row.stages, {Pending, Failed}, 0);
    if running.Some? then running.value else if waiting.Some? then waiting.value else STAGES - 1
  }

  function Accepted(now: int): Row {
    Row(Queued, [Completed, Pending, Pending, Pending, Pending], map[UPLOAD := Detail(now, Some(now), false)], None,
        now, now, None, 0)
  }

  // ---- the shape ------------------------------------------------------------------------------------------

  /** The first `k` stages COMPLETED, everything after stage `k` PENDING. */
  predicate ShapeAt(stages: seq<StageStatus>, k: nat) {
    && |stages| == STAGES && 0 < k <= STAGES
    && (forall i :: 0 <= i < k ==> stages[i] == Completed)
    && (forall i :: k < i < STAGES ==> stages[i] == Pending)
    && (k < STAGES ==> stages[k] != Completed && stages[k] != Skipped)
  }

  /** The details kept are those of the stages that ran, with an end once they ended and an error exactly
      for the failed one. */
  predicate DetailsOk(stages: seq<StageStatus>, details: Details) {
    && (forall s :: s in details ==> s < |stages|)
    && (forall s :: 0 <= s < |stages| ==> DetailOk(stages[s], details, s))
  }

  predicate DetailOk(status: StageStatus, details: Details, s: nat) {
    match status
    case Pending => s !in details
    case Skipped => s !in details
    case Running => s in details && details[s].finishedAt.None? && !details[s].error
    case Completed => s in details && details[s].finishedAt.Some? && !details[s].error
    case Failed => s in details && details[s].finishedAt.Some? && details[s].error
  }

  ghost predicate RowOk(row: Row) {
    && |row.stages| == STAGES
    && DetailsOk(row.stages, row.details)
    && exists k :: ShapeAt(row.stages, k) && StatusOk(row, k)
  }

  predicate StatusOk(row: Row, k: nat)
    requires k <= STAGES == |row.stages|
  {
    match row.status
    case Queued => row.failedStage.None? && k <= CHUNKING && row.stages[k] != Running && (k == CHUNKING ==> row.stages[k] == Pending)
    case Processing => row.failedStage.None? && k < STAGES
    case Published => row.failedStage.None? && k == STAGES
    case FailedDoc => k < STAGES && row.stages[k] == Failed && row.failedStage == Some(k)
    case Unpublished => if k == STAGES then row.failedStage.None?
                        else row.stages[k] == Failed && row.failedStage == Some(k)
  }

  // ---- steps keep the row consistent ------------------------------------------------------------------------

  lemma ChangeDetails(row: Row, change: Change, now: int)
    requires DetailsOk(row.stages, row.details) && change.stage < |row.stages|
    ensures DetailsOk(WithChange(row, change, now).stages, WithChange(row, change, now).details)
  {
  }

  lemma {:induction false} ResetDetails(row: Row, from: nat, now: int)
    requires DetailsOk(row.stages, row.details)
    ensures var r := ResetFrom(row, from, now);
      && DetailsOk(r.stages, r.details) && |r.stages| == |row.stages|
      && (forall i :: 0 <= i < |r.stages| ==> r.stages[i] == if i < from then row.stages[i] else Pending)
      && r == row.(stages := r.stages, details := r.details, updatedAt := now)
    decreases |row.stages| - from
  {
    if from < |row.stages| {
      ChangeDetails(row, Change(from, Pending), now);
      ResetDetails(WithChange(row, Change(from, Pending), now), from + 1, now);
    }
  }

  // ---- the table --------------------------------------------------------------------------------------------

  type Rows = map<nat, Row>

  datatype FailedColumn = Leave | Write(stage: Option<nat>)

  function WithChanges(row: Row, changes: seq<Change>, now: int): Row {
    if changes == [] then row
    else WithChange(WithChanges(row, changes[..|changes| - 1], now), changes[|changes| - 1], now)
  }

  lemma {:induction false} WithChangesFirst(row: Row, change: Change, rest: seq<Change>, now: int)
    ensures WithChanges(row, [change] + rest, now) == WithChanges(WithChange(row, change, now), rest, now)
  {
    hide WithChange;
    if rest == [] {
      assert [change] + rest == [change];
      assert [change][..0] == [];
    } else {
      assert ([change] + rest)[..|rest|] == [change] + rest[..|rest| - 1];
      WithChangesFirst(row, change, rest[..|rest| - 1], now);
    }
  }

  function PendingFrom(stage: nat): (changes: seq<Change>)
    decreases STAGES - stage
  {
    if stage >= STAGES then [] else [Change(stage, Pending)] + PendingFrom(stage + 1)
  }

  lemma {:induction false} PendingResets(row: Row, stage: nat, now: int)
    requires |row.stages| == STAGES
    ensures WithChanges(row, PendingFrom(stage), now).(updatedAt := now) == ResetFrom(row, stage, now)
    decreases STAGES - stage
  {
    if stage < STAGES {
      WithChangesFirst(row, Change(stage, Pending), PendingFrom(stage + 1), now);
      PendingResets(WithChange(row, Change(stage, Pending), now), stage + 1, now);
    }
  }

  /** One document's row after a conditional update; every other row stays. */
  ghost predicate Did(before: Rows, after: Rows, id: nat, ok: bool, row: Option<Row>) {
    && (ok <==> id in before && row.Some?)
    && after == if ok then before[id := row.value] else before
  }

  ghost predicate Older(rows: Rows, a: nat, b: nat)
    requires a in rows && b in rows
  {
    rows[a].createdAt < rows[b].createdAt || (rows[a].createdAt == rows[b].createdAt && a <= b)
  }

  ghost predicate Oldest(rows: Rows, id: nat) {
    && id in rows && rows[id].status == Queued
    && forall other :: other in rows && rows[other].status == Queued ==> Older(rows, id, other)
  }

  function StaleIds(rows: Rows, olderThan: int): set<nat> {
    set id | id in rows && rows[id].status == Processing && rows[id].updatedAt < olderThan
  }

  function AfterRecovery(row: Row, olderThan: int, now: int): Row {
    var failed := FinishedFailed(row, InterruptedStage(row), Some(olderThan), None, now);
    if failed.Some? then failed.value else row
  }

  lemma RecoveryOf(row: Row, olderThan: int, now: int)
    ensures var failed := FinishedFailed(row, InterruptedStage(row), Some(olderThan), None, now);
      if row.status == Processing && row.updatedAt < olderThan
      then failed.Some? && AfterRecovery(row, olderThan, now) == failed.value
      else AfterRecovery(row, olderThan, now) == row
  {
  }

  // ---- what an update writes ----------------------------------------------------------------------------------

  /** Whose document it is and how often it was tried stays. */
  predicate SameBut(before: Row, after: Row, now: int) {
    after.createdAt == before.createdAt && after.worker == before.worker && after.attempts == before.attempts && after.updatedAt == now
  }

  ghost predicate SameDetails(before: Details, after: Details, stage: nat) {
    && (forall s :: s != stage ==> (s in after <==> s in before))
    && (forall s :: s != stage && s in before ==> after[s] == before[s])
  }

  /** One stage changed: a running one starts now, a finished one ends now and keeps its start, a reset one has no
      record; every other stage is as it was. */
  ghost predicate StageTells(before: Row, after: Row, stage: nat, status: StageStatus, now: int) {
    && stage < |before.stages| && after.stages == before.stages[stage := status]
    && SameDetails(before.details, after.details, stage)
    && (stage in after.details <==> status == Running || status == Completed || status == Failed)
    && (status == Running ==> after.details[stage] == Detail(now, None, false))
    && (status == Completed || status == Failed ==>
          after.details[stage] == Detail(if stage in before.details then before.details[stage].startedAt else now,
                                         Some(now), status == Failed))
  }

  lemma ChangeTells(row: Row, change: Change, now: int)
    requires change.stage < |row.stages|
    ensures StageTells(row, WithChange(row, change, now), change.stage, change.status, now)
  {
  }

  /** The stages before `stage` keep their status and record, the others are PENDING without one. */
  predicate PutBack(before: Row, after: Row, stage: nat) {
    && |after.stages| == |before.stages|
    && (forall i :: 0 <= i < |before.stages| ==> after.stages[i] == if i < stage then before.stages[i] else Pending)
    && (forall i :: 0 <= i < |before.stages| ==> (i in after.details <==> i < stage && i in before.details))
    && (forall i :: 0 <= i < |before.stages| && i in after.details ==> after.details[i] == before.details[i])
  }

  lemma {:induction false} ResetPutsBack(row: Row, stage: nat, now: int)
    ensures PutBack(row, ResetFrom(row, stage, now), stage)
    ensures SameBut(row, ResetFrom(row, stage, now), now)
    decreases |row.stages| - stage
  {
    if stage < |row.stages| {
      ResetPutsBack(WithChange(row, Change(stage, Pending), now), stage + 1, now);
    }
  }

  /** The stage an interruption is put down to: the first one running, else the first one not done, else the last. */
  predicate InFlight(stages: seq<StageStatus>, stage: nat) {
    if Running in stages then stage < |stages| && stages[stage] == Running && Running !in stages[..stage]
    else if Pending in stages || Failed in stages then
      stage < |stages| && stages[stage] in {Pending, Failed} && Pending !in stages[..stage] && Failed !in stages[..stage]
    else stage == STAGES - 1
  }

  lemma InterruptedInFlight(row: Row)
    ensures InFlight(row.stages, InterruptedStage(row))
  {
    var running := FirstWith(row.stages, {Running}, 0);
    var waiting := FirstWith(row.stages, {Pending, Failed}, 0);
  }

  /** A document failed at a stage, by its worker, by recovery or by a shutdown. */
  ghost predicate FailsAt(before: Row, after: Row, stage: nat, now: int) {
    && SameBut(before, after, now) && after.status == FailedDoc && after.failedStage == Some(stage)
    && (stage < |before.stages| ==> StageTells(before, after, stage, Failed, now))
  }

  ghost predicate FailsInFlight(before: Row, after: Row, now: int) {
    exists stage: nat :: InFlight(before.stages, stage) && FailsAt(before, after, stage, now)
  }

  lemma RecoveredInFlight(row: Row, olderThan: int, now: int)
    requires row.status == Processing && row.updatedAt < olderThan
    ensures FailsInFlight(row, AfterRecovery(row, olderThan, now), now)
  {
    hide InterruptedStage;
    InterruptedInFlight(row);
    assert FailsAt(row, AfterRecovery(row, olderThan, now), InterruptedStage(row), now);
  }

  class KbRepo {
    var rows: Rows

    constructor ()
      ensures rows == map[]
    {
      rows := map[];
    }

    /** All conditional updates: nothing happens unless the row is there and still matches. */
    method Update(id: nat, changes: seq<Change>, status: Option<DocStatus>, failed: FailedColumn, allowed: set<DocStatus>,
                  staleBefore: Option<int>, worker: Option<string>, now: int)
      returns (ok: bool)
      modifies this
      ensures ok <==> id in old(rows) && old(rows)[id].status in allowed && Stale(old(rows)[id], staleBefore)
                      && Held(old(rows)[id], worker)
      ensures !ok ==> rows == old(rows)
      ensures ok ==> var r := WithChanges(old(rows)[id], changes, now).(updatedAt := now);
                rows == old(rows)[id := r.(status := if status.Some? then status.value else r.status,
                                           failedStage := if failed.Write? then failed.stage else r.failedStage)]
    {
      hide WithChange;
      if id !in rows {
        return false;
      }
      var row := rows[id];
      if row.status !in allowed {
        return false;
      }
      if staleBefore.Some? && row.updatedAt >= staleBefore.value {
        return false;
      }
      if worker.Some? && row.worker != worker {
        return false;
      }
      for i := 0 to |changes|
        invariant row == WithChanges(rows[id], changes[..i], now)
      {
        assert changes[..i + 1][..i] == changes[..i];
        row := WithChange(row, changes[i], now);
      }
      assert changes[..|changes|] == changes;
      if status.Some? {
        row := row.(status := status.value);
      }
      if failed.Write? {
        row := row.(failedStage := failed.stage);
      }
      rows := rows[id := row.(updatedAt := now)];
      ok := true;
    }

    lemma TellsIfThere(id: nat, change: Change, now: int)
      ensures id in rows && change.stage < |rows[id].stages| ==>
                StageTells(rows[id], WithChange(rows[id], change, now), change.stage, change.status, now)
    {
      if id in rows && change.stage < |rows[id].stages| {
        ChangeTells(rows[id], change, now);
      }
    }

    method DoSetStage(id: nat, change: Change, now: int) returns (ok: bool)
      modifies this
      ensures Did(old(rows), rows, id, ok, if id in old(rows) then StageSet(old(rows)[id], change, now) else None)
      ensures ok <==> id in old(rows) && old(rows)[id].status == Processing
      ensures ok ==> var was := old(rows)[id];
                && id in rows && SameBut(was, rows[id], now) && rows[id].status == Processing
                && rows[id].failedStage == (if change.status == Failed then Some(change.stage) else was.failedStage)
                && (change.stage < |was.stages| ==> StageTells(was, rows[id], change.stage, change.status, now))
    {
      hide ApplyChange;
      assert [change][..0] == [];
      TellsIfThere(id, change, now);
      ok := Update(id, [change], None, if change.status == Failed then Write(Some(change.stage)) else Leave,
                   {Processing}, None, None, now);
    }

    method DoFinishPublished(id: nat, now: int) returns (ok: bool)
      modifies this
      ensures Did(old(rows), rows, id, ok, if id in old(rows) then FinishedPublished(old(rows)[id], now) else None)
      ensures ok <==> id in old(rows) && old(rows)[id].status == Processing
      ensures ok ==> var was := old(rows)[id];
                && id in rows && SameBut(was, rows[id], now) && rows[id].status == Published && rows[id].failedStage.None?
                && (PUBLISHING < |was.stages| ==> StageTells(was, rows[id], PUBLISHING, Completed, now))
    {
      hide ApplyChange;
      assert [Change(PUBLISHING, Completed)][..0] == [];
      TellsIfThere(id, Change(PUBLISHING, Completed), now);
      ok := Update(id, [Change(PUBLISHING, Completed)], Some(Published), Write(None), {Processing}, None, None, now);
    }

    method DoFinishFailed(id: nat, stage: nat, staleBefore: Option<int>, worker: Option<string>, now: int)
      returns (ok: bool)
      modifies this
      ensures Did(old(rows), rows, id, ok,
                  if id in old(rows) then FinishedFailed(old(rows)[id], stage, staleBefore, worker, now) else None)
      ensures ok <==> id in old(rows) && old(rows)[id].status == Processing
                      && (staleBefore.Some? ==> old(rows)[id].updatedAt < staleBefore.value)
                      && (worker.Some? ==> old(rows)[id].worker == worker)
      ensures ok ==> id in rows && FailsAt(old(rows)[id], rows[id], stage, now)
    {
      hide ApplyChange;
      assert [Change(stage, Failed)][..0] == [];
      TellsIfThere(id, Change(stage, Failed), now);
      ok := Update(id, [Change(stage, Failed)], Some(FailedDoc), Write(Some(stage)), {Processing}, staleBefore, worker, now);
    }

    method DoResetForRetry(id: nat, fromStage: nat, now: int) returns (ok: bool)
      requires forall k :: k in rows ==> |rows[k].stages| == STAGES
      modifies this
      ensures Did(old(rows), rows, id, ok, if id in old(rows) then ResetForRetry(old(rows)[id], fromStage, now) else None)
      ensures ok <==> id in old(rows) && old(rows)[id].status == FailedDoc
      ensures ok ==> var was := old(rows)[id];
                && id in rows && SameBut(was, rows[id], now) && rows[id].status == Queued && rows[id].failedStage.None?
                && PutBack(was, rows[id], fromStage)
    {
      hide WithChange;
      if id in rows {
        PendingResets(rows[id], fromStage, now);
        ResetPutsBack(rows[id], fromStage, now);
      }
      ok := Update(id, PendingFrom(fromStage), Some(Queued), Write(None), {FailedDoc}, None, None, now);
    }

    method DoResetForRepublish(id: nat, now: int) returns (ok: bool)
      requires forall k :: k in rows ==> |rows[k].stages| == STAGES
      modifies this
      ensures Did(old(rows), rows, id, ok, if id in old(rows) then ResetForRepublish(old(rows)[id], now) else None)
      ensures ok <==> id in old(rows) && (old(rows)[id].status == Published || old(rows)[id].status == FailedDoc)
      ensures ok ==> var was := old(rows)[id];
                && id in rows && SameBut(was, rows[id], now) && rows[id].status == Queued && rows[id].failedStage.None?
                && PutBack(was, rows[id], CHUNKING)
    {
      hide WithChange;
      if id in rows {
        PendingResets(rows[id], CHUNKING, now);
        ResetPutsBack(rows[id], CHUNKING, now);
      }
      ok := Update(id, PendingFrom(CHUNKING), Some(Queued), Write(None), {Published, FailedDoc}, None, None, now);
    }

    method DoMarkUnpublished(id: nat, now: int) returns (ok: bool)
      modifies this
      ensures Did(old(rows), rows, id, ok, if id in old(rows) then MarkedUnpublished(old(rows)[id], now) else None)
      ensures ok <==> id in old(rows) && (old(rows)[id].status == Published || old(rows)[id].status == FailedDoc)
      ensures ok ==> rows == old(rows)[id := old(rows)[id].(status := Unpublished, updatedAt := now)]
    {
      ok := Update(id, [], Some(DocStatus.Unpublished), Leave, {Published, FailedDoc}, None, None, now);
    }

    method OldestQueued() returns (r: Option<nat>)
      ensures r.Some? ==> Oldest(rows, r.value)
      ensures r.None? ==> forall id :: id in rows ==> rows[id].status != Queued
    {
      var todo := rows.Keys;
      r := None;
      while todo != {}
        invariant todo <= rows.Keys
        invariant r.Some? ==> r.value in rows && rows[r.value].status == Queued
        invariant r.Some? ==> forall other :: other in rows && other !in todo && rows[other].status == Queued ==> Older(rows, r.value, other)
        invariant r.None? ==> forall other :: other in rows && other !in todo ==> rows[other].status != Queued
        decreases |todo|
      {
        var id :| id in todo;
        todo := todo - {id};
        if rows[id].status == Queued {
          if r.None? {
            r := Some(id);
          } else if rows[id].createdAt < rows[r.value].createdAt
                    || (rows[id].createdAt == rows[r.value].createdAt && id <= r.value) {
            r := Some(id);
          }
        }
      }
    }

    /** The oldest queued document, or none when nothing is queued. */
    method ClaimNext(worker: string, now: int) returns (r: Option<nat>)
      modifies this
      ensures r.Some? ==> Oldest(old(rows), r.value)
                          && Claimed(old(rows)[r.value], worker, now).Some?
                          && rows == old(rows)[r.value := Claimed(old(rows)[r.value], worker, now).value]
      ensures r.Some? ==> var was := old(rows)[r.value];
                was.status == Queued
                && rows == old(rows)[r.value := was.(status := Processing, attempts := was.attempts + 1, worker := Some(worker), updatedAt := now)]
      ensures r.None? ==> rows == old(rows) && forall id :: id in rows ==> rows[id].status != Queued
    {
      r := OldestQueued();
      if r.Some? {
        var row := rows[r.value];
        rows := rows[r.value := row.(status := Processing, attempts := row.attempts + 1, worker := Some(worker),
                                     updatedAt := now)];
      }
    }

    /** Exactly the stale PROCESSING rows become FAILED, each at its interrupted stage. */
    method RecoverStale(olderThan: int, now: int) returns (recovered: set<nat>)
      modifies this
      ensures recovered == StaleIds(old(rows), olderThan)
      ensures rows.Keys == old(rows).Keys
      ensures forall id :: id in rows ==> rows[id] == AfterRecovery(old(rows)[id], olderThan, now)
      ensures forall id :: id in rows && id !in recovered ==> rows[id] == old(rows)[id]
      ensures forall id :: id in recovered ==>
                && id in old(rows) && id in rows && old(rows)[id].status == Processing && old(rows)[id].updatedAt < olderThan
                && FailsInFlight(old(rows)[id], rows[id], now)
    {
      hide FinishedFailed;
      hide AfterRecovery;
      hide InterruptedStage;
      var found := StaleIds(rows, olderThan);
      forall id | id in rows && id !in found ensures AfterRecovery(rows[id], olderThan, now) == rows[id] {
        RecoveryOf(rows[id], olderThan, now);
      }
      recovered := FailEach(found, olderThan, now);
      forall id | id in recovered
        ensures FailsInFlight(old(rows)[id], rows[id], now)
      {
        RecoveredInFlight(old(rows)[id], olderThan, now);
      }
    }

    method FailEach(found: set<nat>, olderThan: int, now: int) returns (recovered: set<nat>)
      requires forall id :: id in found ==> id in rows && rows[id].status == Processing && rows[id].updatedAt < olderThan
      modifies this
      ensures recovered == found && rows.Keys == old(rows).Keys
      ensures forall id :: id in rows ==>
                rows[id] == if id in found then AfterRecovery(old(rows)[id], olderThan, now) else old(rows)[id]
    {
      hide FailsAt;
      hide StageTells;
      hide FinishedFailed;
      hide AfterRecovery;
      hide InterruptedStage;
      var todo := found;
      recovered := {};
      while todo != {}
        invariant todo <= found && recovered == found - todo
        invariant rows.Keys == old(rows).Keys
        invariant forall id :: id in rows ==>
                    rows[id] == if id in found - todo then AfterRecovery(old(rows)[id], olderThan, now) else old(rows)[id]
        decreases |todo|
      {
        var id :| id in todo;
        RecoveryOf(rows[id], olderThan, now);
        var ok := DoFinishFailed(id, InterruptedStage(rows[id]), Some(olderThan), None, now);
        if ok {
          recovered := recovered + {id};
        }
        todo := todo - {id};
      }
    }

    method ReleaseInterrupted(id: nat, worker: string, now: int) returns (ok: bool)
      modifies this
      ensures Did(old(rows), rows, id, ok,
                  if id in old(rows) then FinishedFailed(old(rows)[id], InterruptedStage(old(rows)[id]), None, Some(worker), now)
                  else None)
      ensures ok <==> id in old(rows) && old(rows)[id].status == Processing && old(rows)[id].worker == Some(worker)
      ensures ok ==> id in rows && FailsInFlight(old(rows)[id], rows[id], now)
    {
      hide InterruptedStage;
      if id in rows {
        InterruptedInFlight(rows[id]);
      }
      if id !in rows || rows[id].status != Processing || rows[id].worker != Some(worker) {
        return false;
      }
      ok := DoFinishFailed(id, InterruptedStage(rows[id]), None, Some(worker), now);
    }
  }
}
