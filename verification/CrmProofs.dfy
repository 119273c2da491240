/** What every run of the sync store keeps, whichever workers act, in whatever order and however late. */
module CrmProofs {
  import opened Options
  import opened CrmStore

  // ---- the history of the runs ----------------------------------------------------------------------------

  /** What happened to a run. */
  datatype Mark =
    | Created(run: nat, source: nat, at: int)
    | Claimed(run: nat, worker: string, at: int)
    | Touched(run: nat, at: int)
    | Ended(run: nat, source: nat, status: RunStatus, error: Option<string>, at: int)

  predicate InProgress(db: Db, source: nat) {
    exists id :: id in db.runs && db.runs[id].source == source && db.runs[id].status in {Queued, Running}
  }

  predicate HeldBy(db: Db, id: nat, worker: string) {
    id in db.runs && db.runs[id].status == Running && db.runs[id].worker == Some(worker)
  }

  /** What an operation that comes to the tables as they stand does to the runs: a run is created when its source
      has none in progress, claimed while it waits, kept alive and ended by its own worker, and ended from outside
      while it runs, under the conditions given. */
  function MarkOf(db: Db, op: Op, now: int): (m: Option<Mark>) {
    match op
    case CreateRun(run, source) =>
      if run !in db.runs && source in db.sources && !InProgress(db, source) then Some(Created(run, source, now)) else None
    case ClaimRun(run, worker) =>
      if run in db.runs && db.runs[run].status == Queued then Some(Claimed(run, worker, now)) else None
    case TouchRun(run, worker) => if HeldBy(db, run, worker) then Some(Touched(run, now)) else None
    case FinishRun(run, worker, status, error) =>
      if HeldBy(db, run, worker) && status in {Completed, Partial, Failed}
      then Some(Ended(run, db.runs[run].source, status, error, now)) else None
    case FailInterrupted(run, reason, staleBefore, heldBy) =>
      if run in db.runs && db.runs[run].status == Running
         && (staleBefore.None? || db.runs[run].updatedAt < staleBefore.value)
         && (heldBy.None? || db.runs[run].worker == heldBy)
      then Some(Ended(run, db.runs[run].source, Failed, Some(reason), now)) else None
    case _ => None
  }

  function More(marks: seq<Mark>, m: Option<Mark>): seq<Mark> {
    if m.None? then marks else marks + [m.value]
  }

  /** The marks a sequence of operations makes. */
  function Marks(ops: seq<Timed>): seq<Mark> {
    if ops == [] then []
    else
      var front, last := ops[..|ops| - 1], ops[|ops| - 1];
      More(Marks(front), MarkOf(RunAll(EMPTY_DB, front), last.op, last.now))
  }

  /** The marks of one run, in order. */
  function MarksOf(marks: seq<Mark>, id: nat): seq<Mark> {
    if marks == [] then []
    else
      var last := marks[|marks| - 1];
      MarksOf(marks[..|marks| - 1], id) + (if last.run == id then [last] else [])
  }

  // ---- one outcome a run ----------------------------------------------------------------------------------

  /** A run's row says exactly what its marks say: it was created once, then claimed at most once, kept alive by
      heartbeats only while it ran, and ended at most once, the way the row shows; its last change is its last
      mark. */
  predicate RunTold(id: nat, run: Run, marks: seq<Mark>) {
    && marks != [] && marks[0] == Created(id, run.source, run.createdAt) && run.updatedAt == marks[|marks| - 1].at
    && match run.status
       case Queued => |marks| == 1 && run.worker.None? && run.startedAt.None? && run.finishedAt.None? && run.error.None?
       case Running => RanTold(id, run, marks) && run.finishedAt.None? && run.error.None?
       case _ =>
         && |marks| >= 3 && RanTold(id, run, marks[..|marks| - 1]) && run.finishedAt.Some?
         && marks[|marks| - 1] == Ended(id, run.source, run.status, run.error, run.finishedAt.value)
  }

  predicate RanTold(id: nat, run: Run, marks: seq<Mark>) {
    && |marks| >= 2 && run.worker.Some? && run.startedAt.Some?
    && marks[1] == Claimed(id, run.worker.value, run.startedAt.value)
    && forall i :: 2 <= i < |marks| ==> marks[i].Touched? && marks[i].run == id
  }

  predicate RunsTold(db: Db, marks: seq<Mark>) {
    forall id :: id in db.runs ==> RunTold(id, db.runs[id], MarksOf(marks, id))
  }

  /** Marks are only made about runs there are. */
  predicate MarksKnown(db: Db, marks: seq<Mark>) {
    forall i :: 0 <= i < |marks| ==> marks[i].run in db.runs
  }

  predicate OneActive(db: Db) {
    forall a, b :: a in db.runs && b in db.runs && a != b && db.runs[a].source == db.runs[b].source ==>
      !(IsActive(db.runs[a]) && IsActive(db.runs[b]))
  }

  /** The ends of a source's runs, in order. */
  function EndsOf(marks: seq<Mark>, source: nat): (ends: seq<Mark>)
    ensures forall i :: 0 <= i < |ends| ==> ends[i].Ended?
  {
    if marks == [] then []
    else
      var m := marks[|marks| - 1];
      EndsOf(marks[..|marks| - 1], source) + (if m.Ended? && m.source == source then [m] else [])
  }

  /** The last-sync columns show the last end, and the time of the last success. */
  predicate LastTold(last: LastSync, ends: seq<Mark>)
    requires forall i :: 0 <= i < |ends| ==> ends[i].Ended?
  {
    && (ends == [] ==> last.at.None? && last.status.None? && last.error.None?)
    && (ends != [] ==>
          var end := ends[|ends| - 1];
          last.at == Some(end.at) && last.status == Some(end.status) && last.error == end.error)
    && SuccessTold(last.successAt, ends)
  }

  predicate SuccessTold(at: Option<int>, ends: seq<Mark>)
    requires forall i :: 0 <= i < |ends| ==> ends[i].Ended?
  {
    match at
    case None => NoSuccess(ends, 0)
    case Some(t) => exists i :: 0 <= i < |ends| && ends[i].status == Completed && ends[i].at == t && NoSuccess(ends, i + 1)
  }

  predicate NoSuccess(ends: seq<Mark>, from: nat)
    requires forall i :: 0 <= i < |ends| ==> ends[i].Ended?
  {
    forall i :: from <= i < |ends| ==> ends[i].status != Completed
  }

  predicate SourcesTold(db: Db, marks: seq<Mark>) {
    && (forall id :: id in db.sources && db.sources[id].status != Deleted ==>
          LastTold(db.sources[id].last, EndsOf(marks, id)))
    && (forall id :: id in db.runs ==> db.runs[id].source in db.sources)
    && (forall i :: 0 <= i < |marks| && marks[i].Ended? ==> marks[i].source in db.sources)
  }

  ghost predicate RunInv(db: Db, marks: seq<Mark>) {
    RunsTold(db, marks) && MarksKnown(db, marks) && OneActive(db) && SourcesTold(db, marks)
  }

  // ---- every operation ------------------------------------------------------------------------------------

  lemma MarksSnoc(marks: seq<Mark>, mark: Mark, id: nat)
    ensures MarksOf(marks + [mark], id) == MarksOf(marks, id) + (if mark.run == id then [mark] else [])
  {
    assert (marks + [mark])[..|marks|] == marks;
  }

  lemma EndsSnoc(marks: seq<Mark>, mark: Mark, source: nat)
    ensures EndsOf(marks + [mark], source)
            == EndsOf(marks, source) + (if mark.Ended? && mark.source == source then [mark] else [])
  {
    assert (marks + [mark])[..|marks|] == marks;
  }

  lemma {:induction false} NoMarks(marks: seq<Mark>, id: nat)
    requires forall i :: 0 <= i < |marks| ==> marks[i].run != id
    ensures MarksOf(marks, id) == []
  {
    if marks != [] {
      NoMarks(marks[..|marks| - 1], id);
    }
  }

  lemma {:induction false} NoEnds(marks: seq<Mark>, source: nat)
    requires forall i :: 0 <= i < |marks| && marks[i].Ended? ==> marks[i].source != source
    ensures EndsOf(marks, source) == []
  {
    if marks != [] {
      NoEnds(marks[..|marks| - 1], source);
    }
  }

  /** One run changed, with one new mark, which is about it and which its row now shows. */
  predicate OneRun(db: Db, t: Db, mark: Mark) {
    && mark.run in t.runs && t.runs.Keys == db.runs.Keys + {mark.run}
    && (forall other :: other in db.runs && other != mark.run ==> t.runs[other] == db.runs[other])
    && (mark.run in db.runs ==> t.runs[mark.run].source == db.runs[mark.run].source)
    && (IsActive(t.runs[mark.run]) ==>
          if mark.run in db.runs then IsActive(db.runs[mark.run]) else !HasActiveRun(db, t.runs[mark.run].source))
  }

  lemma OneRunKeeps(db: Db, t: Db, marks: seq<Mark>, mark: Mark)
    requires RunsTold(db, marks) && MarksKnown(db, marks) && OneActive(db) && OneRun(db, t, mark)
    requires RunTold(mark.run, t.runs[mark.run], MarksOf(marks, mark.run) + [mark])
    ensures RunsTold(t, marks + [mark]) && MarksKnown(t, marks + [mark]) && OneActive(t)
  {
    hide RunTold;
    hide IsActive;
    forall other | other in t.runs
      ensures RunTold(other, t.runs[other], MarksOf(marks + [mark], other))
    {
      MarksSnoc(marks, mark, other);
      if other != mark.run {
        assert MarksOf(marks, other) + [] == MarksOf(marks, other);
      }
    }
  }

  lemma LastEnded(last: LastSync, ends: seq<Mark>, mark: Mark)
    requires (forall i :: 0 <= i < |ends| ==> ends[i].Ended?) && LastTold(last, ends) && mark.Ended?
    ensures LastTold(LastSync(Some(mark.at), Some(mark.status), mark.error,
                              if mark.status == Completed then Some(mark.at) else last.successAt), ends + [mark])
  {
    var more := ends + [mark];
    assert more[|ends|] == mark;
    if mark.status == Completed {
      assert NoSuccess(more, |ends| + 1);
    } else if last.successAt.Some? {
      var i :| 0 <= i < |ends| && ends[i].status == Completed && ends[i].at == last.successAt.value && NoSuccess(ends, i + 1);
      assert more[i] == ends[i] && NoSuccess(more, i + 1);
    }
  }

  lemma EndSources(db: Db, marks: seq<Mark>, id: nat, status: RunStatus, error: Option<string>, now: int)
    requires SourcesTold(db, marks) && id in db.runs
    ensures SourcesTold(EndRun(db, id, status, error, now), marks + [Ended(id, db.runs[id].source, status, error, now)])
  {
    hide LastTold;
    var t, mark := EndRun(db, id, status, error, now), Ended(id, db.runs[id].source, status, error, now);
    forall source | source in t.sources && t.sources[source].status != Deleted
      ensures LastTold(t.sources[source].last, EndsOf(marks + [mark], source))
    {
      EndsSnoc(marks, mark, source);
      if source == mark.source {
        LastEnded(db.sources[source].last, EndsOf(marks, source), mark);
      } else {
        assert EndsOf(marks, source) + [] == EndsOf(marks, source);
      }
    }
  }

  lemma EndKeeps(db: Db, marks: seq<Mark>, id: nat, status: RunStatus, error: Option<string>, now: int)
    requires RunInv(db, marks) && id in db.runs && db.runs[id].status == Running && status in {Completed, Partial, Failed}
    ensures RunInv(EndRun(db, id, status, error, now), marks + [Ended(id, db.runs[id].source, status, error, now)])
  {
    hide SourcesTold;
    var t, mark := EndRun(db, id, status, error, now), Ended(id, db.runs[id].source, status, error, now);
    EndTold(id, db.runs[id], t.runs[id], MarksOf(marks, id), mark);
    OneRunKeeps(db, t, marks, mark);
    EndSources(db, marks, id, status, error, now);
  }

  lemma EndTold(id: nat, run: Run, after: Run, marks: seq<Mark>, mark: Mark)
    requires RunTold(id, run, marks) && run.status == Running && mark.Ended? && mark.run == id && mark.source == run.source
    requires mark.status in {Completed, Partial, Failed}
    requires after == run.(status := mark.status, error := mark.error, finishedAt := Some(mark.at), updatedAt := mark.at)
    ensures RunTold(id, after, marks + [mark])
  {
    assert (marks + [mark])[..|marks|] == marks;
  }

  /** Where no run ended, what the sources show stands. */
  lemma NoEndSources(db: Db, t: Db, marks: seq<Mark>, mark: Mark)
    requires SourcesTold(db, marks) && !mark.Ended? && t.sources == db.sources
    requires forall id :: id in t.runs ==> t.runs[id].source in db.sources
    ensures SourcesTold(t, marks + [mark])
  {
    hide LastTold;
    forall source | source in t.sources && t.sources[source].status != Deleted
      ensures LastTold(t.sources[source].last, EndsOf(marks + [mark], source))
    {
      EndsSnoc(marks, mark, source);
      assert EndsOf(marks, source) + [] == EndsOf(marks, source);
    }
  }

  lemma CreateKeeps(db: Db, marks: seq<Mark>, id: nat, source: nat, now: int)
    requires RunInv(db, marks) && id !in db.runs && source in db.sources && !HasActiveRun(db, source)
    ensures RunInv(DoCreateRun(db, id, source, now), marks + [Created(id, source, now)])
  {
    hide LastTold;
    var t, mark := DoCreateRun(db, id, source, now), Created(id, source, now);
    NoMarks(marks, id);
    assert [] + [mark] == [mark];
    OneRunKeeps(db, t, marks, mark);
    NoEndSources(db, t, marks, mark);
  }

  lemma ClaimTold(id: nat, run: Run, marks: seq<Mark>, worker: string, now: int)
    requires RunTold(id, run, marks) && run.status == Queued
    ensures RunTold(id, run.(status := Running, worker := Some(worker), startedAt := Some(now), updatedAt := now),
                    marks + [Claimed(id, worker, now)])
  {
  }

  lemma ClaimKeeps(db: Db, marks: seq<Mark>, id: nat, worker: string, now: int)
    requires RunInv(db, marks) && id in db.runs && db.runs[id].status == Queued
    ensures RunInv(DoClaimRun(db, id, worker, now), marks + [Claimed(id, worker, now)])
  {
    hide LastTold;
    hide RunTold;
    var t, mark := DoClaimRun(db, id, worker, now), Claimed(id, worker, now);
    ClaimTold(id, db.runs[id], MarksOf(marks, id), worker, now);
    OneRunKeeps(db, t, marks, mark);
    NoEndSources(db, t, marks, mark);
  }

  lemma TouchTold(id: nat, run: Run, marks: seq<Mark>, now: int)
    requires RunTold(id, run, marks) && run.status == Running
    ensures RunTold(id, run.(updatedAt := now), marks + [Touched(id, now)])
  {
  }

  lemma TouchKeeps(db: Db, marks: seq<Mark>, id: nat, worker: string, now: int)
    requires RunInv(db, marks) && HeldBy(db, id, worker)
    ensures RunInv(DoTouchRun(db, id, worker, now), marks + [Touched(id, now)])
  {
    hide LastTold;
    hide RunTold;
    var t, mark := DoTouchRun(db, id, worker, now), Touched(id, now);
    TouchTold(id, db.runs[id], MarksOf(marks, id), now);
    OneRunKeeps(db, t, marks, mark);
    NoEndSources(db, t, marks, mark);
  }

  /** No run changed; of a source at most the status, and a deleted one stayed deleted. */
  lemma SameKeeps(a: Db, b: Db, marks: seq<Mark>)
    requires RunInv(a, marks) && a.runs == b.runs && a.sources.Keys == b.sources.Keys
    requires forall id :: id in a.sources ==> a.sources[id].last == b.sources[id].last
                                              && (a.sources[id].status == Deleted ==> b.sources[id].status == Deleted)
    ensures RunInv(b, marks)
  {
    hide LastTold;
  }

  lemma SourceKeeps(db: Db, marks: seq<Mark>, source: nat)
    requires RunInv(db, marks)
    ensures RunInv(DoCreateSource(db, source), marks)
  {
    if source !in db.sources {
      NoEnds(marks, source);
    }
  }

  lemma InterruptKeeps(db: Db, marks: seq<Mark>, op: Op, now: int)
    requires RunInv(db, marks) && op.FailInterrupted?
    ensures RunInv(Step(db, op, now), More(marks, MarkOf(db, op, now)))
  {
    hide RunInv;
    if MarkOf(db, op, now).Some? {
      var there := db.(files := map f | f in db.files :: FailedWith(db.files[f], op.run));
      SameKeeps(db, there, marks);
      EndKeeps(there, marks, op.run, Failed, Some(op.reason), now);
    }
  }

  lemma InProgressActive(db: Db, source: nat)
    ensures InProgress(db, source) <==> HasActiveRun(db, source)
  {
    if InProgress(db, source) {
      var id :| id in db.runs && db.runs[id].source == source && db.runs[id].status in {Queued, Running};
      assert IsActive(db.runs[id]);
    }
    if HasActiveRun(db, source) {
      var id :| id in db.runs && db.runs[id].source == source && IsActive(db.runs[id]);
      assert db.runs[id].status in {Queued, Running};
    }
  }

  lemma RunStepKeeps(db: Db, marks: seq<Mark>, op: Op, now: int)
    requires RunInv(db, marks)
    ensures RunInv(Step(db, op, now), More(marks, MarkOf(db, op, now)))
  {
    hide RunInv;
    hide HasActiveRun;
    hide InProgress;
    hide DoFailInterrupted;
    hide EndRun;
    match op {
      case CreateSource(source) => SourceKeeps(db, marks, source);
      case CreateRun(run, source) =>
        InProgressActive(db, source);
        if MarkOf(db, op, now).Some? {
          CreateKeeps(db, marks, run, source, now);
        }
      case ClaimRun(run, worker) =>
        if MarkOf(db, op, now).Some? {
          ClaimKeeps(db, marks, run, worker, now);
        }
      case TouchRun(run, worker) =>
        if MarkOf(db, op, now).Some? {
          TouchKeeps(db, marks, run, worker, now);
        }
      case FinishRun(run, worker, status, error) =>
        if MarkOf(db, op, now).Some? {
          EndKeeps(db, marks, run, status, error, now);
        }
      case FailInterrupted(run, reason, stale, worker) => InterruptKeeps(db, marks, op, now);
      case _ => SameKeeps(db, Step(db, op, now), marks);
    }
  }

  /** Exactly one outcome: after any sequence of operations by any workers the row of every run shows its whole
      history, in which it was claimed at most once and ended at most once; no source has two runs in progress;
      and every source that is not deleted shows the last end of its runs and their last success. */
  lemma {:induction false} ExactlyOneOutcome(ops: seq<Timed>)
    ensures RunInv(RunAll(EMPTY_DB, ops), Marks(ops))
  {
    hide Step;
    hide MarkOf;
    if ops != [] {
      ExactlyOneOutcome(ops[..|ops| - 1]);
      RunStepKeeps(RunAll(EMPTY_DB, ops[..|ops| - 1]), Marks(ops[..|ops| - 1]), ops[|ops| - 1].op, ops[|ops| - 1].now);
    }
  }

  lemma FreshIsSpared(db: Db, run: nat, reason: string, staleBefore: int, heldBy: Option<string>, now: int)
    requires run in db.runs ==> db.runs[run].updatedAt >= staleBefore
    ensures Step(db, FailInterrupted(run, reason, Some(staleBefore), heldBy), now) == db
  {
  }

  /** A run is recovered as stale only when its last sign of life, be it its claim or a heartbeat, is older than
      the threshold. */
  lemma AliveIsSpared(ops: seq<Timed>, run: nat, reason: string, staleBefore: int, heldBy: Option<string>, now: int)
    requires MarksOf(Marks(ops), run) != [] && MarksOf(Marks(ops), run)[|MarksOf(Marks(ops), run)| - 1].at >= staleBefore
    ensures var db := RunAll(EMPTY_DB, ops); Step(db, FailInterrupted(run, reason, Some(staleBefore), heldBy), now) == db
  {
    hide RunAll;
    hide Marks;
    hide Step;
    hide RanTold;
    ExactlyOneOutcome(ops);
    var db := RunAll(EMPTY_DB, ops);
    assert run in db.runs ==> RunTold(run, db.runs[run], MarksOf(Marks(ops), run));
    FreshIsSpared(db, run, reason, staleBefore, heldBy, now);
  }

  /** A finished run never changes again. */
  lemma {:induction false} FinishedIsFinal(db: Db, ops: seq<Timed>, id: nat)
    requires id in db.runs && Finished(db.runs[id].status)
    ensures id in RunAll(db, ops).runs && RunAll(db, ops).runs[id] == db.runs[id]
  {
    if ops != [] {
      FinishedIsFinal(db, ops[..|ops| - 1], id);
      FinishedStays(RunAll(db, ops[..|ops| - 1]), ops[|ops| - 1].op, ops[|ops| - 1].now, id);
    }
  }

  lemma FinishedStays(db: Db, op: Op, now: int, id: nat)
    requires id in db.runs && Finished(db.runs[id].status)
    ensures id in Step(db, op, now).runs && Step(db, op, now).runs[id] == db.runs[id]
  {
  }
}
