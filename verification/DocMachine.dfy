/** One accepted document through its whole life: workers that stop at any moment, recovery that reads
    first and re-checks later, shutdown, and admin actions decided on rows read earlier. */
module DocMachine {
  import opened Options
  import opened DocRegistry

  /** What the worker on the document is about to do: begin a stage (extraction may be left out when the row
      it claimed says COMPLETED), finish a running one, or record a finished one's results. */
  datatype Phase = Begin | InStage | Recording

  datatype Pc = Pc(worker: string, stage: nat, phase: Phase)

  /** An interrupted stage read for a later update. */
  datatype Read = Read(stage: nat, staleBefore: Option<int>, worker: Option<string>)

  datatype System = System(row: Row, clock: int, pc: Option<Pc>, noted: set<Read>, stopped: set<string>)

  datatype Event =
    | Tick(ticks: nat)
    | Claim(worker: string)
    | Heartbeat(worker: string)
    | Skip
    | Start
    | Complete
    | Record
    | Fail
    | Crash
    | RecoverRead(staleBefore: int)
    | ReleaseRead(worker: string)
    | FailInterrupted(read: Read)
    | Retry(fromStage: nat)
    | Republish
    | Unpublish

  /** A conditional update: refused leaves the row as it is. */
  function Keep(row: Row, after: Option<Row>): Row {
    if after.Some? then after.value else row
  }

  /** A worker's step; `after` is its update, `next` where it goes when the update went through.  A refused
      update makes it abandon the document. */
  function WorkerStep(s: System, after: Option<Row>, next: Option<Pc>): System {
    s.(row := Keep(s.row, after), pc := if after.Some? then next else None)
  }

  function StepTo(s: System, stage: nat, phase: Phase): Option<Pc>
    requires s.pc.Some?
  {
    Some(Pc(s.pc.value.worker, stage, phase))
  }

  function Work(s: System, event: Event): System
    requires s.pc.Some?
  {
    var pc := s.pc.value;
    match event
    case Skip =>
      if pc.stage == EXTRACTION && pc.phase == Begin && |s.row.stages| == STAGES && s.row.stages[EXTRACTION] == Completed
      then s.(pc := StepTo(s, CHUNKING, Begin)) else s
    case Start =>
      if pc.phase != Begin then s
      else WorkerStep(s, StageSet(s.row, Change(pc.stage, Running), s.clock), StepTo(s, pc.stage, InStage))
    case Complete =>
      if pc.phase != InStage then s
      else if pc.stage == PUBLISHING then WorkerStep(s, FinishedPublished(s.row, s.clock), None)
      else WorkerStep(s, StageSet(s.row, Change(pc.stage, Completed), s.clock), StepTo(s, pc.stage, Recording))
    case Record =>
      if pc.phase != Recording then s
      else WorkerStep(s, ResultsSet(s.row, s.clock), StepTo(s, pc.stage + 1, Begin))
    case Fail => WorkerStep(s, FinishedFailed(s.row, pc.stage, None, None, s.clock), None)
    case Crash => s.(pc := None)
    case _ => s
  }

  /** The recovered or released worker takes no more steps. */
  function Interrupt(s: System, read: Read): System {
    var after := FinishedFailed(s.row, read.stage, read.staleBefore, read.worker, s.clock);
    s.(row := Keep(s.row, after), pc := if after.Some? then None else s.pc)
  }

  function Step(s: System, event: Event): System {
    match event
    case Tick(ticks) => s.(clock := s.clock + ticks)
    case Claim(worker) =>
      if worker in s.stopped || Claimed(s.row, worker, s.clock).None? then s
      else s.(row := Claimed(s.row, worker, s.clock).value, pc := Some(Pc(worker, EXTRACTION, Begin)))
    case Heartbeat(worker) =>
      if s.pc.Some? && s.pc.value.worker == worker then s.(row := Keep(s.row, Touched(s.row, worker, s.clock))) else s
    case RecoverRead(staleBefore) =>
      if s.row.status == Processing && s.row.updatedAt < staleBefore && staleBefore <= s.clock
      then s.(noted := s.noted + {Read(InterruptedStage(s.row), Some(staleBefore), None)}) else s
    case ReleaseRead(worker) =>
      var there := s.(stopped := s.stopped + {worker},
                      pc := if s.pc.Some? && s.pc.value.worker == worker then None else s.pc);
      if s.row.status == Processing && s.row.worker == Some(worker)
      then there.(noted := s.noted + {Read(InterruptedStage(s.row), None, Some(worker))}) else there
    case FailInterrupted(read) => if read in s.noted then Interrupt(s, read) else s
    case Retry(fromStage) =>
      if fromStage == EXTRACTION || fromStage == CHUNKING
      then s.(row := Keep(s.row, ResetForRetry(s.row, fromStage, s.clock))) else s
    case Republish => s.(row := Keep(s.row, ResetForRepublish(s.row, s.clock)))
    case Unpublish => s.(row := Keep(s.row, MarkedUnpublished(s.row, s.clock)))
    case _ => if s.pc.Some? then Work(s, event) else s
  }

  function Run(s: System, events: seq<Event>): System {
    if events == [] then s else Step(Run(s, events[..|events| - 1]), events[|events| - 1])
  }

  function Init(now: int): System {
    System(DocRegistry.Accepted(now), now, None, {}, {})
  }

  // ---- the invariant --------------------------------------------------------------------------------------

  /** The worker's place agrees with the row it is processing. */
  predicate PcOk(s: System) {
    s.pc.Some? ==>
      var pc, row := s.pc.value, s.row;
      && |row.stages| == STAGES && row.status == Processing && row.worker == Some(pc.worker) && pc.worker !in s.stopped
      && EXTRACTION <= pc.stage <= PUBLISHING
      && (pc.stage == PUBLISHING ==> pc.phase != Recording)
      && (forall i :: 0 <= i < pc.stage ==> row.stages[i] == Completed)
      && (forall i :: pc.stage < i < STAGES ==> row.stages[i] == Pending)
      && match pc.phase
         case Begin => if pc.stage == EXTRACTION then row.stages[EXTRACTION] != Running else row.stages[pc.stage] == Pending
         case InStage => row.stages[pc.stage] == Running
         case Recording => row.stages[pc.stage] == Completed
  }

  predicate Passes(row: Row, read: Read) {
    row.status == Processing && Stale(row, read.staleBefore) && Held(row, read.worker)
  }

  /** A read that the re-check would still let through names the interrupted stage as it is now. */
  predicate ReadOk(s: System, read: Read) {
    && (read.staleBefore.Some? || read.worker.Some?)
    && (read.staleBefore.Some? ==> read.staleBefore.value <= s.clock)
    && (read.worker.Some? ==> read.worker.value in s.stopped)
    && (Passes(s.row, read) ==> read.stage == InterruptedStage(s.row))
  }

  ghost predicate Inv(s: System) {
    RowOk(s.row) && PcOk(s) && s.row.updatedAt <= s.clock && forall read :: read in s.noted ==> ReadOk(s, read)
  }

  lemma InterruptedInShape(stages: seq<StageStatus>, row: Row, k: nat)
    requires stages == row.stages && ShapeAt(stages, k) && k < STAGES
    ensures InterruptedStage(row) == k
  {
  }

  lemma FailKeepsRow(row: Row, stage: nat, now: int)
    requires |row.stages| == STAGES && DetailsOk(row.stages, row.details) && row.status == Processing && stage < STAGES
    requires forall i :: 0 <= i < stage ==> row.stages[i] == Completed
    requires forall i :: stage < i < STAGES ==> row.stages[i] == Pending
    requires 0 < stage
    ensures RowOk(FinishedFailed(row, stage, None, None, now).value)
  {
    ChangeDetails(row, Change(stage, Failed), now);
    var after := FinishedFailed(row, stage, None, None, now).value;
    assert ShapeAt(after.stages, stage) && StatusOk(after, stage);
  }

  // ---- every step keeps it ----------------------------------------------------------------------------------

  /** The row did not change, or changed now: then no earlier read passes its re-check any more, unless it
      is a released worker's, and those rows only change by being failed. */
  lemma ReadsKept(s: System, t: System)
    requires forall read :: read in s.noted ==> ReadOk(s, read)
    requires t.noted == s.noted && t.clock >= s.clock && s.stopped <= t.stopped
    requires t.row == s.row || (t.row.updatedAt == s.clock && t.clock == s.clock
                               && (t.row.status == Processing ==> t.row.worker.None? || t.row.worker.value !in s.stopped))
    ensures forall read :: read in t.noted ==> ReadOk(t, read)
  {
    hide InterruptedStage;
    forall read | read in t.noted ensures ReadOk(t, read) {
      assert ReadOk(s, read);
    }
  }

  lemma ClaimKeeps(s: System, worker: string)
    requires Inv(s)
    ensures Inv(Step(s, Claim(worker)))
  {
    hide InterruptedStage;
    var t := Step(s, Claim(worker));
    if t != s {
      var k :| ShapeAt(s.row.stages, k) && StatusOk(s.row, k);
      assert ShapeAt(t.row.stages, k) && StatusOk(t.row, k);
      ReadsKept(s, t);
    }
  }

  lemma StartKeeps(s: System)
    requires Inv(s) && s.pc.Some?
    ensures Inv(Work(s, Start))
  {
    hide InterruptedStage;
    var t, pc := Work(s, Start), s.pc.value;
    if pc.phase == Begin {
      ChangeDetails(s.row, Change(pc.stage, Running), s.clock);
      assert ShapeAt(t.row.stages, pc.stage) && StatusOk(t.row, pc.stage);
      ReadsKept(s, t);
    }
  }

  lemma CompleteKeeps(s: System)
    requires Inv(s) && s.pc.Some?
    ensures Inv(Work(s, Complete))
  {
    hide InterruptedStage;
    var t, pc := Work(s, Complete), s.pc.value;
    if pc.phase == InStage {
      ChangeDetails(s.row, Change(pc.stage, Completed), s.clock);
      assert ShapeAt(t.row.stages, pc.stage + 1) && StatusOk(t.row, pc.stage + 1);
      ReadsKept(s, t);
    }
  }

  lemma FailKeeps(s: System)
    requires Inv(s) && s.pc.Some?
    ensures Inv(Work(s, Fail))
  {
    hide InterruptedStage;
    FailKeepsRow(s.row, s.pc.value.stage, s.clock);
    ReadsKept(s, Work(s, Fail));
  }

  lemma WorkKeeps(s: System, event: Event)
    requires Inv(s) && s.pc.Some?
    ensures Inv(Work(s, event))
  {
    hide InterruptedStage;
    var t, pc := Work(s, event), s.pc.value;
    match event {
      case Start => StartKeeps(s);
      case Complete => CompleteKeeps(s);
      case Fail => FailKeeps(s);
      case Record =>
        if pc.phase == Recording {
          assert ShapeAt(t.row.stages, pc.stage + 1) && StatusOk(t.row, pc.stage + 1);
          ReadsKept(s, t);
        }
      case _ =>
    }
  }

  lemma InterruptKeeps(s: System, read: Read)
    requires Inv(s) && read in s.noted
    ensures Inv(Interrupt(s, read))
  {
    var t := Interrupt(s, read);
    if FinishedFailed(s.row, read.stage, read.staleBefore, read.worker, s.clock).Some? {
      var k :| ShapeAt(s.row.stages, k) && StatusOk(s.row, k);
      assert ReadOk(s, read);
      InterruptedInShape(s.row.stages, s.row, k);
      FailKeepsRow(s.row, read.stage, s.clock);
      ReadsKept(s, t);
    }
  }

  lemma ResetKeeps(s: System, from: nat, after: Row)
    requires Inv(s) && (from == EXTRACTION || from == CHUNKING)
    requires s.row.status == FailedDoc || (s.row.status == Published && from == CHUNKING)
    requires after == ResetFrom(s.row, from, s.clock).(status := Queued, failedStage := None)
    ensures Inv(s.(row := after))
  {
    hide InterruptedStage;
    hide ResetFrom;
    var k: nat :| ShapeAt(s.row.stages, k) && StatusOk(s.row, k);
    ResetDetails(s.row, from, s.clock);
    var k': nat := if k < from then k else from;
    assert ShapeAt(after.stages, k') && StatusOk(after, k');
    ReadsKept(s, s.(row := after));
  }

  lemma AdminKeeps(s: System, event: Event)
    requires Inv(s) && (event.Retry? || event.Republish? || event.Unpublish?)
    ensures Inv(Step(s, event))
  {
    hide InterruptedStage;
    hide ResetFrom;
    var t := Step(s, event);
    if t != s {
      match event {
        case Retry(from) => ResetKeeps(s, from, t.row);
        case Republish => ResetKeeps(s, CHUNKING, t.row);
        case Unpublish =>
          var k :| ShapeAt(s.row.stages, k) && StatusOk(s.row, k);
          assert ShapeAt(t.row.stages, k) && StatusOk(t.row, k);
          ReadsKept(s, t);
      }
    }
  }

  lemma OtherKeeps(s: System, event: Event)
    requires Inv(s) && (event.Tick? || event.Heartbeat? || event.RecoverRead? || event.ReleaseRead?)
    ensures Inv(Step(s, event))
  {
    hide InterruptedStage;
    var t := Step(s, event);
    var k :| ShapeAt(s.row.stages, k) && StatusOk(s.row, k);
    assert ShapeAt(t.row.stages, k) && StatusOk(t.row, k);
    ReadsKept(s, t.(noted := s.noted));
  }

  lemma StepKeeps(s: System, event: Event)
    requires Inv(s)
    ensures Inv(Step(s, event))
  {
    match event {
      case Claim(worker) => ClaimKeeps(s, worker);
      case FailInterrupted(read) => if read in s.noted { InterruptKeeps(s, read); }
      case Retry(_) => AdminKeeps(s, event);
      case Republish => AdminKeeps(s, event);
      case Unpublish => AdminKeeps(s, event);
      case Tick(_) => OtherKeeps(s, event);
      case Heartbeat(_) => OtherKeeps(s, event);
      case RecoverRead(_) => OtherKeeps(s, event);
      case ReleaseRead(_) => OtherKeeps(s, event);
      case _ => if s.pc.Some? { WorkKeeps(s, event); }
    }
  }

  /** What admin actions and heartbeats do in any state: a retry puts back the named stage and all later ones, a
      republish does so from chunking on, unpublishing keeps all stages, a heartbeat shows the time; the worker's
      place and the noted reads stay. */
  lemma OutsideRecords(s: System, event: Event)
    requires event.Retry? || event.Republish? || event.Unpublish? || event.Heartbeat?
    ensures var t := Step(s, event);
      && t.pc == s.pc && t.noted == s.noted && t.stopped == s.stopped && t.clock == s.clock
      && match event
         case Retry(from) =>
           if s.row.status == FailedDoc && (from == EXTRACTION || from == CHUNKING) then BackInQueue(s.row, t.row, from, s.clock)
           else t.row == s.row
         case Republish =>
           if s.row.status == Published || s.row.status == FailedDoc then BackInQueue(s.row, t.row, CHUNKING, s.clock)
           else t.row == s.row
         case Unpublish =>
           t.row == if s.row.status == Published || s.row.status == FailedDoc
                    then s.row.(status := DocStatus.Unpublished, updatedAt := s.clock) else s.row
         case Heartbeat(worker) =>
           t.row == if s.pc.Some? && s.pc.value.worker == worker && s.row.status == Processing && s.row.worker == Some(worker)
                    then s.row.(updatedAt := s.clock) else s.row
         case _ => true
  {
    hide ResetFrom;
    hide PutBack;
    ResetPutsBack(s.row, CHUNKING, s.clock);
    if event.Retry? {
      ResetPutsBack(s.row, event.fromStage, s.clock);
      PutBackAgain(s.row, ResetFrom(s.row, event.fromStage, s.clock), event.fromStage);
    }
    PutBackAgain(s.row, ResetFrom(s.row, CHUNKING, s.clock), CHUNKING);
  }

  predicate BackInQueue(before: Row, after: Row, stage: nat, now: int) {
    SameBut(before, after, now) && after.status == Queued && after.failedStage.None? && PutBack(before, after, stage)
  }

  /** Which stages were put back does not depend on the status columns. */
  lemma PutBackAgain(before: Row, after: Row, stage: nat)
    requires PutBack(before, after, stage)
    ensures PutBack(before, after.(status := Queued, failedStage := None), stage)
  {
  }

  /** In every reachable state of an accepted document, whatever the workers, recoveries and admins did and
      wherever they stopped, the row has its shape and the statuses say what they mean. */
  lemma {:induction false} EveryRun(now: int, events: seq<Event>)
    ensures Inv(Run(Init(now), events))
  {
    if events == [] {
      var row := Init(now).row;
      assert ShapeAt(row.stages, EXTRACTION) && StatusOk(row, EXTRACTION);
    } else {
      EveryRun(now, events[..|events| - 1]);
      StepKeeps(Run(Init(now), events[..|events| - 1]), events[|events| - 1]);
    }
  }

  /** What the shape means for a reader of the row. */
  lemma ShapeMeans(now: int, events: seq<Event>)
    ensures var row := Run(Init(now), events).row;
      && |row.stages| == STAGES && row.stages[UPLOAD] == Completed
      && (row.status == Published ==> forall i :: 0 <= i < STAGES ==> row.stages[i] == Completed)
      && (row.status == FailedDoc ==> row.failedStage.Some? && UPLOAD < row.failedStage.value < STAGES
                                      && row.stages[row.failedStage.value] == Failed)
      && (row.failedStage.Some? ==> row.status == FailedDoc || row.status == Unpublished)
      && (forall i, j :: 0 <= i < j < STAGES && row.stages[i] != Completed ==> row.stages[j] == Pending)
  {
    EveryRun(now, events);
    var row := Run(Init(now), events).row;
    var k :| ShapeAt(row.stages, k) && StatusOk(row, k);
  }

  /** UNPUBLISHED is final: no event changes anything in such a row, and no worker takes it up. */
  lemma {:induction false} UnpublishedIsFinal(s: System, events: seq<Event>)
    requires Inv(s) && s.row.status == DocStatus.Unpublished
    ensures Run(s, events).row == s.row && Run(s, events).pc.None?
  {
    if events != [] {
      UnpublishedIsFinal(s, events[..|events| - 1]);
    }
  }

  // ---- every document can still be published -----------------------------------------------------------------

  lemma {:induction false} RunConcat(s: System, a: seq<Event>, b: seq<Event>)
    ensures Run(s, a + b) == Run(Run(s, a), b)
  {
    if b == [] {
      assert a + b == a;
    } else {
      assert (a + b)[..|a + b| - 1] == a + b[..|b| - 1];
      RunConcat(s, a, b[..|b| - 1]);
    }
  }

  lemma RunOne(s: System, event: Event)
    ensures Run(s, [event]) == Step(s, event)
  {
    assert [event][..0] == [];
    assert Run(s, []) == s;
  }

  lemma RunThree(s: System, a: Event, b: Event, c: Event)
    ensures Run(s, [a, b, c]) == Step(Step(Step(s, a), b), c)
  {
    assert [a, b, c] == [a] + ([b] + [c]);
    RunConcat(s, [a], [b] + [c]);
    RunConcat(Step(s, a), [b], [c]);
    RunOne(s, a);
    RunOne(Step(s, a), b);
    RunOne(Step(Step(s, a), b), c);
  }

  predicate AtStage(s: System, stage: nat) {
    s.pc.Some? && s.pc.value.stage == stage && s.pc.value.phase == Begin
  }

  /** A stage that runs well leads to the next one. */
  lemma StageRuns(s: System, stage: nat)
    requires Inv(s) && AtStage(s, stage) && stage < PUBLISHING
    ensures var t := Run(s, [Start, Complete, Record]); Inv(t) && AtStage(t, stage + 1)
  {
    hide Inv;
    hide PcOk;
    hide ApplyChange;
    assert s.row.status == Processing by { ProcessingNow(s); }
    RunThree(s, Start, Complete, Record);
    StepKeeps(s, Start);
    StepKeeps(Step(s, Start), Complete);
    StepKeeps(Step(Step(s, Start), Complete), Record);
  }

  lemma ProcessingNow(s: System)
    requires Inv(s) && s.pc.Some?
    ensures s.row.status == Processing
  {
  }

  /** From a queue place to publication. */
  lemma QueuedPublishes(s: System, worker: string) returns (events: seq<Event>)
    requires Inv(s) && s.row.status == Queued && worker !in s.stopped
    ensures Run(s, events).row.status == Published
  {
    hide Inv;
    hide Step;
    hide Run;
    var round := [Start, Complete, Record];
    var s0 := Run(s, [Claim(worker)]);
    ClaimBegins(s, worker);
    StageRuns(s0, EXTRACTION);
    var s1 := Run(s0, round);
    StageRuns(s1, CHUNKING);
    var s2 := Run(s1, round);
    StageRuns(s2, EMBEDDING);
    var s3 := Run(s2, round);
    LastStage(s3);
    RunConcat(s, [Claim(worker)], round);
    RunConcat(s, [Claim(worker)] + round, round);
    RunConcat(s, [Claim(worker)] + round + round, round);
    RunConcat(s, [Claim(worker)] + round + round + round, [Start] + [Complete]);
    events := [Claim(worker)] + round + round + round + ([Start] + [Complete]);
  }

  lemma ClaimBegins(s: System, worker: string)
    requires Inv(s) && s.row.status == Queued && worker !in s.stopped
    ensures var t := Run(s, [Claim(worker)]); Inv(t) && AtStage(t, EXTRACTION)
  {
    hide Inv;
    RunOne(s, Claim(worker));
    StepKeeps(s, Claim(worker));
  }

  lemma LastStage(s: System)
    requires Inv(s) && AtStage(s, PUBLISHING)
    ensures Run(s, [Start] + [Complete]).row.status == Published
  {
    ProcessingNow(s);
    RunConcat(s, [Start], [Complete]);
    RunOne(s, Start);
    RunOne(Step(s, Start), Complete);
  }

  /** Whatever happened to a document before, short of being unpublished, there is a way from its state to
      publication: a stuck run can be recovered, a failed one retried, and a queued one run to the end. */
  lemma CanStillPublish(s: System, worker: string) returns (events: seq<Event>)
    requires Inv(s) && s.row.status != DocStatus.Unpublished && worker !in s.stopped
    ensures Run(s, events).row.status == Published
    decreases s.row.status == Processing
  {
    hide Inv;
    hide ResetFrom;
    hide ApplyChange;
    hide InterruptedStage;
    match s.row.status {
      case Queued => events := QueuedPublishes(s, worker);
      case Published =>
        events := [];
      case FailedDoc =>
        var t := Step(s, Retry(EXTRACTION));
        RunOne(s, Retry(EXTRACTION));
        StepKeeps(s, Retry(EXTRACTION));
        var rest := QueuedPublishes(t, worker);
        RunConcat(s, [Retry(EXTRACTION)], rest);
        events := [Retry(EXTRACTION)] + rest;
      case Processing =>
        var first, t := Recovered(s);
        var rest := CanStillPublish(t, worker);
        RunConcat(s, first, rest);
        events := first + rest;
    }
  }

  lemma Recovered(s: System) returns (events: seq<Event>, t: System)
    requires Inv(s) && s.row.status == Processing
    ensures t == Run(s, events) && Inv(t) && t.row.status == FailedDoc && t.stopped == s.stopped
  {
    hide InterruptedStage;
    hide ApplyChange;
    hide RowOk;
    hide PcOk;
    var read := Read(InterruptedStage(s.row), Some(s.clock + 1), None);
    var a, b, c := Tick(1), RecoverRead(s.clock + 1), FailInterrupted(read);
    events := [a, b, c];
    RunThree(s, a, b, c);
    StepKeeps(s, a);
    StepKeeps(Step(s, a), b);
    StepKeeps(Step(Step(s, a), b), c);
    t := Step(Step(Step(s, a), b), c);
  }
}
