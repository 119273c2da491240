/** One tracked file of a source, over all runs of that source: what the run driver does with it, where it
    may stop, and what recovery and admins do meanwhile.  A source has one run in progress at a time, and a
    driver whose run was recovered takes no more steps. */
module CrmFiles {
  import opened Options
  import opened CrmStore
  import DocRegistry

  /** What the driver of the run in progress is about to do with the file. */
  datatype Pc =
    | NoRun
    | Planning
    | ToDelete
    | ToUpsert(resetAttempts: bool)
    | ToBegin
    | InFile(stage: nat, phase: Phase)
    | Passed

  /** Within a stage: about to mark it RUNNING, or having marked it; the three child stages share one RUNNING
      mark and are marked COMPLETED one after the other. */
  datatype Phase = Begin | Marked

  datatype System = System(file: Option<File>, run: nat, pc: Pc)

  /** What a listing says about the file; content that cannot be compared counts as changed. */
  datatype Seen = Listed(contentChanged: bool) | Missing | NotListed

  datatype Event =
    | StartRun
    | Plan(seen: Seen)
    | Delete
    | Upsert(source: nat, key: string)
    | StartFile
    | Advance(entities: nat)
    | Fail(stage: nat, started: bool)
    | Abandon
    | EndRun
    | Recover
    | AdminRetry

  // ---- the driver -------------------------------------------------------------------------------------------

  /** Where `plan_sync` sends the file; only listed files of the store are compared. */
  function Planned(file: Option<File>, seen: Seen): Pc {
    if file.Some? && file.value.listed then
      match seen
      case Listed(contentChanged) =>
        if contentChanged then ToUpsert(true)
        else if NeedsRetry(file.value.status, file.value.attempts) then ToUpsert(false)
        else Passed
      case Missing => ToDelete
      case NotListed => Passed
    else if seen.Listed? then ToUpsert(true)
    else Passed
  }

  function Update(s: System, after: Option<File>, next: Pc): System {
    if after.Some? then s.(file := after, pc := next) else s.(pc := Passed)
  }

  function FileStep(s: System, change: Change, next: Pc): System
    requires s.file.Some?
  {
    Update(s, StageDone(s.file.value, change), next)
  }

  /** The next step through the five stages. */
  function AdvanceIn(s: System, entities: nat): System
    requires s.pc.InFile? && s.file.Some?
  {
    match s.pc.phase
    case Begin => FileStep(s, DocRegistry.Change(s.pc.stage, RUNNING), InFile(s.pc.stage, Marked))
    case Marked =>
      if s.pc.stage == PERSIST then
        Update(s, Persisted(s.file.value, entities), Passed)
      else if s.pc.stage == EXTRACTION || s.pc.stage == INTELLIGENCE then
        FileStep(s, DocRegistry.Change(s.pc.stage, COMPLETED), InFile(s.pc.stage + 1, Marked))
      else FileStep(s, DocRegistry.Change(s.pc.stage, COMPLETED), InFile(s.pc.stage + 1, Begin))
  }

  /** The stages a failure may be put down to: the driver's own place, where the three child stages count as
      extraction, and while the child runs the stage it names. */
  predicate MayFailAt(pc: Pc, stage: nat)
    requires pc.InFile?
  {
    || stage == (if EXTRACTION <= pc.stage <= ENTITIES then EXTRACTION else pc.stage)
    || (pc.stage == EXTRACTION && pc.phase == Marked && EXTRACTION <= stage <= ENTITIES)
  }

  /** The child stages before `stage`. */
  function Earlier(stage: nat): seq<nat> {
    if stage == INTELLIGENCE then [EXTRACTION] else if stage == ENTITIES then [EXTRACTION, INTELLIGENCE] else []
  }

  function FailIn(s: System, stage: nat, started: bool): System
    requires s.pc.InFile? && s.file.Some?
  {
    if !MayFailAt(s.pc, stage) then s
    else
      var earlier := Earlier(stage);
      Update(s, FileFails(s.file.value, stage, if started then earlier else [], if started then [] else earlier), Passed)
  }

  function Step(s: System, event: Event): System {
    match event
    case StartRun => if s.pc.NoRun? then s.(run := s.run + 1, pc := Planning) else s
    case Plan(seen) => if s.pc.Planning? then s.(pc := Planned(s.file, seen)) else s
    case Delete =>
      if s.pc.ToDelete? && s.file.Some? then s.(file := Some(s.file.value.(listed := false)), pc := Passed) else s
    case Upsert(source, key) =>
      if !s.pc.ToUpsert? then s
      else if s.file.None? then s.(file := Some(Inserted(source, key, s.run)), pc := ToBegin)
      else s.(file := Some(Rearmed(s.file.value, s.pc.resetAttempts)), pc := ToBegin)
    case StartFile =>
      if !s.pc.ToBegin? || s.file.None? then s
      else if Begun(s.file.value, s.run).None? then s.(pc := Passed)
      else s.(file := Begun(s.file.value, s.run), pc := InFile(DOWNLOAD, Begin))
    case Advance(entities) => if s.pc.InFile? && s.file.Some? then AdvanceIn(s, entities) else s
    case Fail(stage, started) => if s.pc.InFile? && s.file.Some? then FailIn(s, stage, started) else s
    case Abandon => s.(pc := if s.pc.NoRun? then NoRun else Passed)
    case EndRun => if s.pc.InFile? then s else s.(pc := NoRun)
    case Recover =>
      if s.pc.NoRun? then s
      else s.(file := if s.file.Some? then Some(FailedWith(s.file.value, s.run)) else None, pc := NoRun)
    case AdminRetry =>
      if s.file.Some? && Reset(s.file.value).Some? then s.(file := Reset(s.file.value)) else s
  }

  function RunAll(s: System, events: seq<Event>): System {
    if events == [] then s else Step(RunAll(s, events[..|events| - 1]), events[|events| - 1])
  }

  const START: System := System(None, 0, NoRun)

  // ---- the invariant ----------------------------------------------------------------------------------------

  predicate AllDone(stages: seq<StageStatus>, n: nat) {
    n <= STAGES == |stages| && forall i :: 0 <= i < n ==> stages[i] == COMPLETED
  }

  /** No stage but `stage` is RUNNING. */
  predicate NoneRunningBut(stages: seq<StageStatus>, stage: nat) {
    forall i :: 0 <= i < |stages| && i != stage ==> stages[i] != RUNNING
  }

  predicate FailureNamed(file: File) {
    && (file.failedStage.Some? <==> file.status == FileFailed)
    && (file.failedStage.Some? ==> file.failedStage.value < |file.stages| && file.stages[file.failedStage.value] == FAILED)
  }

  predicate FileOk(file: File, run: nat) {
    && file.attempts <= MAX_FILE_ATTEMPTS && file.lastRun <= run
    && (file.status == FilePending ==> file.attempts < MAX_FILE_ATTEMPTS)
    && (file.status == FileCompleted ==> AllDone(file.stages, STAGES))
    && FailureNamed(file)
    && NoneRunningBut(file.stages, if file.status == FileProcessing then RunningStage(file) else STAGES)
  }

  predicate PcOk(s: System) {
    match s.pc
    case ToUpsert(resetAttempts) =>
      !resetAttempts ==> s.file.Some? && s.file.value.listed && s.file.value.attempts < MAX_FILE_ATTEMPTS
    case ToDelete => s.file.Some?
    case ToBegin => s.file.Some? && s.file.value.listed && s.file.value.status == FilePending
    case InFile(stage, phase) =>
      && s.file.Some? && s.file.value.listed && s.file.value.status == FileProcessing && s.file.value.lastRun == s.run
      && DOWNLOAD <= stage <= PERSIST && AllDone(s.file.value.stages, stage)
      && (phase == Begin ==> stage <= EXTRACTION || stage == PERSIST)
      && (forall i :: stage < i < STAGES ==> s.file.value.stages[i] == PENDING)
      && s.file.value.stages[stage] == (if phase == Marked && (stage <= EXTRACTION || stage == PERSIST) then RUNNING else PENDING)
    case _ => true
  }

  predicate Inv(s: System) {
    (s.file.Some? ==> FileOk(s.file.value, s.run)) && PcOk(s)
  }

  /** A failing file has no RUNNING stage left: the stages before the one the child failed in are stamped
      COMPLETED, or put back to PENDING when the child never got to work. */
  lemma FailKeeps(s: System, stage: nat, started: bool)
    requires Inv(s) && s.pc.InFile?
    ensures Inv(FailIn(s, stage, started))
  {
    hide RunningStage;
    if MayFailAt(s.pc, stage) {
      var earlier := Earlier(stage);
      var pending, completed := if started then [] else earlier, if started then earlier else [];
      FailStages(s.file.value, stage, completed, pending);
      assert stage > EXTRACTION && s.pc.stage == EXTRACTION ==> EXTRACTION in pending || EXTRACTION in completed;
    }
  }

  lemma FailStages(file: File, stage: nat, completed: seq<nat>, pending: seq<nat>)
    requires file.status == FileProcessing && stage < |file.stages|
    ensures var r := FileFails(file, stage, completed, pending).value;
      && |r.stages| == |file.stages| && r.stages[stage] == FAILED
      && r == file.(stages := r.stages, status := FileFailed, failedStage := Some(stage))
      && (forall i :: 0 <= i < |r.stages| && i != stage && (i in pending || i in completed) ==> r.stages[i] != RUNNING)
      && (forall i :: 0 <= i < |r.stages| && i != stage && i !in pending && i !in completed ==> r.stages[i] == file.stages[i])
  {
    hide SetStages;
    hide Minus;
    var first := SetStages(file, Minus(pending, stage), PENDING);
    MinusHolds(pending, stage);
    MinusHolds(completed, stage);
    SetStagesAt(file, Minus(pending, stage), PENDING);
    SetStagesAt(first, Minus(completed, stage), COMPLETED);
  }

  /** What a failure leaves in the row: the stage it is put down to FAILED, the child stages before that one
      COMPLETED when the child had got so far and PENDING when it had not, everything else as it was. */
  lemma FailureRecords(s: System, stage: nat, started: bool)
    requires Inv(s) && s.pc.InFile? && MayFailAt(s.pc, stage)
    ensures var t := FailIn(s, stage, started);
      && t.pc == Passed && t.run == s.run && t.file.Some?
      && var before, after := s.file.value, t.file.value;
         && after == before.(status := FileFailed, failedStage := Some(stage), stages := after.stages)
         && forall i :: 0 <= i < STAGES ==>
              after.stages[i] == if i == stage then FAILED
                                 else if 1 <= i < stage <= 3 then if started then COMPLETED else PENDING
                                 else before.stages[i]
  {
    hide SetStages;
    hide Minus;
    hide RunningStage;
    var earlier := Earlier(stage);
    var pending, completed := if started then [] else earlier, if started then earlier else [];
    var first := SetStages(s.file.value, Minus(pending, stage), PENDING);
    MinusHolds(pending, stage);
    MinusHolds(completed, stage);
    SetStagesAt(s.file.value, Minus(pending, stage), PENDING);
    SetStagesAt(first, Minus(completed, stage), COMPLETED);
    forall i ensures i in earlier <==> 1 <= i < stage <= 3 {
      if i == 1 && 2 <= stage <= 3 { assert earlier[0] == 1; }
      if i == 2 && stage == 3 { assert earlier[1] == 2; }
    }
  }

  /** What the steps outside the stages do to the row: a deletion takes it off the list, an upsert inserts it or lets
      it wait again with all stages back, a recovery fails it where its interrupted run had it, an admin's retry
      gives a failed file a new budget; the other columns stay. */
  lemma OutsideRecords(s: System, event: Event)
    requires event.Delete? || event.Upsert? || event.Recover? || event.AdminRetry?
    ensures var t := Step(s, event);
      match event
      case Delete =>
        t.file == if s.pc.ToDelete? && s.file.Some? then Some(s.file.value.(listed := false)) else s.file
      case Upsert(source, key) =>
        if !s.pc.ToUpsert? then t == s
        else if s.file.None? then t.file == Some(File(source, key, true, FilePending, ALL_PENDING, None, 0, s.run, 0))
        else t.file == Some(s.file.value.(listed := true, status := FilePending, stages := ALL_PENDING, failedStage := None,
                                          attempts := if s.pc.resetAttempts then 0 else s.file.value.attempts))
      case Recover =>
        t.pc == NoRun
        && if !s.pc.NoRun? && s.file.Some? && s.file.value.status == FileProcessing && s.file.value.lastRun == s.run
           then t.file.Some? && FailsInFlight(s.file.value, t.file.value)
           else t.file == s.file
      case AdminRetry =>
        t.file == if s.file.Some? && s.file.value.listed && s.file.value.status == FileFailed
                  then Some(s.file.value.(status := FilePending, stages := ALL_PENDING, failedStage := None, attempts := 0))
                  else s.file
      case _ => true
  {
    hide FailedWith;
    if event.Recover? && s.file.Some? {
      FailedInFlight(s.file.value, s.run);
    }
  }

  lemma RecoverKeeps(s: System)
    requires Inv(s)
    ensures Inv(Step(s, Recover))
  {
    if s.file.Some? {
      RunningStageInside(s.file.value);
    }
    hide RunningStage;
  }

  lemma RunningStageInside(file: File)
    ensures RunningStage(file) < STAGES
  {
  }

  /** While the driver is in a stage, that is the one that may be RUNNING. */
  lemma RunningIsHere(s: System)
    requires PcOk(s) && s.pc.InFile?
    ensures NoneRunningBut(s.file.value.stages, RunningStage(s.file.value))
  {
    var file := s.file.value;
    if file.stages[s.pc.stage] == RUNNING {
      assert RunningStage(file) == s.pc.stage;
    }
  }

  lemma AdvanceKeeps(s: System, entities: nat)
    requires Inv(s) && s.pc.InFile?
    ensures Inv(AdvanceIn(s, entities))
  {
    hide RunningStage;
    var t := AdvanceIn(s, entities);
    if t.pc.InFile? {
      RunningIsHere(t);
    }
  }

  lemma StartKeeps(s: System)
    requires Inv(s)
    ensures Inv(Step(s, StartFile))
  {
    hide RunningStage;
    var t := Step(s, StartFile);
    if t.pc.InFile? {
      RunningIsHere(t);
    }
  }

  lemma DeleteKeeps(s: System)
    requires Inv(s)
    ensures Inv(Step(s, Delete))
  {
    if s.file.Some? {
      assert RunningStage(s.file.value.(listed := false)) == RunningStage(s.file.value);
    }
  }

  lemma StepKeeps(s: System, event: Event)
    requires Inv(s)
    ensures Inv(Step(s, event))
  {
    hide RunningStage;
    hide FailIn;
    hide AdvanceIn;
    match event {
      case Fail(stage, started) => if s.pc.InFile? { FailKeeps(s, stage, started); }
      case Recover => RecoverKeeps(s);
      case StartFile => StartKeeps(s);
      case Delete => DeleteKeeps(s);
      case Advance(entities) => if s.pc.InFile? { AdvanceKeeps(s, entities); }
      case _ =>
    }
  }

  /** In every reachable state the file was started at most three times on its present budget, a file that waits
      has a try left, and a COMPLETED file has all five stages COMPLETED. */
  lemma {:induction false} EveryRun(events: seq<Event>)
    ensures Inv(RunAll(START, events))
  {
    if events != [] {
      EveryRun(events[..|events| - 1]);
      StepKeeps(RunAll(START, events[..|events| - 1]), events[|events| - 1]);
    }
  }

  // ---- how often a file is started ------------------------------------------------------------------------------

  /** What gives a file a new retry budget: a plan that finds it new or listed again after it was deleted, a plan
      that finds its content changed, and an admin's retry of a failed file. */
  predicate Renewal(s: System, event: Event) {
    match event
    case Plan(seen) =>
      s.pc.Planning? && seen.Listed? && (s.file.None? || !s.file.value.listed || seen.contentChanged)
    case AdminRetry => s.file.Some? && s.file.value.listed && s.file.value.status == FileFailed
    case _ => false
  }

  /** The file is started in this step. */
  predicate Starts(s: System, event: Event) {
    event.StartFile? && s.pc.ToBegin? && Step(s, event).pc.InFile?
  }

  function StartsIn(s: System, events: seq<Event>): nat {
    if events == [] then 0
    else
      var front, last := events[..|events| - 1], events[|events| - 1];
      StartsIn(s, front) + (if Starts(RunAll(s, front), last) then 1 else 0)
  }

  predicate NoRenewal(s: System, events: seq<Event>) {
    events != [] ==>
      var front, last := events[..|events| - 1], events[|events| - 1];
      NoRenewal(s, front) && !Renewal(RunAll(s, front), last)
  }

  function Attempts(s: System): nat {
    if s.file.Some? then s.file.value.attempts else 0
  }

  /** Without a renewal a step adds to the attempts exactly when it starts the file. */
  lemma StepCounts(s: System, event: Event)
    requires Inv(s) && !Renewal(s, event) && s.pc != ToUpsert(true)
    ensures var t := Step(s, event);
      t.pc != ToUpsert(true) && Attempts(t) == Attempts(s) + (if Starts(s, event) then 1 else 0)
  {
    hide RunningStage;
    hide FailIn;
    if event.Fail? && s.pc.InFile? && MayFailAt(s.pc, event.stage) {
      FailCounts(s, event.stage, event.started);
    }
    if event.Fail? && s.pc.InFile? && !MayFailAt(s.pc, event.stage) {
      assert FailIn(s, event.stage, event.started) == s by { FailIgnored(s, event.stage, event.started); }
    }
  }

  lemma FailIgnored(s: System, stage: nat, started: bool)
    requires s.pc.InFile? && s.file.Some? && !MayFailAt(s.pc, stage)
    ensures FailIn(s, stage, started) == s
  {
  }

  lemma FailCounts(s: System, stage: nat, started: bool)
    requires Inv(s) && s.pc.InFile? && MayFailAt(s.pc, stage)
    ensures var t := FailIn(s, stage, started); t.pc == Passed && Attempts(t) == Attempts(s)
  {
    var earlier := Earlier(stage);
    FailStages(s.file.value, stage, if started then earlier else [], if started then [] else earlier);
  }

  /** Over a stretch of events without a renewal the row counts exactly the starts. */
  lemma {:induction false} RunCounts(s: System, events: seq<Event>)
    requires Inv(s) && s.pc != ToUpsert(true) && NoRenewal(s, events)
    ensures var t := RunAll(s, events);
      Inv(t) && t.pc != ToUpsert(true) && Attempts(t) == Attempts(s) + StartsIn(s, events)
  {
    hide Step;
    hide Inv;
    hide Starts;
    hide Renewal;
    if events != [] {
      var front, last := events[..|events| - 1], events[|events| - 1];
      RunCounts(s, front);
      StepKeeps(RunAll(s, front), last);
      StepCounts(RunAll(s, front), last);
    }
  }

  /** Also when the stretch begins with a renewal planned but not carried out, the row counts no fewer. */
  lemma {:induction false} RunBounded(s: System, events: seq<Event>)
    requires Inv(s) && NoRenewal(s, events)
    ensures var t := RunAll(s, events);
      && Inv(t) && StartsIn(s, events) <= Attempts(t) && (t.pc == ToUpsert(true) ==> StartsIn(s, events) == 0)
  {
    hide Step;
    hide Inv;
    hide Starts;
    hide Renewal;
    if events != [] {
      var front, last := events[..|events| - 1], events[|events| - 1];
      RunBounded(s, front);
      var mid := RunAll(s, front);
      StepKeeps(mid, last);
      if mid.pc == ToUpsert(true) {
        PlannedStartsNothing(mid, last);
      } else {
        StepCounts(mid, last);
      }
    }
  }

  lemma PlannedStartsNothing(s: System, event: Event)
    requires s.pc == ToUpsert(true)
    ensures !Starts(s, event)
  {
  }

  /** Bounded retries: in any stretch of any run that holds no renewal the file is started at most three times,
      and less often by the tries it has used already, unless the stretch begins with a renewal planned but not
      carried out. */
  lemma BoundedRetries(before: seq<Event>, events: seq<Event>)
    requires NoRenewal(RunAll(START, before), events)
    ensures var s := RunAll(START, before);
      && StartsIn(s, events) <= MAX_FILE_ATTEMPTS
      && (s.pc != ToUpsert(true) ==> Attempts(s) + StartsIn(s, events) <= MAX_FILE_ATTEMPTS)
  {
    hide Step;
    hide RunAll;
    hide NoRenewal;
    hide StartsIn;
    var s := RunAll(START, before);
    EveryRun(before);
    RunBounded(s, events);
    AttemptsBounded(RunAll(s, events));
    if s.pc != ToUpsert(true) {
      RunCounts(s, events);
    }
  }

  lemma AttemptsBounded(s: System)
    requires Inv(s)
    ensures Attempts(s) <= MAX_FILE_ATTEMPTS
  {
  }

  /** A planned renewal is carried out as an empty budget: the next starts count from one again. */
  lemma RenewalEmpties(s: System, source: nat, key: string)
    requires s.pc == ToUpsert(true)
    ensures Attempts(Step(s, Upsert(source, key))) == 0
  {
  }

  /** What the stages tell in every reachable state: at most one is RUNNING, none once the file is not
      PROCESSING, and a FAILED file names a stage that is FAILED. */
  lemma StagesTell(events: seq<Event>)
    ensures var s := RunAll(START, events);
      s.file.Some? ==>
        var file := s.file.value;
        && FailureNamed(file)
        && (file.status != FileProcessing ==> forall i :: 0 <= i < |file.stages| ==> file.stages[i] != RUNNING)
        && (forall i, j :: 0 <= i < j < |file.stages| ==> file.stages[i] != RUNNING || file.stages[j] != RUNNING)
  {
    hide RunningStage;
    hide RunAll;
    EveryRun(events);
  }

  /** No update of a driver is ever refused: a planned file starts, and a stage that ran is recorded. */
  lemma NeverRefused(s: System, entities: nat)
    requires Inv(s)
    ensures s.pc.ToBegin? ==> Step(s, StartFile).pc == InFile(DOWNLOAD, Begin)
    ensures s.pc.InFile? ==> Step(s, Advance(entities)).pc == NextPc(s.pc)
    ensures s.pc == InFile(PERSIST, Marked) ==> Step(s, Advance(entities)).file.value.status == FileCompleted
  {
  }

  function NextPc(pc: Pc): Pc
    requires pc.InFile?
  {
    if pc.phase == Begin then InFile(pc.stage, Marked)
    else if pc.stage == PERSIST then Passed
    else if pc.stage == EXTRACTION || pc.stage == INTELLIGENCE then InFile(pc.stage + 1, Marked)
    else InFile(pc.stage + 1, Begin)
  }

  /** How many steps a driver is away from the end of the file. */
  function Distance(pc: Pc): nat
    requires pc.InFile?
  {
    if pc.stage > PERSIST then 0
    else 2 * (PERSIST - pc.stage) + (if pc.phase == Begin then 2 else 1)
  }

  lemma RunSnoc(s: System, events: seq<Event>, event: Event)
    ensures RunAll(s, events + [event]) == Step(RunAll(s, events), event)
  {
    assert (events + [event])[..|events|] == events;
  }

  lemma {:induction false} StagesComplete(s: System, events: seq<Event>) returns (more: seq<Event>)
    requires Inv(RunAll(s, events)) && RunAll(s, events).pc.InFile?
    ensures var t := RunAll(s, more); t.file.Some? && t.file.value.status == FileCompleted
    decreases Distance(RunAll(s, events).pc)
  {
    hide Step;
    hide RunAll;
    hide Inv;
    var mid := RunAll(s, events);
    InFileStage(mid);
    NeverRefused(mid, 0);
    StepKeeps(mid, Advance(0));
    RunSnoc(s, events, Advance(0));
    more := events + [Advance(0)];
    if mid.pc != InFile(PERSIST, Marked) {
      more := StagesComplete(s, more);
    } else {
      CompletedHere(mid);
    }
  }

  lemma InFileStage(s: System)
    requires Inv(s) && s.pc.InFile?
    ensures s.pc.stage <= PERSIST
  {
  }

  lemma CompletedHere(s: System)
    requires Inv(s) && s.pc == InFile(PERSIST, Marked)
    ensures Step(s, Advance(0)).file.Some?
  {
  }

  /** A listed file that waits for a try can be completed within the next run. */
  lemma NextRunCompletes(s: System) returns (events: seq<Event>)
    requires Inv(s) && s.pc.NoRun? && s.file.Some? && s.file.value.listed && NeedsRetry(s.file.value.status, s.file.value.attempts)
    ensures var t := RunAll(s, events); t.file.Some? && t.file.value.status == FileCompleted
  {
    var s1 := Step(s, StartRun);
    var s2 := Step(s1, Plan(Listed(false)));
    var s3 := Step(s2, Upsert(0, ""));
    var s4 := Step(s3, StartFile);
    StepKeeps(s, StartRun);
    StepKeeps(s1, Plan(Listed(false)));
    StepKeeps(s2, Upsert(0, ""));
    StepKeeps(s3, StartFile);
    RunSnoc(s, [], StartRun);
    RunSnoc(s, [] + [StartRun], Plan(Listed(false)));
    RunSnoc(s, [] + [StartRun] + [Plan(Listed(false))], Upsert(0, ""));
    RunSnoc(s, [] + [StartRun] + [Plan(Listed(false))] + [Upsert(0, "")], StartFile);
    events := StagesComplete(s, [] + [StartRun] + [Plan(Listed(false))] + [Upsert(0, "")] + [StartFile]);
  }
}
