/**
 What every step writes into the run files, the manifest and the record, told without the store's own functions, and
 what a run's list of events looks like in every history.
 */
module RunEvents {
  import opened Text
  import opened RunLifecycle
  import opened RunLifecycleProofs

  // ---- the ways a run file is rewritten ----

  predicate EndsIn(events: seq<Event>, e: Event) {
    events != [] && events[|events| - 1] == e
  }

  predicate Untouched(before: Run, after: Run) {
    before == after
  }

  predicate Resumes(before: Run, after: Run) {
    && (before.status == Paused || before.status == Interrupted)
    && after == Run(Running, before.resumeCount + 1, before.events + [WasResumed], false, before.body)
  }

  /** Recovery notes an interruption once. */
  predicate Interrupts(before: Run, after: Run) {
    && before.status == Running && after.status == Interrupted
    && after.resumeCount == before.resumeCount && after.finished == before.finished && after.body == before.body
    && after.events == before.events + if WasInterrupted in before.events then [] else [WasInterrupted]
  }

  predicate Progresses(before: Run, after: Run, body: string) {
    after == Run(before.status, before.resumeCount, before.events, before.finished, body)
  }

  /** The worker's last write: a pause is noted unless the last event already is one. */
  predicate Ends(before: Run, after: Run, status: Status, body: string) {
    && after.status == status && after.body == body && after.resumeCount == before.resumeCount
    && (after.finished <==> before.finished || status in {Completed, CompletedWithFailures, Failed})
    && after.events ==
       before.events + if status == Paused && !EndsIn(before.events, WasPaused) then [WasPaused] else []
  }

  /** How a run-all worker ends a run. */
  predicate EndStatus(outcome: Outcome, status: Status) {
    || (outcome == Success && status == Completed)
    || (outcome == WithFailures && status == CompletedWithFailures)
    || (outcome == PausedOutcome && status == Paused)
    || (outcome == FailedOutcome && status == Failed)
  }

  ghost predicate EndsBy(before: Run, after: Run, outcome: Outcome, body: string) {
    exists status :: EndStatus(outcome, status) && Ends(before, after, status, body)
  }

  predicate Recovers(before: Run, after: Run) {
    if before.status == Running then Interrupts(before, after) else Untouched(before, after)
  }

  /** What a step does to the file of the current run. */
  ghost predicate Rewrites(s: Sys, step: Step, before: Run, after: Run) {
    match step
    case Create(valid, cut, _) =>
      if !Busy(s) && valid && !cut.AfterReport? && (before.status == Paused || before.status == Interrupted)
      then Resumes(before, after) else Untouched(before, after)
    case Pause => if s.memory.None? then Recovers(before, after) else Untouched(before, after)
    case GetRun => if s.memory.None? then Recovers(before, after) else Untouched(before, after)
    case ListRuns(_) => if !Busy(s) then Recovers(before, after) else Untouched(before, after)
    case Progressed(body) =>
      if Working(s, RunAll) then Progresses(before, after, body) else Untouched(before, after)
    case Finish(outcome, body, crashBetween) =>
      if Working(s, RunAll) && !crashBetween then EndsBy(before, after, outcome, body) else Untouched(before, after)
    case FinishFails(outcome, body, _, reach) =>
      if Working(s, RunAll) && reach.BothFiles? then EndsBy(before, after, outcome, body)
      else Untouched(before, after)
    case LateFailure(i, error, reach) =>
      if i < |s.late| && reach.BothFiles? then Ends(before, after, Failed, error) else Untouched(before, after)
    case _ => Untouched(before, after)
  }

  /** A step rewrites the current run's file as it says, leaves the others and writes at most one new file: that of
      the next run, which starts running with no events. */
  ghost predicate Writes(s: Sys, step: Step, d: Disk, e: Disk) {
    && (d.current >= 1 ==> d.current in d.runs && d.current in e.runs
                           && Rewrites(s, step, d.runs[d.current], e.runs[d.current]))
    && (forall n | n in d.runs && (n == 0 || n != d.current) && n != d.current + 1 ::
         n in e.runs && e.runs[n] == d.runs[n])
    && (forall n | n in e.runs && n != d.current + 1 :: n in d.runs)
    && (d.current + 1 in d.runs ==> d.current + 1 in e.runs)
    && (d.current + 1 in e.runs ==>
          || (d.current + 1 in d.runs && e.runs[d.current + 1] == d.runs[d.current + 1])
          || (step.Create? && StartRun(e.runs[d.current + 1])))
  }

  // ---- the model does exactly this ----

  lemma OneWritten(s: Sys, step: Step, d: Disk, e: Disk, after: Run)
    requires DiskInv(d) && d.current >= 1 && e.runs == d.runs[d.current := after]
    requires Rewrites(s, step, d.runs[d.current], after)
    ensures Writes(s, step, d, e)
  {
    hide GoodRun, Rewrites, StartRun;
  }

  lemma RecoveredWrites(d: Disk)
    requires DiskInv(d)
    ensures d.current >= 1 ==> d.current in d.runs && exists after ::
              Recovers(d.runs[d.current], after) && Recovered(d).runs == d.runs[d.current := after]
    ensures d.current == 0 ==> Recovered(d).runs == d.runs
  {
    hide GoodRun;
    RecoveredIs(d);
    if d.current >= 1 {
      var run := d.runs[d.current];
      var after := if run.status == Running then Interruption(run) else run;
      assert Recovers(run, after);
      assert Recovered(d).runs == d.runs[d.current := after];
    }
  }

  lemma EndedEnds(run: Run, status: Status, body: string)
    ensures Ends(run, Ended(run, status, body), status, body)
  {}

  lemma ArchivedIs(outcome: Outcome)
    ensures EndStatus(outcome, ArchiveStatus(RunAll, outcome))
  {}

  lemma EndWrites(d: Disk, status: Status, body: string)
    requires DiskInv(d)
    ensures d.current == 0 ==> AfterEnd(d, status, body).runs == d.runs
    ensures d.current >= 1 ==> d.current in d.runs && exists after ::
              Ends(d.runs[d.current], after, status, body)
              && AfterEnd(d, status, body).runs == d.runs[d.current := after]
  {
    hide GoodRun;
    if d.current >= 1 { EndedEnds(d.runs[d.current], status, body); }
    hide Ended;
  }

  lemma CreateWrites(s: Sys, step: Step, casesOf: string -> string)
    requires Inv(s) && step.Create?
    ensures Writes(s, step, s.disk, After(s, step, casesOf).disk)
  {
    var d := s.disk;
    assert d.current >= 1 ==> d.current in d.runs;
    var e := Started(d, step.cut, casesOf);
    assert After(s, step, casesOf).disk == if Busy(s) || !step.valid || PlanFor(d) == Refuse then d else e;
    hide GoodRun, DiskInv;
    if Busy(s) || !step.valid || PlanFor(d) == Refuse || step.cut.AfterReport? {
      SameRunsWritten(s, step, d, After(s, step, casesOf).disk);
    } else if PlanFor(d) == Resume {
      OneWritten(s, step, d, e, Resumed(d.runs[d.current]));
    } else {
      assert e.runs == d.runs[d.current + 1 := e.runs[d.current + 1]] && StartRun(e.runs[d.current + 1]);
    }
  }

  lemma LookWrites(s: Sys, step: Step, casesOf: string -> string)
    requires Inv(s) && (step.Pause? || step.GetRun? || step.ListRuns?)
    ensures Writes(s, step, s.disk, After(s, step, casesOf).disk)
  {
    var d, e := s.disk, After(s, step, casesOf).disk;
    RecoveredWrites(d);
    var looks := if step.ListRuns? then !Busy(s) else s.memory.None?;
    assert e.runs == if looks then Recovered(d).runs else d.runs by { hide Recovered; }
    hide After, Recovered, DiskInv, Recovers;
    if looks && d.current >= 1 {
      var after :| Recovers(d.runs[d.current], after) && Recovered(d).runs == d.runs[d.current := after];
      OneWritten(s, step, d, e, after);
    } else {
      SameRunsWritten(s, step, d, e);
    }
  }

  lemma SameRunsWritten(s: Sys, step: Step, d: Disk, e: Disk)
    requires DiskInv(d) && e.runs == d.runs
    requires d.current >= 1 ==> d.current in d.runs && Rewrites(s, step, d.runs[d.current], d.runs[d.current])
    ensures Writes(s, step, d, e)
  {
    hide GoodRun, Rewrites, StartRun;
  }

  lemma FinishWrites(s: Sys, step: Step, casesOf: string -> string)
    requires Inv(s) && (step.Finish? || step.FinishFails?)
    ensures Writes(s, step, s.disk, After(s, step, casesOf).disk)
  {
    var d, e := s.disk, After(s, step, casesOf).disk;
    var outcome, body := if step.Finish? then step.outcome else step.raised,
                         if step.Finish? then step.endBody else step.raisedBody;
    var status := ArchiveStatus(RunAll, outcome);
    EndWrites(d, status, body);
    ArchivedIs(outcome);
    var ends := Working(s, RunAll) && if step.Finish? then !step.crashBetween else step.reach.BothFiles?;
    assert e.runs == if ends then AfterEnd(d, status, body).runs else d.runs by { FinishedRuns(s, step, casesOf); }
    assert ends ==> d.current >= 1;
    hide After, AfterEnd, DiskInv, Ends, EndStatus, ArchiveStatus;
    if ends {
      var after :| Ends(d.runs[d.current], after, status, body) && e.runs == d.runs[d.current := after];
      OneWritten(s, step, d, e, after);
    } else {
      SameRunsWritten(s, step, d, e);
    }
  }

  lemma FinishedRuns(s: Sys, step: Step, casesOf: string -> string)
    requires Inv(s) && (step.Finish? || step.FinishFails?)
    ensures var outcome, body := if step.Finish? then step.outcome else step.raised,
                                 if step.Finish? then step.endBody else step.raisedBody;
            After(s, step, casesOf).disk.runs ==
            if Working(s, RunAll) && (if step.Finish? then !step.crashBetween else step.reach.BothFiles?)
            then AfterEnd(s.disk, ArchiveStatus(RunAll, outcome), body).runs else s.disk.runs
  {
    hide DiskInv, Ended;
    assert Busy(s) && !Working(s, RunAll) ==> Working(s, GenerateReport);
  }

  lemma LateWrites(s: Sys, step: Step, casesOf: string -> string)
    requires Inv(s) && step.LateFailure?
    ensures Writes(s, step, s.disk, After(s, step, casesOf).disk)
  {
    var d, e := s.disk, After(s, step, casesOf).disk;
    EndWrites(d, Failed, step.error);
    var ends := step.index < |s.late| && step.lateReach.BothFiles?;
    assert e.runs == if ends then AfterEnd(d, Failed, step.error).runs else d.runs by { hide Ended; }
    hide After, AfterEnd, DiskInv, Ends;
    if ends && d.current >= 1 {
      var after :| Ends(d.runs[d.current], after, Failed, step.error) && e.runs == d.runs[d.current := after];
      OneWritten(s, step, d, e, after);
    } else {
      SameRunsWritten(s, step, d, e);
    }
  }

  lemma OtherWrites(s: Sys, step: Step, casesOf: string -> string)
    requires Inv(s) && (step.Progressed? || step.FinishGeneration? || step.Crash? || step.WriteReport?)
    ensures Writes(s, step, s.disk, After(s, step, casesOf).disk)
  {
    var d, e := s.disk, After(s, step, casesOf).disk;
    assert d.current >= 1 ==> d.current in d.runs;
    hide DiskInv, IsReportFrozen;
    if step.Progressed? && Working(s, RunAll) {
      var run := d.runs[d.current];
      OneWritten(s, step, d, e, run.(body := step.newBody));
    } else {
      SameRunsWritten(s, step, d, e);
    }
  }

  /** What each step writes into the run files, in every state a history reaches. */
  lemma FilesExactly(s: Sys, step: Step, casesOf: string -> string)
    requires Inv(s)
    ensures Writes(s, step, s.disk, After(s, step, casesOf).disk)
  {
    hide *;
    match step
    case Create(_, _, _) => CreateWrites(s, step, casesOf);
    case Pause => LookWrites(s, step, casesOf);
    case GetRun => LookWrites(s, step, casesOf);
    case ListRuns(_) => LookWrites(s, step, casesOf);
    case Finish(_, _, _) => FinishWrites(s, step, casesOf);
    case FinishFails(_, _, _, _) => FinishWrites(s, step, casesOf);
    case LateFailure(_, _, _) => LateWrites(s, step, casesOf);
    case _ => OtherWrites(s, step, casesOf);
  }

  // ---- a run's list of events ----

  /** No two pauses in a row, at most one interruption, and no resumption to begin with. */
  ghost predicate InOrder(events: seq<Event>) {
    && (forall i | 0 <= i < |events| - 1 :: !(events[i] == WasPaused && events[i + 1] == WasPaused))
    && (forall i, j | 0 <= i < j < |events| :: !(events[i] == WasInterrupted && events[j] == WasInterrupted))
    && (events != [] ==> events[0] != WasResumed)
  }

  /** The events of a run fit each other and its status. */
  ghost predicate Tidy(run: Run) {
    && InOrder(run.events)
    && (run.status == Paused ==> EndsIn(run.events, WasPaused))
    && (run.status == Running ==> run.events == [] || EndsIn(run.events, WasResumed))
    && (run.status == Interrupted ==> WasInterrupted in run.events)
  }

  lemma InOrderNext(events: seq<Event>, e: Event)
    requires InOrder(events)
    requires match e
             case WasPaused => !EndsIn(events, WasPaused)
             case WasInterrupted => WasInterrupted !in events
             case WasResumed => events != []
    ensures InOrder(events + [e]) && EndsIn(events + [e], e) && e in events + [e]
  {
    var more := events + [e];
    assert more[|events|] == e;
    assert forall i | 0 <= i < |events| :: more[i] == events[i] && events[i] in events;
  }

  ghost predicate AllTidy(d: Disk) {
    forall n | n in d.runs :: Tidy(d.runs[n])
  }

  lemma ResumesTidy(before: Run, after: Run)
    requires Resumes(before, after) && Tidy(before)
    ensures Tidy(after)
  {
    hide InOrder;
    InOrderNext(before.events, WasResumed);
  }

  lemma InterruptsTidy(before: Run, after: Run)
    requires Interrupts(before, after) && Tidy(before)
    ensures Tidy(after)
  {
    hide InOrder;
    if WasInterrupted !in before.events {
      InOrderNext(before.events, WasInterrupted);
    } else {
      assert before.events + [] == before.events;
    }
  }

  lemma EndsTidy(before: Run, after: Run, status: Status, body: string)
    requires Ends(before, after, status, body) && Tidy(before) && status != Running && status != Interrupted
    ensures Tidy(after)
  {
    hide InOrder;
    if status == Paused && !EndsIn(before.events, WasPaused) {
      InOrderNext(before.events, WasPaused);
    } else {
      assert before.events + [] == before.events;
    }
  }

  lemma RewritesTidy(s: Sys, step: Step, before: Run, after: Run)
    requires Rewrites(s, step, before, after) && Tidy(before)
    ensures Tidy(after)
  {
    hide Tidy, Ends, Resumes, Interrupts;
    if Resumes(before, after) {
      ResumesTidy(before, after);
    } else if Interrupts(before, after) {
      InterruptsTidy(before, after);
    } else if step.Progressed? {
      ProgressesTidy(before, after);
    } else if status, body :| Ends(before, after, status, body) && status != Running && status != Interrupted {
      EndsTidy(before, after, status, body);
    }
  }

  lemma ProgressesTidy(before: Run, after: Run)
    requires Tidy(before) && after.status == before.status && after.events == before.events
    ensures Tidy(after)
  {}

  lemma WritesTidy(s: Sys, step: Step, d: Disk, e: Disk)
    requires Writes(s, step, d, e) && AllTidy(d)
    ensures AllTidy(e)
  {
    hide Rewrites, Tidy;
    if d.current >= 1 { RewritesTidy(s, step, d.runs[d.current], e.runs[d.current]); }
    if d.current + 1 in e.runs && StartRun(e.runs[d.current + 1]) { StartTidy(e.runs[d.current + 1]); }
  }

  lemma StartTidy(run: Run)
    requires StartRun(run)
    ensures Tidy(run)
  {}

  /**
   In every history, no run has two pauses in a row or is noted interrupted twice, none begins with a resumption, a
   paused run ends in its pause, a running one that is not new in its resumption, and an interrupted one says so.
   */
  lemma {:induction false} EventsTidy(steps: seq<Step>, casesOf: string -> string)
    ensures AllTidy(AfterAll(INITIAL, steps, casesOf).disk)
    decreases |steps|
  {
    hide *;
    if steps == [] {
      NothingWritten(casesOf);
    } else {
      var k := |steps| - 1;
      EventsTidy(steps[..k], casesOf);
      EveryHistoryInOrder(steps[..k], casesOf);
      AfterAllLast(INITIAL, steps, casesOf);
      var before := AfterAll(INITIAL, steps[..k], casesOf);
      FilesExactly(before, steps[k], casesOf);
      WritesTidy(before, steps[k], before.disk, After(before, steps[k], casesOf).disk);
    }
  }

  lemma NothingWritten(casesOf: string -> string)
    ensures AllTidy(AfterAll(INITIAL, [], casesOf).disk)
  {}

  /** A worker that ends its run notes a pause exactly when it pauses a run that does not already end in one, and
      changes the events in no other way. */
  lemma EndNotesPause(s: Sys, outcome: Outcome, body: string, casesOf: string -> string)
    requires Inv(s) && Working(s, RunAll)
    ensures var n, after := s.disk.current, After(s, Finish(outcome, body, false), casesOf).disk;
            && n in s.disk.runs && n in after.runs
            && var before, now := s.disk.runs[n].events, after.runs[n].events;
               if outcome == PausedOutcome && !EndsIn(before, WasPaused) then now == before + [WasPaused]
               else now == before
  {
    FilesExactly(s, Finish(outcome, body, false), casesOf);
    hide After, DiskInv;
    var n, after := s.disk.current, After(s, Finish(outcome, body, false), casesOf).disk;
    assert EndsBy(s.disk.runs[n], after.runs[n], outcome, body);
  }

  // ---- the manifest and the reports ----

  /** The current run waits to be taken up again. */
  predicate Waits(d: Disk) {
    d.current >= 1 && d.current in d.runs && d.runs[d.current].status in {Paused, Interrupted}
  }

  /** There is no current run or it has ended, the report was generated, and there is one to start from. */
  predicate MayStart(d: Disk) {
    && (d.current == 0
        || (d.current in d.runs && d.runs[d.current].status in {Completed, CompletedWithFailures, Failed}))
    && d.task !in {Generating, GenerationFailed}
    && (if d.current == 0 then d.initial.Some? else d.current in d.reports)
  }

  predicate Admitted(s: Sys, valid: bool) {
    !Busy(s) && valid && (Waits(s.disk) || MayStart(s.disk))
  }

  predicate CurrentRuns(d: Disk) {
    d.current >= 1 && d.current in d.runs && d.runs[d.current].status == Running
  }

  predicate GenerationStatus(outcome: Outcome, status: Status) {
    || ((outcome == Success || outcome == WithFailures) && status == Ready)
    || (outcome == PausedOutcome && status == Paused)
    || (outcome == FailedOutcome && status == GenerationFailed)
  }

  /** The status a step leaves in the manifest. */
  predicate Marks(s: Sys, step: Step, before: Status, after: Status) {
    match step
    case Create(valid, cut, _) => after == if Admitted(s, valid) && cut.Whole? then Running else before
    case Pause => after == if s.memory.None? && CurrentRuns(s.disk) then Interrupted else before
    case GetRun => after == if s.memory.None? && CurrentRuns(s.disk) then Interrupted else before
    case ListRuns(crash) => after == if !Busy(s) && !crash && CurrentRuns(s.disk) then Interrupted else before
    case Finish(outcome, _, _) => if Working(s, RunAll) then EndStatus(outcome, after) else after == before
    case FinishGeneration(outcome, _) =>
      if Working(s, GenerateReport) then GenerationStatus(outcome, after) else after == before
    case FinishFails(outcome, _, _, reach) =>
      if !Busy(s) || reach.NoFile? then after == before
      else if Working(s, RunAll) then EndStatus(outcome, after) else GenerationStatus(outcome, after)
    case LateFailure(i, _, reach) =>
      after == if i >= |s.late| || reach.NoFile? then before
               else if s.late[i].action == RunAll then Failed else GenerationFailed
    case _ => after == before
  }

  lemma PlanIs(d: Disk)
    requires DiskInv(d)
    ensures PlanFor(d) == Resume <==> Waits(d)
    ensures PlanFor(d) == StartNew <==> !Waits(d) && MayStart(d)
    ensures MayStart(d) ==> !Waits(d)
  {
    hide GoodRun;
    assert d.current >= 1 ==> d.current in d.runs;
  }

  lemma GeneratedIs(outcome: Outcome)
    ensures GenerationStatus(outcome, ArchiveStatus(GenerateReport, outcome))
  {}

  lemma CreateMarks(s: Sys, step: Step, casesOf: string -> string)
    requires Inv(s) && step.Create?
    ensures Marks(s, step, s.disk.task, After(s, step, casesOf).disk.task)
  {
    PlanIs(s.disk);
    hide DiskInv, Waits, MayStart, PlanFor;
  }

  lemma EndMarks(d: Disk, task: Status, status: Status, body: string, reach: Reach)
    ensures AfterEnd(d, status, body).task == d.task
    ensures AfterWrites(d, task, status, body, reach).task == if reach.NoFile? then d.task else task
  {}

  lemma WorkerMarks(s: Sys, step: Step, casesOf: string -> string)
    requires step.Finish? || step.FinishGeneration? || step.FinishFails? || step.LateFailure?
    ensures Marks(s, step, s.disk.task, After(s, step, casesOf).disk.task)
  {
    match step
    case Finish(outcome, body, _) =>
      ArchivedIs(outcome);
      EndMarks(s.disk.(task := ArchiveStatus(RunAll, outcome)), Ready, ArchiveStatus(RunAll, outcome), body, NoFile);
      hide AfterEnd, ArchiveStatus, EndStatus;
    case FinishGeneration(outcome, report) => GeneratedIs(outcome);
    case FinishFails(outcome, body, report, reach) => RaiseMarks(s, outcome, body, report, reach);
    case LateFailure(i, error, reach) =>
      if i < |s.late| {
        EndMarks(s.disk, ArchiveStatus(s.late[i].action, FailedOutcome), Failed, error, reach);
      }
      hide AfterWrites;
  }

  lemma RaiseMarks(s: Sys, outcome: Outcome, body: string, report: Option<string>, reach: Reach)
    ensures Marks(s, FinishFails(outcome, body, report, reach), s.disk.task,
                  AfterRaise(s, outcome, body, report, reach).disk.task)
  {
    GeneratedIs(outcome);
    ArchivedIs(outcome);
    if Busy(s) {
      var action := s.memory.value.action;
      var reported := if action.GenerateReport? then s.disk.(initial := report) else s.disk;
      var status := ArchiveStatus(action, outcome);
      EndMarks(reported, status, status, body, reach);
      hide AfterWrites, ArchiveStatus, EndStatus, GenerationStatus;
    }
  }

  lemma OtherMarks(s: Sys, step: Step, casesOf: string -> string)
    requires !step.Create? && !step.Finish? && !step.FinishGeneration? && !step.FinishFails? && !step.LateFailure?
    ensures Marks(s, step, s.disk.task, After(s, step, casesOf).disk.task)
  {
    RecoveredIs(s.disk);
    hide Recovered, IsReportFrozen;
  }

  /** What each step writes into the manifest as the task's status. */
  lemma ManifestExactly(s: Sys, step: Step, casesOf: string -> string)
    requires Inv(s)
    ensures Marks(s, step, s.disk.task, After(s, step, casesOf).disk.task)
  {
    hide *;
    match step
    case Create(_, _, _) => CreateMarks(s, step, casesOf);
    case Finish(_, _, _) => WorkerMarks(s, step, casesOf);
    case FinishGeneration(_, _) => WorkerMarks(s, step, casesOf);
    case FinishFails(_, _, _, _) => WorkerMarks(s, step, casesOf);
    case LateFailure(_, _, _) => WorkerMarks(s, step, casesOf);
    case _ => OtherMarks(s, step, casesOf);
  }

  /** The current number, the reports and the first report, after a step. */
  predicate Reports(s: Sys, step: Step, d: Disk, e: Disk) {
    match step
    case Create(valid, cut, _) =>
      if Admitted(s, valid) && MayStart(d) then
        && e.current == (if cut.Whole? then d.current + 1 else d.current) && e.initial == d.initial
        && e.reports == d.reports[d.current + 1 := if d.current == 0 then d.initial.value else d.reports[d.current]]
      else e.current == d.current && e.initial == d.initial && e.reports == d.reports
    case WriteReport(n, text) =>
      && e.current == d.current && e.initial == d.initial
      && e.reports == if 1 <= n <= 999 && n in d.runs
                         && d.runs[n].status in {Completed, CompletedWithFailures, Failed}
                      then d.reports else d.reports[n := text]
    case FinishGeneration(_, report) =>
      && e.current == d.current && e.reports == d.reports
      && e.initial == if Working(s, GenerateReport) then report else d.initial
    case FinishFails(_, _, report, _) =>
      && e.current == d.current && e.reports == d.reports
      && e.initial == if Working(s, GenerateReport) then report else d.initial
    case _ => e.current == d.current && e.initial == d.initial && e.reports == d.reports
  }

  lemma FrozenIs(d: Disk, n: nat)
    ensures IsReportFrozen(d, ReportName(n)) <==>
            1 <= n <= 999 && n in d.runs && d.runs[n].status in {Completed, CompletedWithFailures, Failed}
  {
    ReportNameRead(n);
    hide ReportName, ThreeDigits;
  }

  lemma CreateReports(s: Sys, step: Step, casesOf: string -> string)
    requires Inv(s) && step.Create?
    ensures Reports(s, step, s.disk, After(s, step, casesOf).disk)
  {
    PlanIs(s.disk);
    hide DiskInv, PlanFor;
  }

  /** What each step does to the current number and to the reports. */
  lemma ReportsExactly(s: Sys, step: Step, casesOf: string -> string)
    requires Inv(s)
    ensures Reports(s, step, s.disk, After(s, step, casesOf).disk)
  {
    match step
    case Create(_, _, _) => hide After, Inv, Reports; CreateReports(s, step, casesOf);
    case WriteReport(n, _) => FrozenIs(s.disk, n); hide IsReportFrozen, Inv;
    case _ => RecoveredIs(s.disk); hide Recovered, Inv, IsReportFrozen, Ended;
  }

  // ---- the record and the failing workers ----

  predicate RecordEnd(outcome: Outcome, status: RecordStatus) {
    || ((outcome == Success || outcome == WithFailures) && status == RecordSuccess)
    || (outcome == PausedOutcome && status == RecordPaused)
    || (outcome == FailedOutcome && status == RecordFailed)
  }

  predicate EndsRecord(before: Option<Record>, after: Option<Record>, outcome: Outcome) {
    && before.Some? && after.Some? && after.value.action == before.value.action
    && after.value.pauseRequested == before.value.pauseRequested && RecordEnd(outcome, after.value.status)
  }

  predicate SameMemory(s: Sys, t: Sys) {
    t.memory == s.memory && t.late == s.late
  }

  predicate Nothing(t: Sys) {
    t.memory == None && t.late == []
  }

  /** The record in memory and the workers on the way to their failure branch, after a step. */
  predicate Remembers(s: Sys, step: Step, t: Sys) {
    match step
    case Create(valid, cut, crash) =>
      if crash then Nothing(t)
      else if Admitted(s, valid) && cut.Whole? then
        && t.memory == Some(Record(RunAll, RecordRunning, false)) && |t.late| == |s.late|
        && forall i | 0 <= i < |s.late| :: t.late[i] == Late(s.late[i].action, false)
      else SameMemory(s, t)
    case Pause =>
      if Working(s, RunAll) then t.late == s.late && t.memory == Some(Record(RunAll, RecordRunning, true))
      else SameMemory(s, t)
    case ListRuns(crash) => if crash then Nothing(t) else SameMemory(s, t)
    case Finish(outcome, _, crashBetween) =>
      if !Working(s, RunAll) then SameMemory(s, t)
      else if crashBetween then Nothing(t)
      else t.late == s.late && EndsRecord(s.memory, t.memory, outcome)
    case FinishGeneration(outcome, _) =>
      if !Working(s, GenerateReport) then SameMemory(s, t)
      else t.late == s.late && EndsRecord(s.memory, t.memory, outcome)
    case FinishFails(outcome, _, _, _) =>
      if !Busy(s) then SameMemory(s, t)
      else t.late == s.late + [Late(s.memory.value.action, true)] && EndsRecord(s.memory, t.memory, outcome)
    case LateFailure(i, _, _) =>
      if i >= |s.late| then SameMemory(s, t)
      else
        && t.late == s.late[..i] + s.late[i + 1..]
        && if s.late[i].own && s.memory.Some? then EndsRecord(s.memory, t.memory, FailedOutcome)
           else t.memory == s.memory
    case Crash => Nothing(t)
    case _ => SameMemory(s, t)
  }

  lemma RecordedIs(outcome: Outcome)
    ensures RecordEnd(outcome, RecordOf(outcome))
  {}

  lemma CreateRemembers(s: Sys, step: Step, casesOf: string -> string)
    requires Inv(s) && step.Create?
    ensures Remembers(s, step, After(s, step, casesOf))
  {
    PlanIs(s.disk);
    hide DiskInv, PlanFor, Waits, MayStart, Started;
  }

  /** What each step does to the record in memory and to the failing workers. */
  lemma RecordExactly(s: Sys, step: Step, casesOf: string -> string)
    requires Inv(s)
    ensures Remembers(s, step, After(s, step, casesOf))
  {
    match step
    case Create(_, _, _) => hide After, Inv, Remembers; CreateRemembers(s, step, casesOf);
    case Finish(outcome, _, _) => RecordedIs(outcome); hide RecordOf, RecordEnd, AfterEnd, Inv;
    case FinishGeneration(outcome, _) => RecordedIs(outcome); hide RecordOf, RecordEnd, AfterEnd, Inv;
    case FinishFails(outcome, _, _, _) => RecordedIs(outcome); hide RecordOf, RecordEnd, AfterWrites, Inv;
    case LateFailure(_, _, _) => hide AfterWrites, Inv;
    case _ => hide Recovered, AfterProgress, AfterWriteReport, Inv;
  }
}
