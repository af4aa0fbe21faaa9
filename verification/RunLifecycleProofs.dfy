/** What every history of requests, worker steps and crashes keeps true of a task's runs and reports. */
module RunLifecycleProofs {
  import opened Text
  import opened RunLifecycle

  function CountResumed(events: seq<Event>): nat {
    if events == [] then 0
    else CountResumed(events[..|events| - 1]) + if events[|events| - 1] == WasResumed then 1 else 0
  }

  lemma CountResumedAppend(events: seq<Event>, e: Event)
    ensures CountResumed(events + [e]) == CountResumed(events) + if e == WasResumed then 1 else 0
  {
    assert (events + [e])[..|events|] == events;
  }

  /** A run file as the service ever leaves it. */
  predicate GoodRun(run: Run) {
    && (Terminal(run.status) || run.status == Running || run.status == Paused || run.status == Interrupted)
    && run.resumeCount == CountResumed(run.events)
    && (Terminal(run.status) ==> run.finished)
  }

  /** A run file beyond the current number: written by a creation that never reached the manifest. */
  predicate Orphaned(d: Disk) {
    d.current + 1 in d.runs
  }

  ghost predicate DiskInv(d: Disk) {
    && (forall n | n in d.runs :: 1 <= n <= d.current + 1 && n in d.reports && GoodRun(d.runs[n]))
    && (forall n | 1 <= n <= d.current :: n in d.runs)
    && (forall n | 1 <= n < d.current && n in d.runs :: Terminal(d.runs[n].status))
    && (Orphaned(d) ==>
          d.runs[d.current + 1].status == Running && (d.current >= 1 ==> Terminal(d.runs[d.current].status)))
  }

  ghost predicate Inv(s: Sys) {
    && DiskInv(s.disk)
    && (Working(s, RunAll) ==>
          s.disk.current >= 1 && !Orphaned(s.disk)
          && (s.disk.runs[s.disk.current].status == Running || Terminal(s.disk.runs[s.disk.current].status)))
    && (Working(s, GenerateReport) ==> s.disk.current == 0 && !Orphaned(s.disk))
  }

  // ---- what one step may do to the files ----

  /** Past runs stay as they are; the current number moves by at most one, and only off a terminal run; reports of
      terminal runs are frozen. */
  ghost predicate Kept(before: Disk, after: Disk) {
    && (forall n | n in before.runs && n < before.current :: n in after.runs && after.runs[n] == before.runs[n])
    && (after.current == before.current
        || (after.current == before.current + 1
            && (before.current == 0
                || (before.current in before.runs && Terminal(before.runs[before.current].status)))))
    && (forall n | 1 <= n <= 999 && n in before.runs && Terminal(before.runs[n].status) && n in before.reports ::
          n in after.reports && after.reports[n] == before.reports[n])
  }

  /** The current run may be rewritten by any good run file, and a terminal one before an orphan by a terminal one. */
  lemma RewriteCurrent(d: Disk, after: Disk, run: Run)
    requires DiskInv(d) && d.current >= 1 && GoodRun(run) && (Orphaned(d) ==> Terminal(run.status))
    requires after.current == d.current && after.reports == d.reports && after.runs == d.runs[d.current := run]
    ensures DiskInv(after) && Kept(d, after) && (Orphaned(after) <==> Orphaned(d))
  {
    hide GoodRun;
  }

  lemma SameRuns(d: Disk, after: Disk)
    requires DiskInv(d) && after.current == d.current && after.reports == d.reports && after.runs == d.runs
    ensures DiskInv(after) && Kept(d, after) && (Orphaned(after) <==> Orphaned(d))
  {
    hide GoodRun;
  }

  lemma ResumedGood(run: Run)
    requires GoodRun(run) && !Terminal(run.status)
    ensures GoodRun(Resumed(run))
  {
    CountResumedAppend(run.events, WasResumed);
  }

  lemma EndedGood(run: Run, status: Status, body: string)
    requires GoodRun(run) && (Terminal(status) || status == Paused)
    ensures GoodRun(Ended(run, status, body))
  {
    CountResumedAppend(run.events, WasPaused);
  }

  predicate StartRun(run: Run) {
    run.status == Running && run.resumeCount == 0 && run.events == [] && !run.finished
  }

  /** The report of the next run, and then its file, are written before the manifest names them. */
  lemma ReportCopied(d: Disk, after: Disk, report: string)
    requires DiskInv(d)
    requires after.current == d.current && after.runs == d.runs
    requires after.reports == d.reports[d.current + 1 := report]
    ensures DiskInv(after) && Kept(d, after)
  {
    hide GoodRun;
  }

  lemma RunFileWritten(d: Disk, after: Disk, report: string, run: Run)
    requires DiskInv(d) && (d.current >= 1 ==> Terminal(d.runs[d.current].status)) && StartRun(run)
    requires after.current == d.current && after.runs == d.runs[d.current + 1 := run]
    requires after.reports == d.reports[d.current + 1 := report]
    ensures DiskInv(after) && Kept(d, after)
  {
    assert CountResumed([]) == 0;
    assert GoodRun(run);
    hide GoodRun, CountResumed;
  }

  lemma RunStarted(d: Disk, after: Disk, report: string, run: Run)
    requires DiskInv(d) && (d.current >= 1 ==> Terminal(d.runs[d.current].status)) && StartRun(run)
    requires after.current == d.current + 1 && after.runs == d.runs[d.current + 1 := run]
    requires after.reports == d.reports[d.current + 1 := report]
    ensures DiskInv(after) && Kept(d, after)
  {
    assert CountResumed([]) == 0;
    assert GoodRun(run);
    hide GoodRun, CountResumed;
  }

  lemma StartedKeeps(d: Disk, cut: Cut, casesOf: string -> string)
    requires DiskInv(d)
    ensures DiskInv(Started(d, cut, casesOf)) && Kept(d, Started(d, cut, casesOf))
    ensures cut.Whole? && PlanFor(d) != Refuse ==>
              var after := Started(d, cut, casesOf);
              after.current >= 1 && after.current in after.runs && after.runs[after.current].status == Running
              && !Orphaned(after)
  {
    var after := Started(d, cut, casesOf);
    match PlanFor(d)
    case Refuse => SameRuns(d, d);
    case Resume =>
      if cut.AfterReport? {
        SameRuns(d, d);
      } else {
        var run := d.runs[d.current];
        assert GoodRun(run);
        ResumedGood(run);
        RewriteCurrent(d, after, Resumed(run));
      }
    case StartNew =>
      assert d.current >= 1 ==> d.current in d.runs;
      var report := Source(d).value;
      var run := Run(Running, 0, [], false, casesOf(report));
      hide DiskInv, Kept;
      match cut
      case AfterReport => ReportCopied(d, after, report);
      case AfterRunFile => RunFileWritten(d, after, report, run);
      case Whole => RunStarted(d, after, report, run);
  }

  /** An interrupted run, as recovery leaves it. */
  function Interruption(run: Run): Run {
    run.(status := Interrupted,
         events := if WasInterrupted in run.events then run.events else run.events + [WasInterrupted])
  }

  lemma InterruptionGood(run: Run)
    requires GoodRun(run)
    ensures GoodRun(Interruption(run))
  {
    CountResumedAppend(run.events, WasInterrupted);
    hide CountResumed;
  }

  lemma RecoveredIs(d: Disk)
    ensures Recovered(d) ==
            if d.current >= 1 && d.current in d.runs && d.runs[d.current].status == Running
            then d.(runs := d.runs[d.current := Interruption(d.runs[d.current])], task := Interrupted) else d
  {}

  lemma RecoveredKeeps(d: Disk)
    requires DiskInv(d)
    ensures DiskInv(Recovered(d)) && Kept(d, Recovered(d)) && Recovered(d).current == d.current
  {
    RecoveredIs(d);
    if d.current >= 1 && d.current in d.runs && d.runs[d.current].status == Running {
      var run := d.runs[d.current];
      assert GoodRun(run);
      InterruptionGood(run);
      hide GoodRun, Recovered, Interruption, Kept;
      RewriteCurrent(d, Recovered(d), Interruption(run));
    } else {
      SameRuns(d, d);
    }
  }

  lemma ProgressKeeps(d: Disk, body: string)
    requires DiskInv(d) && d.current >= 1 && !Orphaned(d)
    ensures DiskInv(AfterProgress(d, body)) && Kept(d, AfterProgress(d, body)) && !Orphaned(AfterProgress(d, body))
    ensures var after := AfterProgress(d, body);
            after.current == d.current && after.runs[d.current].status == d.runs[d.current].status
  {
    var run := d.runs[d.current];
    assert GoodRun(run);
    RewriteCurrent(d, AfterProgress(d, body), run.(body := body));
  }

  lemma EndKeeps(d: Disk, status: Status, body: string)
    requires DiskInv(d) && (Orphaned(d) ==> Terminal(status))
    requires Terminal(status) || status == Paused
    ensures var after := AfterEnd(d, status, body);
            && DiskInv(after) && Kept(d, after) && (Orphaned(after) <==> Orphaned(d)) && after.current == d.current
            && (d.current >= 1 ==> after.runs[d.current] == Ended(d.runs[d.current], status, body))
  {
    if d.current >= 1 {
      var run := d.runs[d.current];
      assert GoodRun(run);
      EndedGood(run, status, body);
      RewriteCurrent(d, AfterEnd(d, status, body), Ended(run, status, body));
    } else {
      SameRuns(d, d);
    }
  }

  /** The same for writes that may stop after the manifest. */
  lemma WritesKeep(d: Disk, task: Status, status: Status, body: string, reach: Reach)
    requires DiskInv(d) && (Orphaned(d) ==> Terminal(status))
    requires Terminal(status) || status == Paused || d.current == 0
    ensures var after := AfterWrites(d, task, status, body, reach);
            && DiskInv(after) && Kept(d, after) && (Orphaned(after) <==> Orphaned(d)) && after.current == d.current
            && (d.current >= 1 ==>
                  after.runs[d.current] == if reach.BothFiles? then Ended(d.runs[d.current], status, body)
                                           else d.runs[d.current])
  {
    var noted := d.(task := task);
    SameRuns(d, d);
    SameRuns(d, noted);
    if d.current == 0 {
      assert AfterEnd(noted, status, body) == noted;
    } else {
      EndKeeps(noted, status, body);
      KeptFrom(d, noted, AfterEnd(noted, status, body));
    }
    hide DiskInv, Ended, Kept, AfterEnd;
  }

  // ---- report names and the report writer ----

  lemma {:induction false} DecimalLength(n: nat)
    ensures |Decimal(n)| >= 1 && (n >= 10 ==> |Decimal(n)| >= 2)
    ensures (n >= 100 ==> |Decimal(n)| >= 3) && (n >= 1000 ==> |Decimal(n)| >= 4)
    decreases n
  {
    if n < 10 {
    } else {
      DecimalLength(n / 10);
    }
  }

  lemma DigitReads(n: nat)
    requires n < 10
    ensures '0' <= Digit(n) <= '9' && DigitValue(Digit(n)) == n
  {}

  lemma TwoDigits(n: nat)
    requires 10 <= n < 100
    ensures Decimal(n) == [Digit(n / 10), Digit(n % 10)]
  {
    assert Decimal(n / 10) == [Digit(n / 10)];
    assert Decimal(n) == Decimal(n / 10) + [Digit(n % 10)];
  }

  lemma HundredsOf(n: nat)
    requires 100 <= n <= 999
    ensures Decimal(n) == [Digit(n / 100), Digit(n / 10 % 10), Digit(n % 10)]
  {
    TwoDigits(n / 10);
    assert Decimal(n) == Decimal(n / 10) + [Digit(n % 10)];
    assert n / 10 / 10 == n / 100;
    hide Decimal, Digit;
  }

  lemma PaddedDigits(n: nat)
    requires n <= 999
    ensures Padded(n) == [Digit(n / 100), Digit(n / 10 % 10), Digit(n % 10)]
  {
    assert "0"[0] == '0' == Digit(0);
    if n < 10 {
      assert Decimal(n) == [Digit(n)];
    } else if n < 100 {
      TwoDigits(n);
      hide Decimal;
    } else {
      HundredsOf(n);
      hide Decimal, Digit;
    }
  }

  lemma ThreeDigitsOf(a: nat, b: nat, c: nat)
    requires a < 10 && b < 10 && c < 10
    ensures ThreeDigits([Digit(a), Digit(b), Digit(c)] + REPORT_SUFFIX) == Some(100 * a + 10 * b + c)
  {
    DigitReads(a);
    DigitReads(b);
    DigitReads(c);
    hide Digit, DigitValue;
    var name := [Digit(a), Digit(b), Digit(c)] + REPORT_SUFFIX;
    assert name[3..] == REPORT_SUFFIX;
  }

  lemma LongNameUnread(name: string)
    requires |name| > 3 + |REPORT_SUFFIX|
    ensures ThreeDigits(name) == None
  {}

  lemma PlaceValues(n: nat)
    requires n <= 999
    ensures n / 100 < 10 && n == 100 * (n / 100) + 10 * (n / 10 % 10) + n % 10
  {}

  lemma ShortNameRead(n: nat)
    requires n <= 999
    ensures ThreeDigits(ReportName(n)) == Some(n)
  {
    PaddedDigits(n);
    PlaceValues(n);
    var a, b, c := n / 100, n / 10 % 10, n % 10;
    hide ThreeDigits, Digit, Padded;
    ThreeDigitsOf(a, b, c);
  }

  /** The three-digit pattern reads a report name back exactly for the runs up to 999. */
  lemma ReportNameRead(n: nat)
    ensures ThreeDigits(ReportName(n)) == if n <= 999 then Some(n) else None
  {
    if n <= 999 {
      hide *;
      ShortNameRead(n);
    } else {
      DecimalLength(n);
      hide ThreeDigits, Decimal;
      LongNameUnread(ReportName(n));
    }
  }

  /** The report of a run is frozen exactly when the run is terminal and its number has three digits. */
  lemma FrozenExactly(d: Disk, n: nat)
    requires n >= 1
    ensures IsReportFrozen(d, ReportName(n)) <==> n <= 999 && n in d.runs && Terminal(d.runs[n].status)
  {
    ReportNameRead(n);
    hide ReportName, ThreeDigits;
  }

  /** From run 1000 on, the report writer replaces the report of a terminal run. */
  lemma ReportOfRun1000IsNotFrozen(d: Disk, text: string)
    requires 1000 in d.runs && Terminal(d.runs[1000].status)
    ensures AfterWriteReport(d, 1000, text).reports[1000] == text
  {
    FrozenExactly(d, 1000);
    hide IsReportFrozen, ReportName;
  }

  lemma WriteKeeps(d: Disk, n: nat, text: string)
    requires DiskInv(d)
    ensures DiskInv(AfterWriteReport(d, n, text)) && Kept(d, AfterWriteReport(d, n, text))
  {
    if n >= 1 { FrozenExactly(d, n); }
    hide IsReportFrozen, ReportName, GoodRun;
  }

  // ---- every step, every history ----

  /** A step that leaves the files in order. */
  ghost predicate StepFine(s: Sys, t: Sys) {
    Inv(t) && Kept(s.disk, t.disk)
  }

  lemma IdleStep(s: Sys, t: Sys)
    requires DiskInv(t.disk) && Kept(s.disk, t.disk) && !Busy(t)
    ensures StepFine(s, t)
  {
    hide DiskInv, Kept;
  }

  /** The worker, if any, goes on, and its run is running or terminal. */
  lemma WorkingStep(s: Sys, t: Sys)
    requires Inv(s) && DiskInv(t.disk) && Kept(s.disk, t.disk)
    requires t.memory.Some? && s.memory.Some? && t.memory.value.action == s.memory.value.action
    requires t.memory.value.status == s.memory.value.status
    requires t.disk.current == s.disk.current && (Orphaned(t.disk) <==> Orphaned(s.disk))
    requires s.disk.current >= 1 ==>
               t.disk.runs[s.disk.current].status == s.disk.runs[s.disk.current].status
               || Terminal(t.disk.runs[s.disk.current].status)
    ensures StepFine(s, t)
  {
    hide DiskInv, Kept, Orphaned;
  }

  lemma SameStep(s: Sys)
    requires Inv(s)
    ensures StepFine(s, s)
  {
    SameRuns(s.disk, s.disk);
    hide DiskInv, Kept;
  }

  lemma CrashKeeps(s: Sys, t: Sys)
    requires DiskInv(t.disk) && Kept(s.disk, t.disk)
    ensures StepFine(s, Crashed(t))
  {
    hide DiskInv, Kept, StepFine;
    IdleStep(s, Crashed(t));
  }

  lemma CreateKeeps(s: Sys, valid: bool, cut: Cut, crash: bool, casesOf: string -> string)
    requires Inv(s)
    ensures StepFine(s, AfterCreate(s, valid, cut, crash, casesOf))
  {
    SameStep(s);
    SameRuns(s.disk, s.disk);
    CrashKeeps(s, s);
    StartedKeeps(s.disk, cut, casesOf);
    var started := s.(disk := Started(s.disk, cut, casesOf));
    CrashKeeps(s, started);
    hide DiskInv, Kept, Started, PlanFor;
    if !Busy(s) { IdleStep(s, started); }
  }

  lemma LookKeeps(s: Sys, step: Step, casesOf: string -> string)
    requires Inv(s) && (step.Pause? || step.GetRun?)
    ensures StepFine(s, After(s, step, casesOf))
  {
    SameStep(s);
    SameRuns(s.disk, s.disk);
    RecoveredKeeps(s.disk);
    var t := After(s, step, casesOf);
    hide DiskInv, Kept, Recovered, StepFine;
    if s.memory.None? {
      IdleStep(s, t);
    } else if step.Pause? && Working(s, RunAll) {
      hide After;
      WorkingStep(s, t);
    }
  }

  lemma ProgressedKeeps(s: Sys, body: string, casesOf: string -> string)
    requires Inv(s)
    ensures StepFine(s, After(s, Progressed(body), casesOf))
  {
    SameStep(s);
    if Working(s, RunAll) {
      ProgressKeeps(s.disk, body);
      hide DiskInv, Kept, AfterProgress, StepFine, Orphaned;
      WorkingStep(s, After(s, Progressed(body), casesOf));
    }
  }

  lemma WriteTouches(d: Disk, n: nat, text: string)
    ensures AfterWriteReport(d, n, text).runs == d.runs && AfterWriteReport(d, n, text).current == d.current
  {
    hide IsReportFrozen;
  }

  /** A step that leaves the run files and the memory as they are. */
  lemma QuietStep(s: Sys, t: Sys)
    requires Inv(s) && DiskInv(t.disk) && Kept(s.disk, t.disk) && t.memory == s.memory
    requires t.disk.runs == s.disk.runs && t.disk.current == s.disk.current
    ensures StepFine(s, t)
  {
    hide DiskInv, Kept, StepFine;
    if s.memory.Some? { WorkingStep(s, t); } else { IdleStep(s, t); }
  }

  lemma ReportKeeps(s: Sys, n: nat, text: string, casesOf: string -> string)
    requires Inv(s)
    ensures StepFine(s, After(s, WriteReport(n, text), casesOf))
  {
    WriteKeeps(s.disk, n, text);
    WriteTouches(s.disk, n, text);
    hide DiskInv, Kept, AfterWriteReport, StepFine, Working, Busy;
    QuietStep(s, After(s, WriteReport(n, text), casesOf));
  }

  /** Every step keeps the files in order: past runs and frozen reports untouched, one number at a time. */
  lemma StepKeeps(s: Sys, step: Step, casesOf: string -> string)
    requires Inv(s)
    ensures Inv(After(s, step, casesOf)) && Kept(s.disk, After(s, step, casesOf).disk)
  {
    hide Inv, DiskInv, Kept, AfterCreate, AfterPause, AfterProgress, AfterFinish, AfterGeneration, AfterRaise,
         AfterLate, AfterWriteReport, Recovered, Busy, Working;
    match step
    case Create(valid, cut, crash) => CreateKeeps(s, valid, cut, crash, casesOf);
    case Pause => LookKeeps(s, step, casesOf);
    case GetRun => LookKeeps(s, step, casesOf);
    case ListRuns(crash) => ListKeeps(s, crash, casesOf);
    case Progressed(body) => ProgressedKeeps(s, body, casesOf);
    case Finish(outcome, body, crashBetween) => FinishKeeps(s, outcome, body, crashBetween);
    case FinishGeneration(outcome, report) => GenerationKeeps(s, outcome, report);
    case FinishFails(outcome, body, report, reach) => RaiseKeeps(s, outcome, body, report, reach);
    case LateFailure(i, error, reach) => LateKeeps(s, i, error, reach);
    case Crash => CrashStep(s);
    case WriteReport(n, text) => ReportKeeps(s, n, text, casesOf);
  }

  lemma CrashStep(s: Sys)
    requires Inv(s)
    ensures StepFine(s, Crashed(s))
  {
    SameRuns(s.disk, s.disk);
    CrashKeeps(s, s);
  }

  lemma SameAfter(d: Disk, x: Disk, y: Disk)
    requires DiskInv(x) && Kept(d, x) && x.current == y.current && x.runs == y.runs && x.reports == y.reports
    ensures DiskInv(y) && Kept(d, y)
  {
    hide GoodRun;
  }

  lemma ListKeeps(s: Sys, crash: bool, casesOf: string -> string)
    requires Inv(s)
    ensures StepFine(s, After(s, ListRuns(crash), casesOf))
  {
    SameStep(s);
    RecoveredKeeps(s.disk);
    SameRuns(s.disk, s.disk);
    SameAfter(s.disk, Recovered(s.disk), Recovered(s.disk).(task := s.disk.task));
    var looked := if Busy(s) then s else s.(disk := Recovered(s.disk));
    hide Recovered, Kept, DiskInv, StepFine;
    CrashKeeps(s, looked.(disk := looked.disk.(task := s.disk.task)));
    if !Busy(s) { IdleStep(s, looked); }
  }

  lemma FinishKeeps(s: Sys, outcome: Outcome, body: string, crashBetween: bool)
    requires Inv(s)
    ensures StepFine(s, AfterFinish(s, outcome, body, crashBetween))
  {
    SameStep(s);
    if Working(s, RunAll) {
      var status := ArchiveStatus(RunAll, outcome);
      var noted := s.disk.(task := status);
      SameRuns(s.disk, noted);
      EndKeeps(noted, status, body);
      KeptFrom(s.disk, noted, AfterEnd(noted, status, body));
      hide DiskInv, Kept, AfterEnd, StepFine;
      CrashKeeps(s, s.(disk := noted));
      if !crashBetween { IdleStep(s, AfterFinish(s, outcome, body, crashBetween)); }
    }
  }

  /** The manifest's status and the first report are no matter of what is kept. */
  lemma KeptFrom(d: Disk, noted: Disk, after: Disk)
    requires Kept(noted, after) && noted.current == d.current && noted.runs == d.runs && noted.reports == d.reports
    ensures Kept(d, after)
  {}

  lemma RaiseKeeps(s: Sys, outcome: Outcome, body: string, report: Option<string>, reach: Reach)
    requires Inv(s)
    ensures StepFine(s, AfterRaise(s, outcome, body, report, reach))
  {
    SameStep(s);
    if Busy(s) {
      var action := s.memory.value.action;
      var reported := if action.GenerateReport? then s.disk.(initial := report) else s.disk;
      var status := ArchiveStatus(action, outcome);
      assert Working(s, action);
      SameRuns(s.disk, reported);
      WritesKeep(reported, status, status, body, reach);
      KeptFrom(s.disk, reported, AfterWrites(reported, status, status, body, reach));
      hide DiskInv, Kept, AfterWrites, StepFine, Orphaned;
      IdleStep(s, AfterRaise(s, outcome, body, report, reach));
    }
  }

  lemma LateKeeps(s: Sys, i: nat, error: string, reach: Reach)
    requires Inv(s)
    ensures StepFine(s, AfterLate(s, i, error, reach))
  {
    SameStep(s);
    if i < |s.late| {
      WritesKeep(s.disk, ArchiveStatus(s.late[i].action, FailedOutcome), Failed, error, reach);
      hide DiskInv, Kept, AfterWrites, StepFine, Orphaned;
      var t := AfterLate(s, i, error, reach);
      if s.memory.None? || s.late[i].own { IdleStep(s, t); } else { WorkingStep(s, t); }
    }
  }

  lemma GenerationKeeps(s: Sys, outcome: Outcome, report: Option<string>)
    requires Inv(s)
    ensures StepFine(s, AfterGeneration(s, outcome, report))
  {
    SameStep(s);
    if Working(s, GenerateReport) {
      var t := AfterGeneration(s, outcome, report);
      SameRuns(s.disk, t.disk);
      hide DiskInv, Kept, StepFine;
      IdleStep(s, t);
    }
  }

  /** In every history of a task, runs below the current number are terminal, terminal runs are finished, and the resume
      count is the number of resumed events. */
  lemma {:induction false} EveryHistoryInOrder(steps: seq<Step>, casesOf: string -> string)
    ensures Inv(AfterAll(INITIAL, steps, casesOf))
    decreases |steps|
  {
    if steps == [] {
    } else {
      hide Inv, After;
      var n := |steps| - 1;
      EveryHistoryInOrder(steps[..n], casesOf);
      StepKeeps(AfterAll(INITIAL, steps[..n], casesOf), steps[n], casesOf);
    }
  }

  // ---- terminal runs ----

  lemma PastKept(before: Disk, after: Disk, n: nat)
    requires DiskInv(before) && Kept(before, after) && 1 <= n < before.current
    ensures n in before.runs && n in after.runs && after.runs[n] == before.runs[n] && n in before.reports
    ensures Terminal(before.runs[n].status) && n < after.current
    ensures n <= 999 ==> n in after.reports && after.reports[n] == before.reports[n]
  {
    hide GoodRun;
  }

  /** Run n has the same file, and up to run 999 the same report, in both. */
  ghost predicate SameRun(before: Disk, last: Disk, n: nat) {
    && n in before.runs && n in last.runs && last.runs[n] == before.runs[n]
    && (n <= 999 ==> n in before.reports && n in last.reports && last.reports[n] == before.reports[n])
  }

  /** The file of a run below the current number never changes again, nor, up to run 999, its report: not even the
      failure branch of its own worker touches it any more. */
  lemma {:induction false} PastForever(s: Sys, steps: seq<Step>, casesOf: string -> string, n: nat)
    requires Inv(s) && 1 <= n < s.disk.current
    ensures var last := AfterAll(s, steps, casesOf);
            Inv(last) && n < last.disk.current && SameRun(s.disk, last.disk, n)
    decreases |steps|
  {
    hide After, Kept, DiskInv;
    if steps == [] {
      assert Kept(s.disk, s.disk) by { SameRuns(s.disk, s.disk); }
      PastKept(s.disk, s.disk, n);
    } else {
      var k := |steps| - 1;
      PastForever(s, steps[..k], casesOf, n);
      var before := AfterAll(s, steps[..k], casesOf);
      StepKeeps(before, steps[k], casesOf);
      PastKept(before.disk, After(before, steps[k], casesOf).disk, n);
    }
  }

  /** A terminal run that no worker is at work on. */
  ghost predicate AtRest(s: Sys, n: nat) {
    n in s.disk.runs && 1 <= n <= s.disk.current && Terminal(s.disk.runs[n].status)
    && (n == s.disk.current ==> !Working(s, RunAll))
  }

  /** The failure branch of some worker reaches the file of run n. */
  predicate Strikes(s: Sys, step: Step, n: nat) {
    step.LateFailure? && step.index < |s.late| && step.lateReach.BothFiles? && n == s.disk.current
  }

  lemma NotBusy(s: Sys)
    requires Inv(s) && s.disk.current >= 1 && !Working(s, RunAll)
    ensures !Busy(s)
  {
    hide DiskInv;
  }

  lemma RestCreate(s: Sys, step: Step, casesOf: string -> string)
    requires Inv(s) && s.disk.current >= 1 && AtRest(s, s.disk.current) && step.Create?
    ensures var c, after := s.disk.current, After(s, step, casesOf);
            AtRest(after, c) && after.disk.runs[c] == s.disk.runs[c]
  {
    NotBusy(s);
    hide GoodRun;
  }

  lemma RestOther(s: Sys, step: Step, casesOf: string -> string)
    requires Inv(s) && s.disk.current >= 1 && AtRest(s, s.disk.current) && !step.Create? && !step.LateFailure?
    ensures var c, after := s.disk.current, After(s, step, casesOf);
            AtRest(after, c) && after.disk.runs[c] == s.disk.runs[c]
  {
    NotBusy(s);
    assert Recovered(s.disk) == s.disk;
    hide GoodRun, IsReportFrozen;
  }

  lemma RestLate(s: Sys, step: Step, casesOf: string -> string)
    requires Inv(s) && s.disk.current >= 1 && AtRest(s, s.disk.current) && step.LateFailure?
    ensures var c, after := s.disk.current, After(s, step, casesOf);
            AtRest(after, c)
            && after.disk.runs[c] == if Strikes(s, step, c) then Ended(s.disk.runs[c], Failed, step.error)
                                     else s.disk.runs[c]
  {
    NotBusy(s);
    hide GoodRun;
  }

  /** One step leaves a terminal run terminal and at rest, and its file as it is unless a failure branch strikes it. */
  lemma RestStep(s: Sys, step: Step, casesOf: string -> string, n: nat)
    requires Inv(s) && AtRest(s, n)
    ensures var after := After(s, step, casesOf);
            && Inv(after) && AtRest(after, n)
            && after.disk.runs[n] == (if Strikes(s, step, n) then Ended(s.disk.runs[n], Failed, step.error)
                                      else s.disk.runs[n])
            && (n <= 999 ==> n in s.disk.reports && n in after.disk.reports
                             && after.disk.reports[n] == s.disk.reports[n])
  {
    StepKeeps(s, step, casesOf);
    var after := After(s, step, casesOf);
    KeptReports(s.disk, after.disk, n);
    if n < s.disk.current {
      PastKept(s.disk, after.disk, n);
    } else if step.Create? {
      RestCreate(s, step, casesOf);
    } else if step.LateFailure? {
      RestLate(s, step, casesOf);
    } else {
      RestOther(s, step, casesOf);
    }
    hide After, Kept, DiskInv, Ended;
  }

  lemma KeptReports(before: Disk, after: Disk, n: nat)
    requires DiskInv(before) && Kept(before, after) && n in before.runs && Terminal(before.runs[n].status)
    ensures n in before.reports && (n <= 999 ==> n in after.reports && after.reports[n] == before.reports[n])
  {
    hide GoodRun;
  }

  /** A terminal run at rest stays so in every history, and up to run 999 its report never changes. */
  lemma {:induction false} TerminalForever(s: Sys, steps: seq<Step>, casesOf: string -> string, n: nat)
    requires Inv(s) && AtRest(s, n)
    ensures var last := AfterAll(s, steps, casesOf);
            && Inv(last) && AtRest(last, n)
            && (n <= 999 ==> n in s.disk.reports && n in last.disk.reports
                             && last.disk.reports[n] == s.disk.reports[n])
    decreases |steps|
  {
    hide After, Inv, AtRest;
    if steps == [] {
      RestHere(s, n);
    } else {
      var k := |steps| - 1;
      TerminalForever(s, steps[..k], casesOf, n);
      RestStep(AfterAll(s, steps[..k], casesOf), steps[k], casesOf, n);
    }
  }

  lemma RestHere(s: Sys, n: nat)
    requires Inv(s) && AtRest(s, n)
    ensures n in s.disk.reports
  {
    hide GoodRun;
  }

  /** Whether a worker's last write says something else than the file of run n. */
  predicate SaysElse(d: Disk, n: nat, status: Status, body: string)
    requires n in d.runs
  {
    d.runs[n].status != status || d.runs[n].body != body
  }

  /** A worker that is still at work on terminal run n, ended under it by a failure branch, rewrites its file. */
  predicate Overwrites(s: Sys, step: Step, n: nat) {
    && Working(s, RunAll) && n == s.disk.current && n in s.disk.runs
    && match step
       case Progressed(body) => s.disk.runs[n].body != body
       case Finish(outcome, body, crashBetween) =>
         !crashBetween && SaysElse(s.disk, n, ArchiveStatus(RunAll, outcome), body)
       case FinishFails(outcome, body, _, reach) =>
         reach.BothFiles? && SaysElse(s.disk, n, ArchiveStatus(RunAll, outcome), body)
       case _ => false
  }

  /** A step changes the file of terminal run n: a failure branch strikes it, or its worker overwrites it. */
  predicate Changes(s: Sys, step: Step, n: nat) {
    (n in s.disk.runs && Strikes(s, step, n) && SaysElse(s.disk, n, Failed, step.error)) || Overwrites(s, step, n)
  }

  /** Throughout the history the file of run n is what it was. */
  ghost predicate Survives(s: Sys, steps: seq<Step>, casesOf: string -> string, n: nat) {
    forall m: nat | m <= |steps| :: HasRun(AfterAll(s, steps[..m], casesOf).disk, s.disk, n)
  }

  predicate HasRun(d: Disk, first: Disk, n: nat) {
    n in d.runs && n in first.runs && d.runs[n] == first.runs[n]
  }

  ghost predicate NeverChanged(s: Sys, steps: seq<Step>, casesOf: string -> string, n: nat) {
    forall m: nat | m < |steps| :: !Changes(AfterAll(s, steps[..m], casesOf), steps[m], n)
  }

  lemma SurvivesNext(s: Sys, steps: seq<Step>, casesOf: string -> string, n: nat)
    requires steps != []
    ensures var before := steps[..|steps| - 1];
            && (Survives(s, before, casesOf, n) ==> HasRun(AfterAll(s, before, casesOf).disk, s.disk, n))
            && (Survives(s, steps, casesOf, n) <==>
                Survives(s, before, casesOf, n) && HasRun(AfterAll(s, steps, casesOf).disk, s.disk, n))
  {
    hide AfterAll, HasRun;
    var last := |steps| - 1;
    assert steps[..|steps|] == steps && steps[..last][..last] == steps[..last];
    assert forall m: nat | m <= last :: steps[..last][..m] == steps[..m];
  }

  lemma ChangesNext(s: Sys, steps: seq<Step>, casesOf: string -> string, n: nat)
    requires steps != []
    ensures var last := |steps| - 1;
            NeverChanged(s, steps, casesOf, n) <==>
            NeverChanged(s, steps[..last], casesOf, n)
            && !Changes(AfterAll(s, steps[..last], casesOf), steps[last], n)
  {
    hide AfterAll, Changes;
    var last := |steps| - 1;
    assert forall m: nat | m < last :: steps[..last][..m] == steps[..m] && steps[..last][m] == steps[m];
  }

  lemma AfterAllLast(s: Sys, steps: seq<Step>, casesOf: string -> string)
    requires steps != []
    ensures AfterAll(s, steps, casesOf) ==
            After(AfterAll(s, steps[..|steps| - 1], casesOf), steps[|steps| - 1], casesOf)
  {}

  predicate TerminalRun(d: Disk, n: nat) {
    n in d.runs && Terminal(d.runs[n].status)
  }

  lemma TerminalIsGood(s: Sys, n: nat)
    requires Inv(s) && TerminalRun(s.disk, n)
    ensures 1 <= n <= s.disk.current && s.disk.runs[n].finished
  {
    assert GoodRun(s.disk.runs[n]);
    hide GoodRun;
  }

  lemma EndedSame(run: Run, status: Status, body: string)
    requires run.finished && Terminal(run.status)
    ensures Ended(run, status, body) == run <==> run.status == status && run.body == body
  {}

  lemma ChangedAtRest(s: Sys, step: Step, casesOf: string -> string, n: nat)
    requires Inv(s) && AtRest(s, n)
    ensures HasRun(After(s, step, casesOf).disk, s.disk, n) <==> !Changes(s, step, n)
  {
    RestStep(s, step, casesOf, n);
    TerminalIsGood(s, n);
    EndedSame(s.disk.runs[n], Failed, if step.LateFailure? then step.error else "");
    hide After, DiskInv, Ended;
  }

  /** A step while a worker is at work on terminal run n. */
  lemma ChangedAtWork(s: Sys, step: Step, casesOf: string -> string, n: nat)
    requires Inv(s) && TerminalRun(s.disk, n) && Working(s, RunAll) && n == s.disk.current
    ensures HasRun(After(s, step, casesOf).disk, s.disk, n) <==> !Changes(s, step, n)
  {
    TerminalIsGood(s, n);
    var run := s.disk.runs[n];
    match step
    case Finish(outcome, body, crashBetween) => EndedSame(run, ArchiveStatus(RunAll, outcome), body); hide DiskInv;
    case FinishFails(outcome, body, _, _) => EndedSame(run, ArchiveStatus(RunAll, outcome), body); hide DiskInv;
    case LateFailure(_, error, _) => EndedSame(run, Failed, error); hide DiskInv;
    case WriteReport(_, _) => hide DiskInv, IsReportFrozen;
    case _ => RecoveredIs(s.disk); hide DiskInv, Recovered;
  }

  /** One step, from a state in which the file is what it was. */
  lemma ChangedExactly(s: Sys, first: Sys, step: Step, casesOf: string -> string, n: nat)
    requires Inv(s) && TerminalRun(s.disk, n) && HasRun(s.disk, first.disk, n)
    ensures HasRun(After(s, step, casesOf).disk, first.disk, n) <==> !Changes(s, step, n)
  {
    TerminalIsGood(s, n);
    if n == s.disk.current && Working(s, RunAll) {
      ChangedAtWork(s, step, casesOf, n);
    } else {
      ChangedAtRest(s, step, casesOf, n);
    }
    hide After, Inv, Changes;
  }

  lemma SurvivesNothing(s: Sys, casesOf: string -> string, n: nat)
    requires n in s.disk.runs
    ensures Survives(s, [], casesOf, n) && NeverChanged(s, [], casesOf, n)
  {
    var none: seq<Step> := [];
    assert none[..0] == [];
  }

  lemma SameTerminal(d: Disk, first: Disk, n: nat)
    requires HasRun(d, first, n) && TerminalRun(first, n)
    ensures TerminalRun(d, n)
  {}

  /**
   The file of a terminal run survives a history unchanged if and only if, while that run is current, no failure branch
   of a worker and no worker still at work on it gets to write something else than the file says.
   */
  lemma {:induction false} TerminalSurvivesExactly(s: Sys, steps: seq<Step>, casesOf: string -> string, n: nat)
    requires Inv(s) && TerminalRun(s.disk, n)
    ensures Survives(s, steps, casesOf, n) <==> NeverChanged(s, steps, casesOf, n)
    decreases |steps|
  {
    hide *;
    if steps == [] {
      assert n in s.disk.runs by { TerminalIsThere(s.disk, n); }
      SurvivesNothing(s, casesOf, n);
    } else {
      var k := |steps| - 1;
      TerminalSurvivesExactly(s, steps[..k], casesOf, n);
      NumberNeverFalls(s, steps[..k], casesOf);
      SurvivesNext(s, steps, casesOf, n);
      ChangesNext(s, steps, casesOf, n);
      AfterAllLast(s, steps, casesOf);
      var before := AfterAll(s, steps[..k], casesOf);
      if HasRun(before.disk, s.disk, n) {
        SameTerminal(before.disk, s.disk, n);
        ChangedExactly(before, s, steps[k], casesOf, n);
      }
    }
  }

  lemma TerminalIsThere(d: Disk, n: nat)
    requires TerminalRun(d, n)
    ensures n in d.runs
  {}

  /** The number only grows by one, off a terminal run, so it never falls in any history. */
  lemma {:induction false} NumberNeverFalls(s: Sys, steps: seq<Step>, casesOf: string -> string)
    requires Inv(s)
    ensures Inv(AfterAll(s, steps, casesOf)) && s.disk.current <= AfterAll(s, steps, casesOf).disk.current
    decreases |steps|
  {
    if steps == [] {
    } else {
      hide After, Inv;
      var k := |steps| - 1;
      NumberNeverFalls(s, steps[..k], casesOf);
      StepKeeps(AfterAll(s, steps[..k], casesOf), steps[k], casesOf);
    }
  }

  // ---- recovery ----

  ghost predicate NoneRunning(d: Disk) {
    forall n | n in d.runs :: d.runs[n].status != Running
  }

  /**
   When no worker is busy, listing the runs leaves none up to the current number marked running, and none at all
   exactly when no run file lies beyond the current number.
   */
  lemma RecoveryExactly(s: Sys, casesOf: string -> string)
    requires Inv(s) && !Busy(s)
    ensures var d := After(s, ListRuns(false), casesOf).disk;
            && (forall n | 1 <= n <= d.current && n in d.runs :: d.runs[n].status != Running)
            && (NoneRunning(d) <==> !Orphaned(s.disk))
  {
    RecoveredRuns(s.disk);
    hide Recovered, DiskInv;
  }

  lemma RecoveredRuns(d: Disk)
    requires DiskInv(d)
    ensures forall n | 1 <= n <= d.current && n in Recovered(d).runs :: Recovered(d).runs[n].status != Running
    ensures NoneRunning(Recovered(d)) <==> !Orphaned(d)
    ensures Recovered(d).current == d.current
  {
    hide GoodRun;
    var after := Recovered(d);
    assert after.runs.Keys == d.runs.Keys;
    assert forall n | n in d.runs && n != d.current :: after.runs[n] == d.runs[n];
    if Orphaned(d) {
      assert after.runs[d.current + 1].status == Running;
    }
  }

  /** A task whose report was generated. */
  function Reported(report: string): Sys {
    Sys(Disk(Ready, 0, map[], map[], Some(report)), Some(Record(GenerateReport, RecordSuccess, false)), [])
  }

  /** A crash while a first run is being created, before the manifest names it, leaves it marked running for good:
      listing the runs after the restart does not see it. */
  lemma CrashedCreationStaysRunning(report: string, casesOf: string -> string)
    ensures var steps := [FinishGeneration(Success, Some(report)), Create(true, AfterRunFile, true), ListRuns(false)];
            var d := AfterAll(INITIAL, steps, casesOf).disk;
            1 in d.runs && d.runs[1].status == Running && d.current == 0
  {
    var first, second, third :=
      FinishGeneration(Success, Some(report)), Create(true, AfterRunFile, true), ListRuns(false);
    var steps := [first, second, third];
    assert steps[..2] == [first, second] && [first, second][..1] == [first] && [first][..0] == [];
    assert AfterAll(INITIAL, [], casesOf) == INITIAL;
    var ready := After(INITIAL, first, casesOf);
    assert AfterAll(INITIAL, [first], casesOf) == ready;
    assert ready == Reported(report);
    var torn := After(ready, second, casesOf);
    assert AfterAll(INITIAL, [first, second], casesOf) == torn;
    assert torn.memory == None && torn.disk.current == 0 && torn.disk.runs.Keys == {1};
    assert AfterAll(INITIAL, steps, casesOf) == After(torn, third, casesOf);
  }

  lemma OrphanPlan(d: Disk)
    requires DiskInv(d) && Orphaned(d) && PlanFor(d) != Refuse
    ensures PlanFor(d) == StartNew
  {
    assert d.current >= 1 ==> d.current in d.runs;
    hide GoodRun;
  }

  lemma StartedFresh(d: Disk, casesOf: string -> string)
    requires DiskInv(d) && PlanFor(d) == StartNew
    ensures var after := Started(d, Whole, casesOf);
            after.current == d.current + 1 && after.current in after.runs && StartRun(after.runs[after.current])
            && !Orphaned(after)
  {
    hide GoodRun, PlanFor;
    assert d.current + 2 !in d.runs;
  }

  /** The next creation that goes through replaces such an orphan by a fresh run under the same number. */
  lemma NextCreationReplacesOrphan(s: Sys, casesOf: string -> string)
    requires Inv(s) && !Busy(s) && Orphaned(s.disk)
    requires PlanFor(s.disk) != Refuse
    ensures var after := After(s, Create(true, Whole, false), casesOf).disk;
            && after.current == s.disk.current + 1
            && after.current in after.runs && StartRun(after.runs[after.current])
            && !Orphaned(after)
  {
    hide DiskInv, Orphaned, PlanFor, Started, StartRun;
    OrphanPlan(s.disk);
    StartedFresh(s.disk, casesOf);
  }

  // ---- from run to run ----

  lemma CreateMoves(s: Sys, valid: bool, cut: Cut, crash: bool, casesOf: string -> string)
    requires AfterCreate(s, valid, cut, crash, casesOf).disk.current != s.disk.current
    ensures PlanFor(s.disk) == StartNew && AfterCreate(s, valid, cut, crash, casesOf).disk ==
                                           Started(s.disk, Whole, casesOf)
  {
    hide Source, CurrentRun;
  }

  /** Only a creation that starts a run, and gets to the manifest, moves the current number. */
  lemma NumberMoves(s: Sys, step: Step, casesOf: string -> string)
    requires After(s, step, casesOf).disk.current != s.disk.current
    ensures PlanFor(s.disk) == StartNew && After(s, step, casesOf).disk == Started(s.disk, Whole, casesOf)
  {
    if step.Create? { CreateMoves(s, step.valid, step.cut, step.crash, casesOf); }
    RecoveredStays(s.disk);
    hide AfterCreate, Started, PlanFor, Recovered, IsReportFrozen;
  }

  lemma RecoveredStays(d: Disk)
    ensures Recovered(d).current == d.current
  {}

  lemma {:induction false} AfterAllInTurn(s: Sys, a: seq<Step>, b: seq<Step>, casesOf: string -> string)
    ensures AfterAll(s, a + b, casesOf) == AfterAll(AfterAll(s, a, casesOf), b, casesOf)
    decreases |b|
  {
    hide After;
    if b == [] {
      assert a + b == a;
    } else {
      AfterAllInTurn(s, a, b[..|b| - 1], casesOf);
      assert (a + b)[..|a + b| - 1] == a + b[..|b| - 1];
    }
  }

  /** The next run starts from nothing but the report its predecessor, if there is one, ended with. */
  ghost predicate StartsFrom(before: Disk, after: Disk, casesOf: string -> string) {
    var n := before.current;
    && after.current == n + 1 && n + 1 in after.runs && n + 1 in after.reports
    && Source(before) == Some(after.reports[n + 1])
    && after.runs[n + 1] == Run(Running, 0, [], false, casesOf(after.reports[n + 1]))
    && (n >= 1 ==> n in before.runs && Terminal(before.runs[n].status) && n in before.reports
                   && after.reports[n + 1] == before.reports[n] && SameRun(before, after, n))
  }

  lemma StartsFresh(s: Sys, casesOf: string -> string)
    requires Inv(s) && PlanFor(s.disk) == StartNew
    ensures StartsFrom(s.disk, Started(s.disk, Whole, casesOf), casesOf)
  {
    assert s.disk.current >= 1 ==> s.disk.current in s.disk.runs;
    hide GoodRun;
  }

  lemma StepAt(s: Sys, steps: seq<Step>, i: nat, casesOf: string -> string)
    requires i < |steps|
    ensures AfterAll(s, steps[..i + 1], casesOf) == After(AfterAll(s, steps[..i], casesOf), steps[i], casesOf)
  {
    assert steps[..i + 1][..i] == steps[..i] && steps[..i + 1][i] == steps[i];
    hide After;
  }

  lemma PastLasts(steps: seq<Step>, i: nat, casesOf: string -> string, n: nat)
    requires i <= |steps| && 1 <= n < AfterAll(INITIAL, steps[..i], casesOf).disk.current
    ensures SameRun(AfterAll(INITIAL, steps[..i], casesOf).disk, AfterAll(INITIAL, steps, casesOf).disk, n)
  {
    hide AfterAll, Inv;
    EveryHistoryInOrder(steps[..i], casesOf);
    PastForever(AfterAll(INITIAL, steps[..i], casesOf), steps[i..], casesOf, n);
    AfterAllInTurn(INITIAL, steps[..i], steps[i..], casesOf);
    assert steps[..i] + steps[i..] == steps;
  }

  lemma SameRunTwice(before: Disk, after: Disk, last: Disk, n: nat)
    requires SameRun(before, after, n) && SameRun(after, last, n)
    ensures SameRun(before, last, n)
  {}

  /**
   The chain of runs, in every history of a task: whenever the current number moves, it moves by one to a run that
   starts from nothing but its predecessor's report as it stands at that moment, and that report, up to run 999, and
   the predecessor's file are the same at the end of the history.
   */
  lemma RunsChain(steps: seq<Step>, i: nat, casesOf: string -> string)
    requires i < |steps|
    requires AfterAll(INITIAL, steps[..i + 1], casesOf).disk.current !=
             AfterAll(INITIAL, steps[..i], casesOf).disk.current
    ensures var before := AfterAll(INITIAL, steps[..i], casesOf).disk;
            && StartsFrom(before, AfterAll(INITIAL, steps[..i + 1], casesOf).disk, casesOf)
            && (before.current >= 1 ==> SameRun(before, AfterAll(INITIAL, steps, casesOf).disk, before.current))
  {
    hide *;
    var s := AfterAll(INITIAL, steps[..i], casesOf);
    EveryHistoryInOrder(steps[..i], casesOf);
    StepAt(INITIAL, steps, i, casesOf);
    NumberMoves(s, steps[i], casesOf);
    StartsFresh(s, casesOf);
    if s.disk.current >= 1 {
      var after := AfterAll(INITIAL, steps[..i + 1], casesOf).disk;
      MovedBeyond(s.disk, after, casesOf);
      PastLasts(steps, i + 1, casesOf, s.disk.current);
      SameRunTwice(s.disk, after, AfterAll(INITIAL, steps, casesOf).disk, s.disk.current);
    }
  }

  lemma MovedBeyond(before: Disk, after: Disk, casesOf: string -> string)
    requires StartsFrom(before, after, casesOf) && before.current >= 1
    ensures before.current < after.current && SameRun(before, after, before.current)
  {}

  /** A resumption goes on with the same cases under the same number, one more resume, one more resumed event. */
  lemma ResumeKeepsRun(s: Sys, casesOf: string -> string)
    requires Inv(s) && PlanFor(s.disk) == Resume
    ensures var run, after := s.disk.runs[s.disk.current], Started(s.disk, Whole, casesOf);
            && after.current == s.disk.current && after.reports == s.disk.reports
            && after.runs == s.disk.runs[s.disk.current := Resumed(run)]
            && Resumed(run).body == run.body && Resumed(run).resumeCount == CountResumed(run.events + [WasResumed])
  {
    assert GoodRun(s.disk.runs[s.disk.current]);
    CountResumedAppend(s.disk.runs[s.disk.current].events, WasResumed);
  }

  // ---- failure branches ----

  lemma AfterAllNext(s: Sys, steps: seq<Step>, step: Step, casesOf: string -> string)
    ensures AfterAll(s, steps + [step], casesOf) == After(AfterAll(s, steps, casesOf), step, casesOf)
  {
    assert (steps + [step])[..|steps|] == steps;
    hide After;
  }

  /** A first run completes, its file is written, and the write of its summary raises. */
  function SummaryRaises(report: string): seq<Step> {
    [FinishGeneration(Success, Some(report))] + [Create(true, Whole, false)]
    + [FinishFails(Success, "done", None, BothFiles)]
  }

  /** The task then: run 1 completed, and its worker on the way to its failure branch. */
  function Raised(report: string, casesOf: string -> string): Sys {
    Sys(Disk(Completed, 1, map[1 := Run(Completed, 0, [], true, "done")], map[1 := report], Some(report)),
        Some(Record(RunAll, RecordSuccess, false)), [Late(RunAll, true)])
  }

  lemma SummaryRaisesThere(report: string, casesOf: string -> string)
    ensures AfterAll(INITIAL, SummaryRaises(report), casesOf) == Raised(report, casesOf)
  {
    var first, second := FinishGeneration(Success, Some(report)), Create(true, Whole, false);
    var third := FinishFails(Success, "done", None, BothFiles);
    assert [] + [first] == [first] && AfterAll(INITIAL, [], casesOf) == INITIAL;
    AfterAllNext(INITIAL, [], first, casesOf);
    AfterAllNext(INITIAL, [first], second, casesOf);
    AfterAllNext(INITIAL, [first] + [second], third, casesOf);
    hide AfterAll;
    assert After(INITIAL, first, casesOf) == Reported(report);
    var running := After(Reported(report), second, casesOf);
    assert running.disk.runs == map[1 := Run(Running, 0, [], false, casesOf(report))];
    assert running.disk == Disk(Running, 1, running.disk.runs, map[1 := report], Some(report));
    assert Disowned([]) == [] && running.late == [] && Working(running, RunAll);
    var raised := After(running, third, casesOf);
    assert raised.disk.runs == map[1 := Run(Completed, 0, [], true, "done")];
    assert [] + [Late(RunAll, true)] == [Late(RunAll, true)];
  }

  /** Its failure branch marks the completed run failed. */
  lemma LateFailureRewritesFinished(report: string, error: string, casesOf: string -> string)
    ensures var before := AfterAll(INITIAL, SummaryRaises(report), casesOf);
            var after := After(before, LateFailure(0, error, BothFiles), casesOf);
            && AtRest(before, 1) && before.disk.runs[1].status == Completed
            && after.disk.runs[1] == Run(Failed, 0, [], true, error)
  {
    SummaryRaisesThere(report, casesOf);
    hide AfterAll;
  }

  /** The files with run 1 completed and run 2 as given. */
  function TwoRuns(report: string, task: Status, second: Run): Disk {
    Disk(task, 2, map[1 := Run(Completed, 0, [], true, "done"), 2 := second], map[1 := report, 2 := report],
         Some(report))
  }

  /** A worker is at work on run 2 while the one of run 1 goes to its failure branch. */
  function Overtaken(report: string, casesOf: string -> string): Sys {
    Sys(TwoRuns(report, Running, Run(Running, 0, [], false, casesOf(report))),
        Some(Record(RunAll, RecordRunning, false)), [Late(RunAll, false)])
  }

  lemma OvertakenThere(report: string, casesOf: string -> string)
    ensures After(Raised(report, casesOf), Create(true, Whole, false), casesOf) == Overtaken(report, casesOf)
  {
    var created := After(Raised(report, casesOf), Create(true, Whole, false), casesOf);
    assert created.late == [Late(RunAll, false)];
    assert created.disk.runs == Overtaken(report, casesOf).disk.runs;
    assert created.disk.reports == Overtaken(report, casesOf).disk.reports;
  }

  lemma OvertakenStruck(report: string, error: string, casesOf: string -> string)
    ensures var failed := TwoRuns(report, Failed, Run(Failed, 0, [], true, error));
            After(Overtaken(report, casesOf), LateFailure(0, error, BothFiles), casesOf) ==
            Sys(failed, Some(Record(RunAll, RecordRunning, false)), [])
  {
    var after := After(Overtaken(report, casesOf), LateFailure(0, error, BothFiles), casesOf);
    assert after.disk.runs == TwoRuns(report, Failed, Run(Failed, 0, [], true, error)).runs;
  }

  /** A new run created before the failure branch gets the lock: that one is marked failed while its worker is at work,
      and a pause then leaves it paused and finished at once. */
  lemma LateFailureHitsNextRun(report: string, error: string, body: string, casesOf: string -> string)
    ensures var before := AfterAll(INITIAL, SummaryRaises(report), casesOf);
            var created := After(before, Create(true, Whole, false), casesOf);
            var struck := After(created, LateFailure(0, error, BothFiles), casesOf);
            var paused := After(struck, Finish(PausedOutcome, body, false), casesOf);
            && HasStatus(created.disk, 2, Running) && created.disk.current == 2
            && HasStatus(struck.disk, 2, Failed) && Working(struck, RunAll)
            && HasStatus(paused.disk, 2, Paused) && paused.disk.runs[2].finished
            && HasRun(paused.disk, before.disk, 1)
  {
    hide AfterAll;
    SummaryRaisesThere(report, casesOf);
    OvertakenThere(report, casesOf);
    OvertakenStruck(report, error, casesOf);
    hide AfterCreate, AfterLate;
  }

  predicate HasStatus(d: Disk, n: nat, status: Status) {
    n in d.runs && d.runs[n].status == status
  }

  // ---- finished runs ----

  /** Exactly the terminal runs have an end. */
  ghost predicate EndsMatch(d: Disk) {
    forall n | n in d.runs :: d.runs[n].finished <==> Terminal(d.runs[n].status)
  }

  /** A worker pauses the run that a failure branch has already ended. */
  predicate PausesEnded(s: Sys, step: Step) {
    && Working(s, RunAll) && s.disk.current in s.disk.runs && Terminal(s.disk.runs[s.disk.current].status)
    && ((step.Finish? && step.outcome.PausedOutcome? && !step.crashBetween)
        || (step.FinishFails? && step.raised.PausedOutcome? && step.reach.BothFiles?))
  }

  lemma EndMatches(d: Disk, status: Status, body: string)
    requires DiskInv(d) && EndsMatch(d) && d.current >= 1 && (Terminal(status) || status == Paused)
    ensures EndsMatch(AfterEnd(d, status, body)) <==> (status == Paused ==> !Terminal(d.runs[d.current].status))
  {
    var after := AfterEnd(d, status, body);
    assert after.runs == d.runs[d.current := Ended(d.runs[d.current], status, body)];
    assert after.runs[d.current].finished <==> d.runs[d.current].finished || Terminal(status);
    hide GoodRun;
  }

  lemma WritesMatch(d: Disk, task: Status, status: Status, body: string, reach: Reach)
    requires DiskInv(d) && EndsMatch(d) && (Terminal(status) || status == Paused || d.current == 0)
    ensures EndsMatch(AfterWrites(d, task, status, body, reach)) <==>
            (reach.BothFiles? && d.current >= 1 && status == Paused ==> !Terminal(d.runs[d.current].status))
  {
    SameRuns(d, d.(task := task));
    if d.current >= 1 { EndMatches(d.(task := task), status, body); }
    hide DiskInv, Ended;
  }

  lemma CreateMatches(d: Disk, cut: Cut, casesOf: string -> string)
    requires DiskInv(d) && EndsMatch(d)
    ensures EndsMatch(Started(d, cut, casesOf))
  {
    hide GoodRun;
  }

  lemma LookMatches(d: Disk, body: string)
    requires EndsMatch(d)
    ensures EndsMatch(Recovered(d)) && EndsMatch(AfterProgress(d, body))
  {
    RecoveredIs(d);
    hide Recovered;
  }

  /** One step keeps ends and terminal states together if and only if no worker pauses a run that is already ended. */
  lemma EndsStep(s: Sys, step: Step, casesOf: string -> string)
    requires Inv(s) && EndsMatch(s.disk)
    ensures EndsMatch(After(s, step, casesOf).disk) <==> !PausesEnded(s, step)
  {
    var d := s.disk;
    match step
    case Create(valid, cut, crash) => CreateMatches(d, cut, casesOf); hide EndsMatch, DiskInv, Started, PlanFor;
    case Pause => LookMatches(d, ""); hide EndsMatch, DiskInv, Recovered;
    case GetRun => LookMatches(d, ""); hide EndsMatch, DiskInv, Recovered;
    case ListRuns(crash) => LookMatches(d, ""); hide DiskInv, Recovered;
    case Progressed(body) => LookMatches(d, body); hide EndsMatch, DiskInv, AfterProgress;
    case Finish(outcome, body, crashBetween) => FinishMatches(s, outcome, body, crashBetween); hide EndsMatch, DiskInv;
    case FinishGeneration(outcome, report) => hide DiskInv;
    case FinishFails(outcome, body, report, reach) =>
      RaiseMatches(s, outcome, body, report, reach);
      hide EndsMatch, DiskInv, AfterRaise;
    case LateFailure(i, error, reach) => LateMatches(s, i, error, reach); hide EndsMatch, DiskInv, AfterLate;
    case Crash =>
    case WriteReport(n, text) => hide IsReportFrozen, DiskInv;
  }

  lemma FinishMatches(s: Sys, outcome: Outcome, body: string, crashBetween: bool)
    requires Inv(s) && EndsMatch(s.disk)
    ensures EndsMatch(AfterFinish(s, outcome, body, crashBetween).disk) <==>
            !PausesEnded(s, Finish(outcome, body, crashBetween))
  {
    if Working(s, RunAll) {
      var status := ArchiveStatus(RunAll, outcome);
      var noted := s.disk.(task := status);
      SameRuns(s.disk, noted);
      EndMatches(noted, status, body);
      hide AfterEnd;
    }
  }

  lemma RaiseMatches(s: Sys, outcome: Outcome, body: string, report: Option<string>, reach: Reach)
    requires Inv(s) && EndsMatch(s.disk)
    ensures EndsMatch(AfterRaise(s, outcome, body, report, reach).disk) <==>
            !PausesEnded(s, FinishFails(outcome, body, report, reach))
  {
    if Busy(s) {
      var action := s.memory.value.action;
      var reported := if action.GenerateReport? then s.disk.(initial := report) else s.disk;
      var status := ArchiveStatus(action, outcome);
      assert Working(s, action);
      SameRuns(s.disk, reported);
      WritesMatch(reported, status, status, body, reach);
      hide AfterWrites, DiskInv;
    }
  }

  lemma LateMatches(s: Sys, i: nat, error: string, reach: Reach)
    requires Inv(s) && EndsMatch(s.disk)
    ensures EndsMatch(AfterLate(s, i, error, reach).disk)
  {
    if i < |s.late| {
      WritesMatch(s.disk, ArchiveStatus(s.late[i].action, FailedOutcome), Failed, error, reach);
    }
    hide AfterWrites, DiskInv;
  }

  /** At no moment of the history does a run have an end without being terminal, or the other way round. */
  ghost predicate EndsMatchThroughout(steps: seq<Step>, casesOf: string -> string) {
    forall m: nat | m <= |steps| :: EndsMatch(AfterAll(INITIAL, steps[..m], casesOf).disk)
  }

  ghost predicate NeverPausesEnded(steps: seq<Step>, casesOf: string -> string) {
    forall m: nat | m < |steps| :: !PausesEnded(AfterAll(INITIAL, steps[..m], casesOf), steps[m])
  }

  lemma ThroughoutNext(steps: seq<Step>, casesOf: string -> string)
    requires steps != []
    ensures var before := steps[..|steps| - 1];
            && (EndsMatchThroughout(before, casesOf) ==> EndsMatch(AfterAll(INITIAL, before, casesOf).disk))
            && (EndsMatchThroughout(steps, casesOf) <==>
                EndsMatchThroughout(before, casesOf) && EndsMatch(AfterAll(INITIAL, steps, casesOf).disk))
  {
    hide AfterAll, EndsMatch;
    var last := |steps| - 1;
    assert steps[..|steps|] == steps && steps[..last][..last] == steps[..last];
    assert forall m: nat | m <= last :: steps[..last][..m] == steps[..m];
  }

  lemma PausesNext(steps: seq<Step>, casesOf: string -> string)
    requires steps != []
    ensures var last := |steps| - 1;
            NeverPausesEnded(steps, casesOf) <==>
            NeverPausesEnded(steps[..last], casesOf)
            && !PausesEnded(AfterAll(INITIAL, steps[..last], casesOf), steps[last])
  {
    hide AfterAll, PausesEnded;
    var last := |steps| - 1;
    assert forall m: nat | m < last :: steps[..last][..m] == steps[..m] && steps[..last][m] == steps[m];
  }

  lemma NothingEnded(casesOf: string -> string)
    ensures EndsMatchThroughout([], casesOf) && NeverPausesEnded([], casesOf)
  {
    var none: seq<Step> := [];
    assert none[..0] == [];
  }

  /**
   In every history of a task, the runs with an end are the terminal ones throughout if and only if no worker pauses a
   run that a failure branch has ended under it.
   */
  lemma {:induction false} EndsMatchExactly(steps: seq<Step>, casesOf: string -> string)
    ensures EndsMatchThroughout(steps, casesOf) <==> NeverPausesEnded(steps, casesOf)
    decreases |steps|
  {
    hide *;
    if steps == [] {
      NothingEnded(casesOf);
    } else {
      var last := |steps| - 1;
      EndsMatchExactly(steps[..last], casesOf);
      EveryHistoryInOrder(steps[..last], casesOf);
      ThroughoutNext(steps, casesOf);
      PausesNext(steps, casesOf);
      AfterAllLast(INITIAL, steps, casesOf);
      if EndsMatch(AfterAll(INITIAL, steps[..last], casesOf).disk) {
        EndsStep(AfterAll(INITIAL, steps[..last], casesOf), steps[last], casesOf);
      }
    }
  }
}
