/**
 The life of a backport task's runs: the files of the run store (backport_run_store.py), the in-memory record of
 the request handlers and the worker (api/backport.py), and crashes between two writes.
 */
module RunLifecycle {
  import opened Text

  datatype Status =
    | Generating | GenerationFailed | Ready
    | Running | Paused | Interrupted | Completed | CompletedWithFailures | Failed

  predicate Terminal(s: Status) {
    s == Completed || s == CompletedWithFailures || s == Failed
  }

  datatype Event = WasResumed | WasPaused | WasInterrupted

  /** One run's JSON file; body is everything the lifecycle does not look at (cases, summary, target). */
  datatype Run = Run(status: Status, resumeCount: nat, events: seq<Event>, finished: bool, body: string)

  /** The files of a task: manifest status and current run, run files and their reports by number, and the
      report the first run starts from. */
  datatype Disk = Disk(task: Status, current: nat, runs: map<nat, Run>, reports: map<nat, string>,
                       initial: Option<string>)

  datatype Action = GenerateReport | RunAll

  datatype RecordStatus = RecordRunning | RecordSuccess | RecordPaused | RecordFailed

  datatype Record = Record(action: Action, status: RecordStatus, pauseRequested: bool)

  /** A worker whose last step raised: it waits for the lock to record its failure. Its record is still the one in
      memory unless a later creation put another there. */
  datatype Late = Late(action: Action, own: bool)

  /** The task as the service sees it: its files, the record held in memory, if any, and the failing workers. */
  datatype Sys = Sys(disk: Disk, memory: Option<Record>, late: seq<Late>)

  // ---- file names ----

  /** A run number as file names show it: at least three digits. */
  function Padded(n: nat): string {
    var digits := Decimal(n);
    if |digits| == 1 then "00" + digits else if |digits| == 2 then "0" + digits else digits
  }

  const REPORT_SUFFIX := "-report.yml"

  function ReportName(n: nat): string {
    Padded(n) + REPORT_SUFFIX
  }

  function DigitValue(c: char): nat
    requires '0' <= c <= '9'
  {
    (c - '0') as int
  }

  /** The run number of a report name with exactly three digits. */
  function ThreeDigits(name: string): Option<nat> {
    if |name| == 3 + |REPORT_SUFFIX| && name[3..] == REPORT_SUFFIX
       && '0' <= name[0] <= '9' && '0' <= name[1] <= '9' && '0' <= name[2] <= '9'
    then Some(100 * DigitValue(name[0]) + 10 * DigitValue(name[1]) + DigitValue(name[2]))
    else None
  }

  predicate IsReportFrozen(d: Disk, name: string) {
    var n := ThreeDigits(name);
    n.Some? && n.value >= 1 && n.value in d.runs && Terminal(d.runs[n.value].status)
  }

  // ---- the run store ----

  function CurrentRun(d: Disk): Option<Run> {
    if d.current >= 1 && d.current in d.runs then Some(d.runs[d.current]) else None
  }

  function Source(d: Disk): Option<string> {
    if d.current == 0 then d.initial else if d.current in d.reports then Some(d.reports[d.current]) else None
  }

  datatype Plan = Refuse | Resume | StartNew

  function PlanFor(d: Disk): Plan {
    var run := CurrentRun(d);
    if run.Some? && !Terminal(run.value.status) then
      if run.value.status == Paused || run.value.status == Interrupted then Resume else Refuse
    else if d.task == Generating || d.task == GenerationFailed || Source(d).None? then Refuse
    else StartNew
  }

  function Resumed(run: Run): Run {
    run.(status := Running, resumeCount := run.resumeCount + 1, events := run.events + [WasResumed],
         finished := false)
  }

  /** How far a creation gets: an exception or a crash may stop it after the report or after the run file. */
  datatype Cut = AfterReport | AfterRunFile | Whole

  function Started(d: Disk, cut: Cut, casesOf: string -> string): Disk {
    match PlanFor(d)
    case Refuse => d
    case Resume =>
      if cut.AfterReport? then d
      else
        var written := d.(runs := d.runs[d.current := Resumed(d.runs[d.current])]);
        if cut.Whole? then written.(task := Running) else written
    case StartNew =>
      var n, report := d.current + 1, Source(d).value;
      var copied := d.(reports := d.reports[n := report]);
      if cut.AfterReport? then copied
      else
        var written := copied.(runs := d.runs[n := Run(Running, 0, [], false, casesOf(report))]);
        if cut.Whole? then written.(task := Running, current := n) else written
  }

  /** A creation by its branches: what is refused, what is taken up again, and what is started. */
  lemma CreationIs(d: Disk, casesOf: string -> string)
    ensures var n, plan, done := d.current, PlanFor(d), Started(d, Whole, casesOf);
            if n >= 1 && n in d.runs && !Terminal(d.runs[n].status) then
              if d.runs[n].status == Paused || d.runs[n].status == Interrupted then
                plan == Resume && done == d.(runs := d.runs[n := Resumed(d.runs[n])], task := Running)
              else plan == Refuse
            else if d.task == Generating || d.task == GenerationFailed || Source(d).None? then plan == Refuse
            else
              plan == StartNew
              && done == Disk(Running, n + 1, d.runs[n + 1 := Run(Running, 0, [], false, casesOf(Source(d).value))],
                              d.reports[n + 1 := Source(d).value], d.initial)
  {}

  function WithPaused(events: seq<Event>): seq<Event> {
    if events == [] || events[|events| - 1] != WasPaused then events + [WasPaused] else events
  }

  function Ended(run: Run, status: Status, body: string): Run {
    run.(status := status, body := body, finished := run.finished || Terminal(status),
         events := if status == Paused then WithPaused(run.events) else run.events)
  }

  function Recovered(d: Disk): Disk {
    var run := CurrentRun(d);
    if run.None? || run.value.status != Running then d
    else
      var events := if WasInterrupted in run.value.events then run.value.events
                    else run.value.events + [WasInterrupted];
      d.(runs := d.runs[d.current := run.value.(status := Interrupted, events := events)], task := Interrupted)
  }

  // ---- requests, worker, crashes ----

  datatype Outcome = Success | WithFailures | PausedOutcome | FailedOutcome

  function ArchiveStatus(action: Action, outcome: Outcome): Status {
    match outcome
    case FailedOutcome => if action.GenerateReport? then GenerationFailed else Failed
    case PausedOutcome => Paused
    case WithFailures => if action.RunAll? then CompletedWithFailures else Ready
    case Success => if action.RunAll? then Completed else Ready
  }

  function RecordOf(outcome: Outcome): RecordStatus {
    match outcome
    case FailedOutcome => RecordFailed
    case PausedOutcome => RecordPaused
    case _ => RecordSuccess
  }

  /** How far a worker's last writes get before one of them raises. */
  datatype Reach = NoFile | ManifestOnly | BothFiles

  datatype Step =
    | Create(valid: bool, cut: Cut, crash: bool)
    | Pause
    | GetRun
    | ListRuns(crash: bool)
    | Progressed(newBody: string)
    | Finish(outcome: Outcome, endBody: string, crashBetween: bool)
    | FinishGeneration(result: Outcome, report: Option<string>)
    | FinishFails(raised: Outcome, raisedBody: string, raisedReport: Option<string>, reach: Reach)
    | LateFailure(index: nat, error: string, lateReach: Reach)
    | Crash
    | WriteReport(number: nat, text: string)

  predicate Busy(s: Sys) {
    s.memory.Some? && s.memory.value.status == RecordRunning
  }

  predicate Working(s: Sys, action: Action) {
    Busy(s) && s.memory.value.action == action
  }

  /** A crash loses the records and the workers. */
  function Crashed(s: Sys): Sys {
    s.(memory := None, late := [])
  }

  function Disowned(late: seq<Late>): seq<Late> {
    seq(|late|, i requires 0 <= i < |late| => late[i].(own := false))
  }

  function AfterCreate(s: Sys, valid: bool, cut: Cut, crash: bool, casesOf: string -> string): Sys {
    if Busy(s) || !valid || PlanFor(s.disk) == Refuse then if crash then Crashed(s) else s
    else
      var started := s.(disk := Started(s.disk, cut, casesOf));
      if crash then Crashed(started)
      else if cut.Whole? then
        started.(memory := Some(Record(RunAll, RecordRunning, false)), late := Disowned(s.late))
      else started
  }

  function AfterPause(s: Sys): Sys {
    if s.memory.None? then s.(disk := Recovered(s.disk))
    else if Working(s, RunAll) then s.(memory := Some(s.memory.value.(pauseRequested := true)))
    else s
  }

  function AfterProgress(d: Disk, body: string): Disk {
    if CurrentRun(d).None? then d
    else d.(runs := d.runs[d.current := d.runs[d.current].(body := body)])
  }

  function AfterEnd(d: Disk, status: Status, body: string): Disk {
    if d.current == 0 then d
    else
      var run := if d.current in d.runs then d.runs[d.current] else Run(status, 0, [], false, body);
      d.(runs := d.runs[d.current := Ended(run, status, body)])
  }

  /** The worker's last step for a run: record, manifest, run file, unless a crash falls between the files. */
  function AfterFinish(s: Sys, outcome: Outcome, body: string, crashBetween: bool): Sys {
    if !Working(s, RunAll) then s
    else
      var status := ArchiveStatus(RunAll, outcome);
      var noted := s.disk.(task := status);
      if crashBetween then Crashed(s.(disk := noted))
      else
        s.(disk := AfterEnd(noted, status, body), memory := Some(s.memory.value.(status := RecordOf(outcome))))
  }

  function AfterGeneration(s: Sys, outcome: Outcome, report: Option<string>): Sys {
    if !Working(s, GenerateReport) then s
    else
      var status := ArchiveStatus(GenerateReport, outcome);
      s.(disk := AfterEnd(s.disk.(task := status, initial := report), status, ""),
         memory := Some(s.memory.value.(status := RecordOf(outcome))))
  }

  /** The manifest and then the current run's file, as far as the writes get. */
  function AfterWrites(d: Disk, task: Status, status: Status, body: string, reach: Reach): Disk {
    match reach
    case NoFile => d
    case ManifestOnly => d.(task := task)
    case BothFiles => AfterEnd(d.(task := task), status, body)
  }

  /** The worker's last step when one of its writes, the summary after the run file included, raises: its record is
      no longer running, and the worker goes on to its failure branch once it gets the lock again. */
  function AfterRaise(s: Sys, outcome: Outcome, body: string, report: Option<string>, reach: Reach): Sys {
    if !Busy(s) then s
    else
      var action := s.memory.value.action;
      var status := ArchiveStatus(action, outcome);
      var reported := if action.GenerateReport? then s.disk.(initial := report) else s.disk;
      Sys(AfterWrites(reported, status, status, body, reach),
          Some(s.memory.value.(status := RecordOf(outcome))), s.late + [Late(action, true)])
  }

  /** The failure branch: whatever run is current by then is marked failed. */
  function AfterLate(s: Sys, i: nat, error: string, reach: Reach): Sys {
    if i >= |s.late| then s
    else
      var status := ArchiveStatus(s.late[i].action, FailedOutcome);
      Sys(AfterWrites(s.disk, status, Failed, error, reach),
          if s.late[i].own && s.memory.Some? then Some(s.memory.value.(status := RecordFailed)) else s.memory,
          s.late[..i] + s.late[i + 1..])
  }

  function AfterWriteReport(d: Disk, n: nat, text: string): Disk {
    if IsReportFrozen(d, ReportName(n)) then d else d.(reports := d.reports[n := text])
  }

  function After(s: Sys, step: Step, casesOf: string -> string): Sys {
    match step
    case Create(valid, cut, crash) => AfterCreate(s, valid, cut, crash, casesOf)
    case Pause => AfterPause(s)
    case GetRun => if s.memory.None? then s.(disk := Recovered(s.disk)) else s
    case ListRuns(crash) =>
      var looked := if Busy(s) then s else s.(disk := Recovered(s.disk));
      if crash then Crashed(looked.(disk := looked.disk.(task := s.disk.task))) else looked
    case Progressed(body) => if Working(s, RunAll) then s.(disk := AfterProgress(s.disk, body)) else s
    case Finish(outcome, body, crashBetween) => AfterFinish(s, outcome, body, crashBetween)
    case FinishGeneration(outcome, report) => AfterGeneration(s, outcome, report)
    case FinishFails(outcome, body, report, reach) => AfterRaise(s, outcome, body, report, reach)
    case LateFailure(i, error, reach) => AfterLate(s, i, error, reach)
    case Crash => Crashed(s)
    case WriteReport(n, text) => s.(disk := AfterWriteReport(s.disk, n, text))
  }

  /** A task as `create_task` leaves it, with its generation worker running. */
  const INITIAL :=
    Sys(Disk(Generating, 0, map[], map[], None), Some(Record(GenerateReport, RecordRunning, false)), [])

  function AfterAll(s: Sys, steps: seq<Step>, casesOf: string -> string): Sys {
    if steps == [] then s
    else After(AfterAll(s, steps[..|steps| - 1], casesOf), steps[|steps| - 1], casesOf)
  }

  /** The files of one task, rewritten in place by the store's methods. */
  class RunStore {
    var task: Status
    var current: nat
    var runs: map<nat, Run>
    var reports: map<nat, string>
    var initial: Option<string>

    function Files(): Disk
      reads this
    {
      Disk(task, current, runs, reports, initial)
    }

    method ReadRun(number: nat) returns (run: Option<Run>)
      ensures run == if number >= 1 && number in runs then Some(runs[number]) else None
    {
      run := if number >= 1 && number in runs then Some(runs[number]) else None;
    }

    /** The run-all branch of `create_async_record`; false stands for the exceptions it raises. */
    method CreateAsyncRecord(casesOf: string -> string) returns (created: bool)
      modifies this
      ensures created == (PlanFor(old(Files())) != Refuse)
      ensures Files() == if created then Started(old(Files()), Whole, casesOf) else old(Files())
    {
      CreationIs(Files(), casesOf);
      hide PlanFor, Started, Source;
      var run := ReadRun(current);
      var number: nat;
      var data: Run;
      if run.Some? && !Terminal(run.value.status) {
        data := run.value;
        if data.status != Paused && data.status != Interrupted { return false; }
        number := current;
        data := data.(status := Running);
        data := data.(resumeCount := data.resumeCount + 1);
        data := data.(events := data.events + [WasResumed]);
        data := data.(finished := false);
      } else {
        if task == Generating || task == GenerationFailed { return false; }
        number := current + 1;
        var source := Source(Files());
        if source.None? { return false; }
        reports := reports[number := source.value];
        data := Run(Running, 0, [], false, casesOf(source.value));
      }
      runs := runs[number := data];
      task := Running;
      current := number;
      created := true;
    }

    method RecordProgress(body: string)
      modifies this
      ensures Files() == AfterProgress(old(Files()), body)
    {
      var run := ReadRun(current);
      if run.None? { return; }
      runs := runs[current := run.value.(body := body)];
    }

    method UpdateCurrentExecution(status: Status, body: string)
      modifies this
      ensures Files() == AfterEnd(old(Files()), status, body)
    {
      if current == 0 { return; }
      var run := ReadRun(current);
      var data := if run.Some? then run.value else Run(status, 0, [], false, body);
      data := data.(body := body, status := status);
      if status == Paused {
        if data.events == [] || data.events[|data.events| - 1] != WasPaused {
          data := data.(events := data.events + [WasPaused]);
        }
      }
      if Terminal(status) { data := data.(finished := true); }
      runs := runs[current := data];
    }

    method GetAsyncRecord(active: bool)
      modifies this
      ensures Files() == if active then old(Files()) else Recovered(old(Files()))
    {
      var run := ReadRun(current);
      if run.Some? && run.value.status == Running && !active {
        var data := run.value;
        if WasInterrupted !in data.events { data := data.(events := data.events + [WasInterrupted]); }
        data := data.(status := Interrupted);
        runs := runs[current := data];
        task := Interrupted;
      }
    }

    method WriteReport(number: nat, text: string) returns (written: bool)
      modifies this
      ensures written == !IsReportFrozen(old(Files()), ReportName(number))
      ensures Files() == AfterWriteReport(old(Files()), number, text)
    {
      if IsReportFrozen(Files(), ReportName(number)) { return false; }
      reports := reports[number := text];
      written := true;
    }
  }
}
