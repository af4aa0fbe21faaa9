/**
 The cases of a backport run (backport_run_store.py): how progress events move a case through detection,
 handling and final stage, and the counters derived from the cases.
 */
module CaseState {
  import opened Text

  datatype State = NotStarted | Running | Completed | Failed | NotNeeded

  datatype Verdict =
    | Unset | EquivalentExists | AlreadyPresent | Conflict | CleanApply | Broken
    | BackportGenerated | DirectApply | ReadyToApply | Applied | Skipped

  datatype Detection = Detection(state: State, result: Verdict)

  datatype Handling = Handling(state: State, result: Verdict, engine: string, report: string)

  datatype Final = Final(state: State, result: Verdict, appliedCommit: string)

  datatype Case = Case(row: int, commit: string, title: string,
                       detection: Detection, handling: Handling, final: Final)

  /** A report row. A text is what `str(value or "")` gives, so "" stands for a missing value; a flag says
      whether the value is the literal True, and hasConflict is None when it is neither True nor False. */
  datatype Row = Row(
    commit: string, inputCommit: string, rowId: string, rowNumber: int, title: string,
    equivalentExists: bool, mergedInTarget: bool, hasConflict: Option<bool>,
    status: string, appliedCommit: string, appliedPatchKind: string, backportedPatchPath: string,
    backportEngine: string, backportExplanation: string, conflictReason: string, conflictError: string)

  datatype Phase = Checking | Resolving | Applying | SkippedPhase | FailedPhase | OtherPhase

  datatype PhaseState = PhaseRunning | PhaseCompleted | PhaseFailed | OtherState

  datatype Progress = Progress(rowId: string, currentIndex: int, phase: Phase, phaseState: PhaseState, row: Row)

  // ---- texts ----

  function LowerAscii(s: string): string {
    seq(|s|, i requires 0 <= i < |s| => if 'A' <= s[i] <= 'Z' then s[i] + ('a' - 'A') else s[i])
  }

  predicate SaysFailed(status: string) {
    LowerAscii(status) == "failed" || LowerAscii(status) == "error"
  }

  /** The first n characters with each run of white space made one space and none at the ends. */
  function Squashed(s: string, n: nat): string
    requires n <= |s|
  {
    if n == 0 then ""
    else
      var done := Squashed(s, n - 1);
      if IsSpace(s[n - 1]) then done
      else if done == "" || !IsSpace(s[n - 2]) then done + [s[n - 1]]
      else done + " " + [s[n - 1]]
  }

  function SummaryText(s: string, limit: nat): string
    requires limit > 0
  {
    var text := Squashed(s, |s|);
    if |text| <= limit then text else StripRight(text[..limit - 1]) + "\U{2026}"
  }

  function FirstGiven(a: string, b: string): string {
    if a != "" then a else b
  }

  // ---- one case, one event ----

  function UsedResolvedPatch(row: Row): bool {
    var kind := LowerAscii(Strip(row.appliedPatchKind));
    (kind != "" && kind != "original") || (Strip(row.backportedPatchPath) != "" && kind != "original")
  }

  function Detected(d: Detection, row: Row): Detection {
    if d.state == Completed || d.state == Failed then d
    else if row.equivalentExists then Detection(Completed, EquivalentExists)
    else if Strip(row.appliedCommit) != "" then
      Detection(Completed, if UsedResolvedPatch(row) then Conflict else CleanApply)
    else if row.mergedInTarget then Detection(Completed, AlreadyPresent)
    else if row.hasConflict == Some(true) then Detection(Completed, Conflict)
    else if SaysFailed(row.status) then Detection(Failed, Broken)
    else if row.hasConflict == Some(false) then Detection(Completed, CleanApply)
    else d
  }

  function AfterChecking(c: Case, row: Row, s: PhaseState): Case {
    if s.PhaseRunning? && c.detection.state == NotStarted then c.(detection := c.detection.(state := Running))
    else if s.PhaseCompleted? then c.(detection := Detected(c.detection, row))
    else if s.PhaseFailed? then c.(detection := Detection(Failed, Broken))
    else c
  }

  function Resolved(h: Handling, row: Row): Handling {
    var report := FirstGiven(row.backportExplanation, FirstGiven(row.conflictReason, row.conflictError));
    h.(engine := SummaryText(row.backportEngine, 80),
       report := if report != "" then SummaryText(report, 2000) else h.report)
  }

  function AfterResolving(c: Case, row: Row, s: PhaseState): Case {
    var seen := Detected(c.detection, row);
    var d := if seen.state == NotStarted then Detection(Completed, Conflict) else seen;
    var h := Resolved(c.handling, row);
    var known := c.(detection := d, handling := h);
    if s.PhaseRunning? then known.(handling := h.(state := Running))
    else if s.PhaseFailed? || SaysFailed(Strip(row.status)) then
      known.(handling := h.(state := Failed, result := Broken))
    else if row.equivalentExists then known.(handling := h.(state := Completed, result := EquivalentExists))
    else if Strip(row.backportedPatchPath) != "" then
      known.(handling := h.(state := Completed, result := BackportGenerated),
             final := c.final.(state := NotStarted, result := ReadyToApply))
    else known
  }

  function AppliedDetection(d: Detection, row: Row): Detection {
    var seen := Detected(d, row);
    if SummaryText(row.appliedCommit, 80) != "" && (seen.state == NotStarted || seen.state == Running)
    then Detection(Completed, CleanApply)
    else seen
  }

  function AppliedHandling(h: Handling, d: Detection, row: Row): Handling {
    if d.result == CleanApply && h.state == NotStarted then h.(state := Completed, result := DirectApply)
    else if d.result == Conflict && h.state == NotStarted && Strip(row.backportedPatchPath) != "" then
      h.(state := Completed, result := BackportGenerated, engine := SummaryText(row.backportEngine, 80))
    else h
  }

  function AfterApplying(c: Case, row: Row, s: PhaseState): Case {
    var commit := SummaryText(row.appliedCommit, 80);
    if s.PhaseCompleted? then
      var d := AppliedDetection(c.detection, row);
      var known := c.(detection := d, handling := AppliedHandling(c.handling, d, row));
      if commit != "" then known.(final := Final(Completed, Applied, commit))
      else if SaysFailed(Strip(row.status)) then known.(final := c.final.(state := Failed, result := Broken))
      else known
    else
      var begun := if s.PhaseRunning? then c.(final := c.final.(state := Running, result := Unset)) else c;
      if s.PhaseFailed? || SaysFailed(Strip(row.status)) then
        begun.(final := begun.final.(state := Failed, result := Broken))
      else begun
  }

  function AfterSkipped(c: Case, row: Row): Case {
    var d := Detected(c.detection, row);
    var h := if d.result == EquivalentExists || d.result == AlreadyPresent
             then c.handling.(state := NotNeeded, result := EquivalentExists) else c.handling;
    var commit := SummaryText(row.appliedCommit, 80);
    c.(detection := d, handling := h,
       final := if commit != "" then Final(Completed, Applied, commit)
                else c.final.(state := Completed, result := Skipped))
  }

  function AfterFailed(c: Case, row: Row): Case {
    var d := Detected(c.detection, row);
    var known := c.(detection := d);
    if d.state == NotStarted || d.state == Running then c.(detection := Detection(Failed, Broken))
    else if d.result == Conflict && (c.handling.state == NotStarted || c.handling.state == Running) then
      known.(handling := c.handling.(state := Failed, result := Broken))
    else known.(final := c.final.(state := Failed, result := Broken))
  }

  function AfterPhase(c: Case, row: Row, phase: Phase, s: PhaseState): Case {
    match phase
    case Checking => AfterChecking(c, row, s)
    case Resolving => AfterResolving(c, row, s)
    case Applying => AfterApplying(c, row, s)
    case SkippedPhase => AfterSkipped(c, row)
    case FailedPhase => AfterFailed(c, row)
    case OtherPhase => c
  }

  function Noted(h: Handling, row: Row): Handling {
    h.(report := if row.backportExplanation != "" then SummaryText(row.backportExplanation, 2000) else h.report,
       engine := if row.backportEngine != "" then SummaryText(row.backportEngine, 80) else h.engine)
  }

  function Updated(c: Case, row: Row, phase: Phase, s: PhaseState): Case {
    var moved := AfterPhase(c, row, phase, s);
    moved.(handling := Noted(moved.handling, row))
  }

  /** A case being updated in place, as `_update_summary_case` does with the three stage records. */
  class SummaryCase {
    var row: int
    var commit: string
    var title: string
    var detection: Detection
    var handling: Handling
    var final: Final

    constructor (c: Case)
      ensures Value() == c
    {
      row, commit, title := c.row, c.commit, c.title;
      detection, handling, final := c.detection, c.handling, c.final;
    }

    function Value(): Case
      reads this
    {
      Case(row, commit, title, detection, handling, final)
    }

    method SetDetectionFromRow(r: Row)
      modifies this
      ensures Value() == old(Value()).(detection := Detected(old(detection), r))
    {
      if detection.state == Completed || detection.state == Failed { return; }
      if r.equivalentExists {
        detection := Detection(Completed, EquivalentExists);
      } else if Strip(r.appliedCommit) != "" {
        detection := Detection(Completed, if UsedResolvedPatch(r) then Conflict else CleanApply);
      } else if r.mergedInTarget {
        detection := Detection(Completed, AlreadyPresent);
      } else if r.hasConflict == Some(true) {
        detection := Detection(Completed, Conflict);
      } else if SaysFailed(r.status) {
        detection := Detection(Failed, Broken);
      } else if r.hasConflict == Some(false) {
        detection := Detection(Completed, CleanApply);
      }
    }

    method UpdateChecking(r: Row, s: PhaseState)
      modifies this
      ensures Value() == AfterChecking(old(Value()), r, s)
    {
      if s.PhaseRunning? && detection.state == NotStarted {
        detection := detection.(state := Running);
      } else if s.PhaseCompleted? {
        SetDetectionFromRow(r);
      } else if s.PhaseFailed? {
        detection := Detection(Failed, Broken);
      }
    }

    method UpdateResolving(r: Row, s: PhaseState)
      modifies this
      ensures Value() == AfterResolving(old(Value()), r, s)
    {
      hide SummaryText, Strip, SaysFailed, Detected;
      SetDetectionFromRow(r);
      if detection.state == NotStarted { detection := Detection(Completed, Conflict); }
      handling := handling.(engine := SummaryText(r.backportEngine, 80));
      var report := r.backportExplanation;
      if report == "" { report := FirstGiven(r.conflictReason, r.conflictError); }
      if report != "" { handling := handling.(report := SummaryText(report, 2000)); }
      if s.PhaseRunning? {
        handling := handling.(state := Running);
      } else if s.PhaseFailed? || SaysFailed(Strip(r.status)) {
        handling := handling.(state := Failed, result := Broken);
      } else if r.equivalentExists {
        handling := handling.(state := Completed, result := EquivalentExists);
      } else if Strip(r.backportedPatchPath) != "" {
        handling := handling.(state := Completed, result := BackportGenerated);
        final := final.(state := NotStarted, result := ReadyToApply);
      }
    }

    method UpdateApplying(r: Row, s: PhaseState)
      modifies this
      ensures Value() == AfterApplying(old(Value()), r, s)
    {
      hide SummaryText, Strip, SaysFailed, Detected;
      if s.PhaseRunning? {
        final := final.(state := Running, result := Unset);
      } else if s.PhaseCompleted? {
        SetDetectionFromRow(r);
      }
      var commit := SummaryText(r.appliedCommit, 80);
      if s.PhaseCompleted? && commit != "" && (detection.state == NotStarted || detection.state == Running) {
        detection := Detection(Completed, CleanApply);
      }
      if s.PhaseCompleted? && detection.result == CleanApply && handling.state == NotStarted {
        handling := handling.(state := Completed, result := DirectApply);
      } else if s.PhaseCompleted? && detection.result == Conflict && handling.state == NotStarted
                && Strip(r.backportedPatchPath) != "" {
        handling := handling.(state := Completed, result := BackportGenerated);
        handling := handling.(engine := SummaryText(r.backportEngine, 80));
      }
      if s.PhaseCompleted? && commit != "" {
        final := Final(Completed, Applied, commit);
      } else if s.PhaseFailed? || SaysFailed(Strip(r.status)) {
        final := final.(state := Failed, result := Broken);
      }
    }

    method UpdateSkipped(r: Row)
      modifies this
      ensures Value() == AfterSkipped(old(Value()), r)
    {
      hide SummaryText, Detected;
      SetDetectionFromRow(r);
      if detection.result == EquivalentExists || detection.result == AlreadyPresent {
        handling := handling.(state := NotNeeded, result := EquivalentExists);
      }
      var commit := SummaryText(r.appliedCommit, 80);
      if commit != "" {
        final := Final(Completed, Applied, commit);
      } else {
        final := final.(state := Completed, result := Skipped);
      }
    }

    method UpdateFailed(r: Row)
      modifies this
      ensures Value() == AfterFailed(old(Value()), r)
    {
      hide Detected;
      SetDetectionFromRow(r);
      if detection.state == NotStarted || detection.state == Running {
        detection := Detection(Failed, Broken);
      } else if detection.result == Conflict && (handling.state == NotStarted || handling.state == Running) {
        handling := handling.(state := Failed, result := Broken);
      } else {
        final := final.(state := Failed, result := Broken);
      }
    }

    method Update(r: Row, phase: Phase, s: PhaseState)
      modifies this
      ensures Value() == Updated(old(Value()), r, phase, s)
    {
      hide SummaryText, AfterChecking, AfterResolving, AfterApplying, AfterSkipped, AfterFailed;
      match phase {
        case Checking => UpdateChecking(r, s);
        case Resolving => UpdateResolving(r, s);
        case Applying => UpdateApplying(r, s);
        case SkippedPhase => UpdateSkipped(r);
        case FailedPhase => UpdateFailed(r);
        case OtherPhase =>
      }
      if r.backportExplanation != "" {
        handling := handling.(report := SummaryText(r.backportExplanation, 2000));
      }
      if r.backportEngine != "" { handling := handling.(engine := SummaryText(r.backportEngine, 80)); }
    }
  }

  // ---- the cases of a run ----

  function NewCase(row: Row, index: int): Case {
    Case(if row.rowNumber != 0 then row.rowNumber else index,
         FirstGiven(row.commit, FirstGiven(row.inputCommit, row.rowId)), SummaryText(row.title, 2000),
         Detected(Detection(NotStarted, Unset), row), Handling(NotStarted, Unset, "", ""),
         Final(NotStarted, Unset, ""))
  }

  /** The cases a run starts with, one per row of its report. */
  function Initial(rows: seq<Row>): seq<Case> {
    seq(|rows|, i requires 0 <= i < |rows| => NewCase(rows[i], i + 1))
  }

  function CommitOf(p: Progress): string {
    FirstGiven(p.row.commit, FirstGiven(p.row.inputCommit, Strip(p.rowId)))
  }

  function NumberOf(p: Progress): int {
    if p.row.rowNumber != 0 then p.row.rowNumber else p.currentIndex
  }

  /** Whether an event is about a case: its row number, or its commit up to letter case. */
  predicate About(c: Case, p: Progress, fold: string -> string) {
    c.row == NumberOf(p) || (CommitOf(p) != "" && fold(c.commit) == fold(CommitOf(p)))
  }

  function Target(cases: seq<Case>, p: Progress, fold: string -> string, i: nat): (k: nat)
    requires i <= |cases|
    ensures i <= k <= |cases|
    ensures k < |cases| ==> About(cases[k], p, fold)
    ensures forall j | i <= j < k :: !About(cases[j], p, fold)
    decreases |cases| - i
  {
    if i == |cases| || About(cases[i], p, fold) then i else Target(cases, p, fold, i + 1)
  }

  function Named(c: Case, p: Progress): Case {
    c.(commit := FirstGiven(CommitOf(p), c.commit),
       title := if p.row.title != "" then SummaryText(p.row.title, 2000) else c.title)
  }

  function AfterProgress(cases: seq<Case>, p: Progress, fold: string -> string): seq<Case> {
    if Strip(p.rowId) == "" then cases
    else
      var k := Target(cases, p, fold, 0);
      if k < |cases| then cases[k := Updated(Named(cases[k], p), p.row, p.phase, p.phaseState)]
      else
        var added := NewCase(p.row, if NumberOf(p) != 0 then NumberOf(p) else |cases| + 1);
        cases + [Updated(Named(added, p), p.row, p.phase, p.phaseState)]
  }

  function AfterRun(cases: seq<Case>, events: seq<Progress>, fold: string -> string): seq<Case> {
    if events == [] then cases
    else AfterProgress(AfterRun(cases, events[..|events| - 1], fold), events[|events| - 1], fold)
  }

  /** The run record being edited by `record_progress`: find or append the case, then update it in place. */
  class RunCases {
    var cases: seq<Case>

    method RecordProgress(p: Progress, fold: string -> string)
      modifies this
      ensures cases == AfterProgress(old(cases), p, fold)
    {
      hide SummaryText, Updated, NewCase, Strip, About;
      if Strip(p.rowId) == "" { return; }
      var k := 0;
      while k < |cases| && !About(cases[k], p, fold)
        invariant k <= |cases| && cases == old(cases)
        invariant Target(cases, p, fold, 0) == Target(cases, p, fold, k)
      {
        k := k + 1;
      }
      if k == |cases| {
        cases := cases + [NewCase(p.row, if NumberOf(p) != 0 then NumberOf(p) else |cases| + 1)];
      }
      var item := new SummaryCase(cases[k]);
      item.commit := FirstGiven(CommitOf(p), item.commit);
      if p.row.title != "" { item.title := SummaryText(p.row.title, 2000); }
      assert item.Value() == Named(cases[k], p);
      item.Update(p.row, p.phase, p.phaseState);
      cases := cases[k := item.Value()];
    }
  }

  // ---- counters ----

  predicate IsApplied(c: Case) {
    c.final.result == Applied
  }

  predicate HasFailed(c: Case) {
    c.final.result != Applied
    && (c.detection.state == Failed || c.handling.state == Failed || c.final.state == Failed)
  }

  predicate LooksEquivalent(c: Case) {
    c.detection.result == EquivalentExists || c.detection.result == AlreadyPresent
    || c.handling.result == EquivalentExists
  }

  function Select(cases: seq<Case>, keep: Case -> bool, n: nat): seq<Case>
    requires n <= |cases|
  {
    if n == 0 then []
    else Select(cases, keep, n - 1) + if keep(cases[n - 1]) then [cases[n - 1]] else []
  }

  datatype Counts = Counts(total: int, applied: int, directApplied: int, conflictResolved: int,
                           equivalentExists: int, failed: int, unprocessed: int)

  predicate HadConflict(c: Case) {
    c.detection.result == Conflict
  }

  /** Looks equivalent, and is neither applied nor one of the failed. */
  function Leftover(failed: seq<Case>): Case -> bool {
    (c: Case) => c.final.result != Applied && c !in failed && LooksEquivalent(c)
  }

  function SummaryCounts(cases: seq<Case>): Counts {
    var n := |cases|;
    var applied := Select(cases, IsApplied, n);
    var resolved := |Select(applied, HadConflict, |applied|)|;
    var failed := Select(cases, HasFailed, n);
    var equivalent := Select(cases, Leftover(failed), n);
    var classified := |applied| + |failed| + |equivalent|;
    Counts(n, |applied|, |applied| - resolved, resolved, |equivalent|, |failed|,
           if n - classified > 0 then n - classified else 0)
  }
}
