/**
 What one event makes of a case, stage by stage: the table of the detection, the handling and the final stage, of the
 notes kept beside them, and of the words a summary text keeps.
 */
module CaseTables {
  import opened Text
  import opened CaseState
  import opened CaseStateProofs

  // ---- texts ----

  /** The same letters up to case, for a word in small ones. */
  predicate SaysWord(s: string, word: string) {
    |s| == |word| && forall i | 0 <= i < |s| :: s[i] == word[i] || (s[i] <= 'Z' && s[i] as int + 32 == word[i] as int)
  }

  predicate StatusFailed(status: string) {
    SaysWord(status, "failed") || SaysWord(status, "error")
  }

  predicate Given(s: string) {
    exists i | 0 <= i < |s| :: !IsSpace(s[i])
  }

  lemma {:induction false} GivenStrip(s: string)
    ensures Given(s) <==> Strip(s) != ""
  {
    var lead, tail := StripSplits(s);
    hide Strip;
    var mid := Strip(s);
    if mid != "" {
      assert s[|lead|] == mid[0];
      assert !IsSpace(mid[0]);
    } else {
      assert s == lead + tail;
      assert forall i | 0 <= i < |s| :: s[i] == if i < |lead| then lead[i] else tail[i - |lead|];
    }
  }

  lemma LoweredLetter(c: char, d: char)
    requires 'a' <= d <= 'z'
    ensures (if 'A' <= c <= 'Z' then c + ('a' - 'A') else c) == d <==> c == d || (c <= 'Z' && c as int + 32 == d as int)
  {}

  lemma SaysWordIs(s: string, word: string)
    requires forall i | 0 <= i < |word| :: 'a' <= word[i] <= 'z'
    ensures SaysWord(s, word) <==> LowerAscii(s) == word
  {
    if |s| == |word| {
      forall i | 0 <= i < |s|
        ensures LowerAscii(s)[i] == word[i] <==> s[i] == word[i] || (s[i] <= 'Z' && s[i] as int + 32 == word[i] as int)
      {
        LoweredLetter(s[i], word[i]);
      }
      assert LowerAscii(s) == word <==> forall i | 0 <= i < |s| :: LowerAscii(s)[i] == word[i];
    }
  }

  lemma StatusIs(status: string)
    ensures StatusFailed(status) <==> SaysFailed(status)
  {
    SaysWordIs(status, "failed");
    SaysWordIs(status, "error");
  }

  // ---- detection by a row ----

  /** The patch applied was not the original one: of another kind, or of no kind with a backported patch. */
  predicate ResolvedPatch(row: Row) {
    var kind := Strip(row.appliedPatchKind);
    !SaysWord(kind, "original") && (kind != "" || Given(row.backportedPatchPath))
  }

  /** What a row says of a case whose detection is open; Unset where it says nothing. */
  predicate RowSays(row: Row, v: Verdict) {
    var e, c, m, h := row.equivalentExists, Given(row.appliedCommit), row.mergedInTarget, row.hasConflict;
    var failed := StatusFailed(row.status);
    match v
    case EquivalentExists => e
    case AlreadyPresent => !e && !c && m
    case Conflict => !e && (if c then ResolvedPatch(row) else !m && h == Some(true))
    case CleanApply => !e && (if c then !ResolvedPatch(row) else !m && h == Some(false) && !failed)
    case Broken => !e && !c && !m && h != Some(true) && failed
    case Unset => !e && !c && !m && h == None && !failed
    case _ => false
  }

  /** The detection after a row was looked at. */
  predicate ByRow(before: Detection, row: Row, after: Detection) {
    if Settled(before) || RowSays(row, Unset) then after == before
    else RowSays(row, after.result) && after.state == if after.result == Broken then Failed else Completed
  }

  lemma ResolvedIs(row: Row)
    ensures ResolvedPatch(row) <==> UsedResolvedPatch(row)
  {
    var kind := Strip(row.appliedPatchKind);
    GivenStrip(row.backportedPatchPath);
    SaysWordIs(kind, "original");
    hide Strip, Given;
    assert LowerAscii(kind) == "" <==> kind == "";
  }

  lemma DetectedByRow(d: Detection, row: Row)
    ensures ByRow(d, row, Detected(d, row))
  {
    GivenStrip(row.appliedCommit);
    StatusIs(row.status);
    ResolvedIs(row);
    hide Strip, Given, SaysFailed, StatusFailed, ResolvedPatch, UsedResolvedPatch;
    var after := Detected(d, row);
    if Settled(d) {
    } else if row.equivalentExists {
      assert after == Detection(Completed, EquivalentExists);
      assert RowSays(row, EquivalentExists);
    } else if Strip(row.appliedCommit) != "" {
      assert RowSays(row, after.result);
    } else if row.mergedInTarget {
      assert RowSays(row, after.result);
    } else if row.hasConflict == Some(true) {
      assert RowSays(row, after.result);
    } else if SaysFailed(row.status) {
      assert RowSays(row, after.result);
    } else {
      match row.hasConflict
      case None => assert RowSays(row, Unset);
      case Some(b) => assert !b && RowSays(row, after.result);
    }
  }

  /** At most one verdict fits a row, so the detection after it is determined. */
  lemma RowSaysOne(row: Row, v: Verdict, w: Verdict)
    requires RowSays(row, v) && RowSays(row, w)
    ensures v == w
  {
    hide Given, StatusFailed, ResolvedPatch;
  }

  // ---- the three stages after an event ----

  /** The detection after an event. */
  predicate DetectionAfter(c: Case, row: Row, phase: Phase, s: PhaseState, d: Detection) {
    match phase
    case Checking =>
      if s == PhaseCompleted then ByRow(c.detection, row, d)
      else d == if s == PhaseFailed then Detection(Failed, Broken)
                else if s == PhaseRunning && c.detection.state == NotStarted
                then Detection(Running, c.detection.result) else c.detection
    case Resolving =>
      if c.detection.state == NotStarted && RowSays(row, Unset) then d == Detection(Completed, Conflict)
      else ByRow(c.detection, row, d)
    case Applying =>
      if s != PhaseCompleted then d == c.detection
      else ByRow(c.detection, row, d)
    case SkippedPhase => ByRow(c.detection, row, d)
    case FailedPhase =>
      if !Settled(c.detection) && RowSays(row, Unset) && c.detection.state != NotNeeded
      then d == Detection(Failed, Broken) else ByRow(c.detection, row, d)
    case OtherPhase => d == c.detection
  }

  /** What an event makes of the handling's state and result, once its detection is d. */
  function HandlingAfter(c: Case, row: Row, phase: Phase, s: PhaseState, d: Detection): (State, Verdict) {
    var h, patched := c.handling, Given(row.backportedPatchPath);
    if phase == Resolving && s == PhaseRunning then (Running, h.result)
    else if phase == Resolving && (s == PhaseFailed || StatusFailed(Strip(row.status))) then (Failed, Broken)
    else if phase == Resolving && row.equivalentExists then (Completed, EquivalentExists)
    else if phase == Resolving && patched then (Completed, BackportGenerated)
    else if phase == Applying && s == PhaseCompleted && h.state == NotStarted && d.result == CleanApply
    then (Completed, DirectApply)
    else if phase == Applying && s == PhaseCompleted && h.state == NotStarted && d.result == Conflict && patched
    then (Completed, BackportGenerated)
    else if phase == SkippedPhase && d.result in {EquivalentExists, AlreadyPresent} then (NotNeeded, EquivalentExists)
    else if phase == FailedPhase && d.result == Conflict && h.state in {NotStarted, Running} then (Failed, Broken)
    else (h.state, h.result)
  }

  /** What an event makes of the final stage. */
  function FinalAfter(c: Case, row: Row, phase: Phase, s: PhaseState): (State, Verdict) {
    var f, failed := c.final, StatusFailed(Strip(row.status));
    if Given(row.appliedCommit) && ((phase == Applying && s == PhaseCompleted) || phase == SkippedPhase)
    then (Completed, Applied)
    else if phase == SkippedPhase then (Completed, Skipped)
    else if phase == Applying && (s == PhaseFailed || failed) then (Failed, Broken)
    else if phase == Applying && s == PhaseRunning then (Running, Unset)
    else if phase == Resolving && s != PhaseRunning && s != PhaseFailed && !failed && !row.equivalentExists
            && Given(row.backportedPatchPath) then (NotStarted, ReadyToApply)
    else if phase == FailedPhase && FailsFinal(c, row) then (Failed, Broken)
    else (f.state, f.result)
  }

  /** A failure goes to the final stage when the detection was settled and the handling does not take it. */
  predicate FailsFinal(c: Case, row: Row) {
    var conflict := if Settled(c.detection) then c.detection.result == Conflict else RowSays(row, Conflict);
    (Settled(c.detection) || !RowSays(row, Unset) || c.detection.state == NotNeeded)
    && !(conflict && c.handling.state in {NotStarted, Running})
  }

  lemma CommitGiven(row: Row)
    ensures SummaryText(row.appliedCommit, 80) != "" <==> Given(row.appliedCommit)
  {
    SummaryTextBlank(row.appliedCommit, 80);
    GivenStrip(row.appliedCommit);
  }

  lemma DetectedOpen(d: Detection, row: Row)
    requires !Settled(d) && RowSays(row, Unset)
    ensures Detected(d, row) == d
  {
    DetectedByRow(d, row);
    hide Detected, RowSays;
  }

  lemma DetectedSettles(d: Detection, row: Row)
    requires !RowSays(row, Unset)
    ensures Settled(Detected(d, row))
  {
    DetectedByRow(d, row);
    hide Detected, RowSays;
  }

  lemma PhaseDetected(c: Case, row: Row, phase: Phase, s: PhaseState)
    ensures DetectionAfter(c, row, phase, s, AfterPhase(c, row, phase, s).detection)
  {
    DetectedByRow(c.detection, row);
    if !Settled(c.detection) && RowSays(row, Unset) { DetectedOpen(c.detection, row); }
    if !RowSays(row, Unset) { DetectedSettles(c.detection, row); }
    CommitGiven(row);
    CommitSays(row);
    hide Detected, RowSays, ByRow, SummaryText, Strip, Given, SaysFailed, StatusFailed, Resolved, AppliedHandling;
  }

  lemma CommitSays(row: Row)
    ensures Given(row.appliedCommit) ==> !RowSays(row, Unset)
  {
    hide Given, StatusFailed;
  }

  lemma PhaseHandled(c: Case, row: Row, phase: Phase, s: PhaseState)
    ensures var after := AfterPhase(c, row, phase, s);
            (after.handling.state, after.handling.result) == HandlingAfter(c, row, phase, s, after.detection)
  {
    GivenStrip(row.backportedPatchPath);
    StatusIs(Strip(row.status));
    hide Detected, SummaryText, Strip, Given, SaysFailed, StatusFailed;
  }

  lemma ConflictSaid(d: Detection, row: Row)
    ensures !Settled(d) ==>
              (Detected(d, row).result == Conflict <==>
               RowSays(row, Conflict) || (RowSays(row, Unset) && d.result == Conflict))
    ensures Settled(d) ==> Detected(d, row) == d
  {
    DetectedByRow(d, row);
    var after := Detected(d, row);
    if !Settled(d) && !RowSays(row, Unset) && RowSays(row, Conflict) { RowSaysOne(row, Conflict, after.result); }
    if RowSays(row, Unset) && RowSays(row, Conflict) { RowSaysOne(row, Unset, Conflict); }
    hide Detected, RowSays;
  }

  lemma PhaseFinal(c: Case, row: Row, phase: Phase, s: PhaseState)
    requires ConsistentDetection(c.detection)
    ensures var after := AfterPhase(c, row, phase, s);
            (after.final.state, after.final.result) == FinalAfter(c, row, phase, s)
  {
    GivenStrip(row.backportedPatchPath);
    CommitGiven(row);
    StatusIs(Strip(row.status));
    if phase == FailedPhase { FailedFinal(c, row); }
    hide Detected, SummaryText, Strip, Given, SaysFailed, StatusFailed, FailsFinal, AfterFailed;
  }

  lemma FailedFinal(c: Case, row: Row)
    requires ConsistentDetection(c.detection)
    ensures AfterFailed(c, row).final ==
            if FailsFinal(c, row) then c.final.(state := Failed, result := Broken) else c.final
  {
    ConflictSaid(c.detection, row);
    if !Settled(c.detection) && RowSays(row, Unset) { DetectedOpen(c.detection, row); }
    if !RowSays(row, Unset) { DetectedSettles(c.detection, row); }
    hide Detected, RowSays, SummaryText, Strip, Given;
  }

  // ---- notes ----

  /** The report kept with the handling: the row's explanation, in a resolution else its conflict, else the old one. */
  predicate ReportAfter(c: Case, row: Row, phase: Phase, report: string) {
    if row.backportExplanation != "" then report == SummaryText(row.backportExplanation, 2000)
    else if phase == Resolving && row.conflictReason != "" then report == SummaryText(row.conflictReason, 2000)
    else if phase == Resolving && row.conflictError != "" then report == SummaryText(row.conflictError, 2000)
    else report == c.handling.report
  }

  /** The engine kept: the row's, if it names one; a resolution, or one that shows at the application, drops it. */
  predicate EngineAfter(c: Case, row: Row, phase: Phase, s: PhaseState, d: Detection, engine: string) {
    if row.backportEngine != "" then engine == SummaryText(row.backportEngine, 80)
    else if phase == Resolving
            || (phase == Applying && s == PhaseCompleted && d.result == Conflict && c.handling.state == NotStarted
                && Given(row.backportedPatchPath)) then engine == ""
    else engine == c.handling.engine
  }

  lemma NoEngine()
    ensures SummaryText("", 80) == ""
  {}

  lemma NotesKept(c: Case, row: Row, phase: Phase, s: PhaseState)
    ensures var after := Updated(c, row, phase, s);
            ReportAfter(c, row, phase, after.handling.report)
            && EngineAfter(c, row, phase, s, after.detection, after.handling.engine)
  {
    NoEngine();
    GivenStrip(row.backportedPatchPath);
    hide Detected, SummaryText, Strip, Given, SaysFailed;
  }

  // ---- one event, one case ----

  /** The commit an applied case names is the row's; otherwise it stays. */
  predicate CommitAfter(c: Case, row: Row, phase: Phase, s: PhaseState, commit: string) {
    if Given(row.appliedCommit) && ((phase == Applying && s == PhaseCompleted) || phase == SkippedPhase)
    then commit == SummaryText(row.appliedCommit, 80) else commit == c.final.appliedCommit
  }

  ghost predicate Moves(c: Case, row: Row, phase: Phase, s: PhaseState, e: Case) {
    && e.row == c.row && e.commit == c.commit && e.title == c.title
    && DetectionAfter(c, row, phase, s, e.detection)
    && (e.handling.state, e.handling.result) == HandlingAfter(c, row, phase, s, e.detection)
    && ReportAfter(c, row, phase, e.handling.report)
    && EngineAfter(c, row, phase, s, e.detection, e.handling.engine)
    && (e.final.state, e.final.result) == FinalAfter(c, row, phase, s)
    && CommitAfter(c, row, phase, s, e.final.appliedCommit)
  }

  lemma RestKept(c: Case, row: Row, phase: Phase, s: PhaseState)
    ensures var e, moved := Updated(c, row, phase, s), AfterPhase(c, row, phase, s);
            && e.row == c.row && e.commit == c.commit && e.title == c.title
            && e.detection == moved.detection && e.final == moved.final
            && e.handling.state == moved.handling.state && e.handling.result == moved.handling.result
            && CommitAfter(c, row, phase, s, e.final.appliedCommit)
  {
    CommitGiven(row);
    hide Detected, SummaryText, Strip, Given, SaysFailed;
  }

  /** The whole table: what an event makes of a case of any run. */
  lemma EventExactly(c: Case, row: Row, phase: Phase, s: PhaseState)
    requires ConsistentDetection(c.detection)
    ensures Moves(c, row, phase, s, Updated(c, row, phase, s))
  {
    RestKept(c, row, phase, s);
    PhaseDetected(c, row, phase, s);
    PhaseHandled(c, row, phase, s);
    PhaseFinal(c, row, phase, s);
    NotesKept(c, row, phase, s);
    hide Updated, AfterPhase, DetectionAfter, HandlingAfter, FinalAfter, ReportAfter, EngineAfter, CommitAfter;
  }

  // ---- which case, under which name ----

  /** The first of three texts that is not empty. */
  predicate FirstOf(a: string, b: string, c: string, first: string) {
    if a != "" then first == a else if b != "" then first == b else first == c
  }

  /** The case a report row, or an event about no case yet, starts from. */
  predicate Begins(row: Row, index: int, c: Case) {
    && c.row == (if row.rowNumber != 0 then row.rowNumber else index)
    && FirstOf(row.commit, row.inputCommit, row.rowId, c.commit)
    && c.title == SummaryText(row.title, 2000)
    && ByRow(Detection(NotStarted, Unset), row, c.detection)
    && c.handling == Handling(NotStarted, Unset, "", "") && c.final == Final(NotStarted, Unset, "")
  }

  /** The commit an event is about. */
  function EventCommit(p: Progress): string {
    if p.row.commit != "" then p.row.commit
    else if p.row.inputCommit != "" then p.row.inputCommit else Strip(p.rowId)
  }

  function EventRow(p: Progress): int {
    if p.row.rowNumber != 0 then p.row.rowNumber else p.currentIndex
  }

  /** The event's row number, or its commit up to letter case. */
  predicate Matches(c: Case, p: Progress, fold: string -> string) {
    c.row == EventRow(p) || fold(c.commit) == fold(EventCommit(p))
  }

  /** A case as the event names it: by its commit, and by its title if it has one. */
  predicate Renames(c: Case, p: Progress, e: Case) {
    && e.commit == EventCommit(p) && e.title == (if p.row.title != "" then SummaryText(p.row.title, 2000) else c.title)
    && e.row == c.row && e.detection == c.detection && e.handling == c.handling && e.final == c.final
  }

  ghost predicate BecomesBy(c: Case, p: Progress, e: Case) {
    exists named :: Renames(c, p, named) && Moves(named, p.row, p.phase, p.phaseState, e)
  }

  /** An event without a row id changes nothing. Otherwise it renames and moves the first case it matches, or one that
      begins with it and comes last. */
  ghost predicate Progresses(cases: seq<Case>, p: Progress, fold: string -> string, after: seq<Case>) {
    if !Given(p.rowId) then after == cases
    else
      && (forall k: nat | FirstMatch(cases, p, fold, k) ::
           |after| == |cases| && (forall i | 0 <= i < |cases| && i != k :: after[i] == cases[i])
           && BecomesBy(cases[k], p, after[k]))
      && ((forall k | 0 <= k < |cases| :: !Matches(cases[k], p, fold)) ==>
           |after| == |cases| + 1 && (forall i | 0 <= i < |cases| :: after[i] == cases[i])
           && exists added :: Begins(p.row, if EventRow(p) != 0 then EventRow(p) else |cases| + 1, added)
                              && BecomesBy(added, p, after[|cases|]))
  }

  ghost predicate FirstMatch(cases: seq<Case>, p: Progress, fold: string -> string, k: nat) {
    k < |cases| && Matches(cases[k], p, fold) && forall j | 0 <= j < k :: !Matches(cases[j], p, fold)
  }

  lemma EventNames(p: Progress)
    ensures CommitOf(p) == EventCommit(p) && NumberOf(p) == EventRow(p)
    ensures Given(p.rowId) <==> Strip(p.rowId) != ""
    ensures Given(p.rowId) ==> EventCommit(p) != ""
  {
    GivenStrip(p.rowId);
    hide Strip, Given;
  }

  lemma MatchesIs(c: Case, p: Progress, fold: string -> string)
    requires Given(p.rowId)
    ensures Matches(c, p, fold) <==> About(c, p, fold)
  {
    EventNames(p);
    hide Given, EventCommit, CommitOf, NumberOf, EventRow;
  }

  lemma TargetIs(cases: seq<Case>, p: Progress, fold: string -> string)
    requires Given(p.rowId)
    ensures var k := Target(cases, p, fold, 0);
            && (forall m: nat :: FirstMatch(cases, p, fold, m) <==> m == k < |cases|)
            && (k == |cases| ==> forall m | 0 <= m < |cases| :: !Matches(cases[m], p, fold))
            && (k < |cases| ==> Matches(cases[k], p, fold))
  {
    forall i | 0 <= i < |cases| ensures Matches(cases[i], p, fold) <==> About(cases[i], p, fold) {
      MatchesIs(cases[i], p, fold);
    }
    hide Matches, About, Given;
    var k := Target(cases, p, fold, 0);
    hide Target;
    if k < |cases| {
      assert FirstMatch(cases, p, fold, k);
    }
  }

  lemma BeginsSo(row: Row, index: int)
    ensures Begins(row, index, NewCase(row, index))
  {
    DetectedByRow(Detection(NotStarted, Unset), row);
    hide Detected, ByRow, SummaryText;
  }

  lemma NamedSo(c: Case, p: Progress)
    requires Given(p.rowId)
    ensures Renames(c, p, Named(c, p))
  {
    EventNames(p);
    hide Given, SummaryText, CommitOf, EventCommit;
  }

  lemma BecomesSo(c: Case, p: Progress)
    requires Given(p.rowId) && Consistent(c)
    ensures BecomesBy(c, p, Updated(Named(c, p), p.row, p.phase, p.phaseState))
  {
    NamedSo(c, p);
    NamedConsistent(c, p);
    var named := Named(c, p);
    EventExactly(named, p.row, p.phase, p.phaseState);
    hide Given, Named, Updated, Moves, Renames, ConsistentDetection, ConsistentFinal;
  }

  lemma ChangesSo(cases: seq<Case>, p: Progress, fold: string -> string)
    requires Given(p.rowId) && AllConsistent(cases)
    ensures Progresses(cases, p, fold, AfterProgress(cases, p, fold))
  {
    hide Given, Strip, Updated, NewCase, Named, Matches, Target, BecomesBy, Begins, AfterProgress, Consistent, EventRow,
         NumberOf, FirstMatch;
    TargetIs(cases, p, fold);
    ProgressIs(cases, p, fold);
    EventNames(p);
    var k := Target(cases, p, fold, 0);
    if k < |cases| {
      BecomesSo(cases[k], p);
    } else {
      var index := if EventRow(p) != 0 then EventRow(p) else |cases| + 1;
      BeginsSo(p.row, index);
      NewCaseConsistent(p.row, index);
      BecomesSo(NewCase(p.row, index), p);
    }
  }

  /** What an event makes of the cases of any run. */
  lemma ProgressExactly(rows: seq<Row>, events: seq<Progress>, p: Progress, fold: string -> string)
    ensures var cases := AfterRun(Initial(rows), events, fold);
            Progresses(cases, p, fold, AfterProgress(cases, p, fold))
  {
    hide *;
    EveryReachableCaseConsistent(rows, events, fold);
    var cases := AfterRun(Initial(rows), events, fold);
    if Given(p.rowId) {
      ChangesSo(cases, p, fold);
    } else {
      NothingChanges(cases, p, fold);
    }
  }

  lemma NothingChanges(cases: seq<Case>, p: Progress, fold: string -> string)
    requires !Given(p.rowId)
    ensures Progresses(cases, p, fold, AfterProgress(cases, p, fold))
  {
    EventNames(p);
    hide Given, Strip, Updated, NewCase, Named, Target;
  }

  /** A run starts with one case for each row of its report, in order. */
  lemma InitialExactly(rows: seq<Row>)
    ensures |Initial(rows)| == |rows| && forall i | 0 <= i < |rows| :: Begins(rows[i], i + 1, Initial(rows)[i])
  {
    hide Begins, NewCase;
    forall i | 0 <= i < |rows| ensures Begins(rows[i], i + 1, Initial(rows)[i]) { BeginsSo(rows[i], i + 1); }
  }

  // ---- the words of a summary ----

  /** Positions of the characters of s that are not white space, in order. */
  ghost predicate Letters(s: string, at: seq<nat>) {
    && Rising(at)
    && forall p: nat :: p in at <==> p < |s| && !IsSpace(s[p])
  }

  /** `text` holds these characters of s: those that were neighbours still are, and one space stands between others. */
  ghost predicate Spaced(s: string, at: seq<nat>, text: string, to: seq<nat>) {
    && |to| == |at| && (forall k | 0 <= k < |at| :: at[k] < |s| && to[k] < |text| && text[to[k]] == s[at[k]])
    && (forall k | 0 < k < |at| ::
         if at[k] == at[k - 1] + 1 then to[k] == to[k - 1] + 1
         else to[k] == to[k - 1] + 2 && text[to[k] - 1] == ' ')
    && (if at == [] then text == "" else to[0] == 0 && to[|to| - 1] == |text| - 1)
  }

  lemma LettersNext(s: string, n: nat, at: seq<nat>)
    requires n < |s| && Letters(s[..n], at)
    ensures Letters(s[..n + 1], if IsSpace(s[n]) then at else at + [n])
  {
    hide IsSpace, Rising;
    assert forall p: nat | p < n :: s[..n + 1][p] == s[..n][p];
    assert s[..n + 1][n] == s[n];
    RisingMore(at, n);
  }

  /** The next character is a neighbour of the last one kept exactly when it is not white space before it. */
  lemma LastLetter(s: string, n: nat, at: seq<nat>)
    requires 0 < n < |s| && Letters(s[..n], at)
    ensures !IsSpace(s[n - 1]) <==> at != [] && at[|at| - 1] == n - 1
  {
    assert s[..n][n - 1] == s[n - 1];
    hide IsSpace;
    if n - 1 in at {
      var k :| 0 <= k < |at| && at[k] == n - 1;
      assert at[|at| - 1] in at;
    }
    if at != [] { assert at[|at| - 1] in at; }
  }

  lemma SpacedNext(s: string, n: nat, at: seq<nat>, text: string, to: seq<nat>)
    requires n < |s| && Letters(s[..n], at) && Spaced(s, at, text, to)
    ensures var near := at != [] && at[|at| - 1] == n - 1;
            var more := if near || at == [] then text + [s[n]] else text + " " + [s[n]];
            Spaced(s, at + [n], more, to + [|more| - 1])
  {
    forall k | 0 <= k < |at| ensures at[k] < n { assert at[k] in at; }
    hide Letters;
  }

  lemma SquashedNext(s: string, n: nat)
    requires n < |s|
    ensures var done := Squashed(s, n);
            Squashed(s, n + 1) == if IsSpace(s[n]) then done
                                  else if done == "" || (n > 0 && !IsSpace(s[n - 1])) then done + [s[n]]
                                  else done + " " + [s[n]]
  {
    hide IsSpace;
  }

  lemma {:induction false} SquashedExactly(s: string, n: nat) returns (at: seq<nat>, to: seq<nat>)
    requires n <= |s|
    ensures Letters(s[..n], at) && Spaced(s, at, Squashed(s, n), to)
    decreases n
  {
    hide *;
    if n == 0 {
      at, to := [], [];
      NoLetters(s);
    } else {
      var m := n - 1;
      at, to := SquashedExactly(s, m);
      LettersNext(s, m, at);
      SquashedNext(s, m);
      if !IsSpace(s[m]) {
        if m > 0 { LastLetter(s, m, at); }
        NothingKept(s, m, at, to);
        SpacedNext(s, m, at, Squashed(s, m), to);
        at, to := at + [m], to + [|Squashed(s, n)| - 1];
      }
    }
  }

  lemma NoLetters(s: string)
    ensures Letters(s[..0], []) && Spaced(s, [], Squashed(s, 0), [])
  {}

  lemma NothingKept(s: string, m: nat, at: seq<nat>, to: seq<nat>)
    requires m <= |s| && Letters(s[..m], at) && Spaced(s, at, Squashed(s, m), to)
    ensures Squashed(s, m) == "" <==> at == []
    ensures m == 0 ==> at == []
  {
    if at != [] { assert at[0] in at; }
    hide Squashed;
  }

  /**
   A summary keeps the words of a text, in order and with one space between them.  One that is too long ends with an
   ellipsis after as much of that as fits, without white space before it.
   */
  lemma SummaryExactly(s: string, limit: nat) returns (at: seq<nat>, to: seq<nat>, full: string, cut: string)
    requires limit > 0
    ensures Letters(s, at) && Spaced(s, at, full, to)
    ensures |full| <= limit ==> SummaryText(s, limit) == full
    ensures |full| > limit ==> SummaryText(s, limit) == cut + "\U{2026}" && cut <= full[..limit - 1]
    ensures |full| > limit ==> AllSpace(full[|cut|..limit - 1]) && (cut != "" ==> !IsSpace(cut[|cut| - 1]))
  {
    at, to := SquashedExactly(s, |s|);
    assert s[..|s|] == s;
    full, cut := Squashed(s, |s|), "";
    hide Letters, Spaced, Squashed;
    if |full| > limit {
      cut := StripRight(full[..limit - 1]);
      var tail := StripRightSplits(full[..limit - 1]);
      StripRightEnds(full[..limit - 1]);
      hide StripRight;
      assert full[|cut|..limit - 1] == tail;
    }
  }

  lemma {:induction false} StripRightEnds(s: string)
    ensures StripRight(s) != "" ==> !IsSpace(StripRight(s)[|StripRight(s)| - 1])
    decreases |s|
  {
    if s == "" || !IsSpace(s[|s| - 1]) {
    } else {
      StripRightEnds(s[..|s| - 1]);
    }
  }
}
