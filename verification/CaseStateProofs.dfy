/**
 What holds of every case over every sequence of progress events, and how the counters divide the cases.
 */
module CaseStateProofs {
  import opened Text
  import opened CaseState

  // ---- summary texts ----

  lemma {:induction false} SquashedEmpty(s: string, n: nat)
    requires n <= |s|
    ensures Squashed(s, n) == "" <==> AllSpace(s[..n])
    ensures |Squashed(s, n)| <= n
    decreases n
  {
    if n == 0 {
    } else {
      SquashedEmpty(s, n - 1);
      if n > 1 { SquashedEmpty(s, n - 2); }
      assert s[..n][n - 1] == s[n - 1];
      assert forall i | 0 <= i < n - 1 :: s[..n][i] == s[..n - 1][i];
    }
  }

  lemma {:induction false} StripRightEmpty(s: string)
    ensures StripRight(s) == "" <==> AllSpace(s)
    ensures |StripRight(s)| <= |s|
    decreases |s|
  {
    if s == "" || !IsSpace(s[|s| - 1]) {
    } else {
      StripRightEmpty(s[..|s| - 1]);
    }
  }

  lemma {:induction false} StripLeftEmpty(s: string)
    ensures AllSpace(StripLeft(s)) <==> AllSpace(s)
    decreases |s|
  {
    if s == "" || !IsSpace(s[0]) {
    } else {
      assert forall i | 0 < i < |s| :: s[i] == s[1..][i - 1];
      StripLeftEmpty(s[1..]);
    }
  }

  /** A shortened text is empty exactly when the value is blank, and never longer than its limit. */
  lemma SummaryTextBlank(s: string, limit: nat)
    requires limit > 0
    ensures SummaryText(s, limit) == "" <==> Strip(s) == ""
    ensures |SummaryText(s, limit)| <= limit
  {
    SquashedEmpty(s, |s|);
    assert s[..|s|] == s;
    StripLeftEmpty(s);
    StripRightEmpty(StripLeft(s));
    var text := Squashed(s, |s|);
    if |text| > limit { StripRightEmpty(text[..limit - 1]); }
  }

  // ---- every reachable case is consistent ----

  predicate Settled(d: Detection) {
    d.state == Completed || d.state == Failed
  }

  predicate ConsistentDetection(d: Detection) {
    match d.state
    case NotStarted => d.result == Unset
    case Running => d.result == Unset
    case Completed =>
      d.result == EquivalentExists || d.result == AlreadyPresent || d.result == Conflict || d.result == CleanApply
    case Failed => d.result == Broken
    case NotNeeded => false
  }

  predicate ConsistentFinal(f: Final) {
    match f.state
    case NotStarted => f.result == Unset || f.result == ReadyToApply
    case Running => f.result == Unset
    case Completed => f.result == Applied || f.result == Skipped
    case Failed => f.result == Broken
    case NotNeeded => false
  }

  /** An applied case has a completed final stage, a commit and a settled detection; a direct application was
      detected as clean unless a later check failed. */
  predicate Consistent(c: Case) {
    && ConsistentDetection(c.detection)
    && ConsistentFinal(c.final)
    && (c.final.result == Applied ==> c.final.state == Completed && c.final.appliedCommit != "" && Settled(c.detection))
    && (c.handling.result == DirectApply ==> c.detection.result == CleanApply || c.detection.result == Broken)
  }

  lemma DetectedConsistent(d: Detection, row: Row)
    requires ConsistentDetection(d)
    ensures ConsistentDetection(Detected(d, row))
    ensures Settled(d) ==> Detected(d, row) == d
    ensures Strip(row.appliedCommit) != "" ==> Settled(Detected(d, row))
  {
    hide Strip, UsedResolvedPatch, SaysFailed;
  }

  lemma ResolvingConsistent(c: Case, row: Row, s: PhaseState)
    requires Consistent(c)
    ensures Consistent(AfterResolving(c, row, s))
  {
    DetectedConsistent(c.detection, row);
    hide Strip, SummaryText, SaysFailed, Detected;
  }

  lemma ApplyingConsistent(c: Case, row: Row, s: PhaseState)
    requires Consistent(c)
    ensures Consistent(AfterApplying(c, row, s))
  {
    DetectedConsistent(c.detection, row);
    SummaryTextBlank(row.appliedCommit, 80);
    hide Strip, SummaryText, SaysFailed, Detected;
  }

  lemma CheckingConsistent(c: Case, row: Row, s: PhaseState)
    requires Consistent(c)
    ensures Consistent(AfterChecking(c, row, s)) && Consistent(AfterFailed(c, row))
  {
    DetectedConsistent(c.detection, row);
    hide Strip, SummaryText, SaysFailed, Detected;
  }

  lemma SkippedConsistent(c: Case, row: Row)
    requires Consistent(c)
    ensures Consistent(AfterSkipped(c, row))
  {
    DetectedConsistent(c.detection, row);
    SummaryTextBlank(row.appliedCommit, 80);
    hide Strip, SummaryText, SaysFailed, Detected;
  }

  /** Every event keeps a case consistent. */
  lemma UpdateKeepsConsistent(c: Case, row: Row, phase: Phase, s: PhaseState)
    requires Consistent(c)
    ensures Consistent(Updated(c, row, phase, s))
  {
    ResolvingConsistent(c, row, s);
    ApplyingConsistent(c, row, s);
    CheckingConsistent(c, row, s);
    SkippedConsistent(c, row);
    hide AfterChecking, AfterResolving, AfterApplying, AfterSkipped, AfterFailed;
  }

  // ---- the handling stage ----

  predicate HandlingInStep(h: Handling) {
    match h.state
    case NotStarted => h.result == Unset
    case Running => h.result == Unset
    case Completed => h.result == EquivalentExists || h.result == BackportGenerated || h.result == DirectApply
    case Failed => h.result == Broken
    case NotNeeded => h.result == EquivalentExists
  }

  /** In step, or running again under the result of an earlier attempt. */
  predicate HandlingKnown(h: Handling) {
    HandlingInStep(h)
    || (h.state == Running
        && (h.result == EquivalentExists || h.result == BackportGenerated || h.result == DirectApply
            || h.result == Broken))
  }

  /** A resolution starts on a case that already has a handling result. */
  predicate Reopens(h: Handling, phase: Phase, s: PhaseState) {
    phase == Resolving && s == PhaseRunning && h.result != Unset
  }

  lemma ResolvingHandling(c: Case, row: Row, s: PhaseState)
    requires HandlingKnown(c.handling)
    ensures var after := AfterResolving(c, row, s).handling;
            HandlingKnown(after) && (HandlingInStep(c.handling) ==>
              (HandlingInStep(after) <==> !Reopens(c.handling, Resolving, s)))
  {
    hide Strip, SummaryText, SaysFailed, Detected;
  }

  lemma ApplyingHandling(c: Case, row: Row, s: PhaseState)
    requires HandlingKnown(c.handling)
    ensures var after := AfterApplying(c, row, s).handling;
            HandlingKnown(after) && (HandlingInStep(c.handling) ==> HandlingInStep(after))
  {
    hide Strip, SummaryText, SaysFailed, Detected;
  }

  lemma OthersHandling(c: Case, row: Row, s: PhaseState)
    requires HandlingKnown(c.handling)
    ensures AfterChecking(c, row, s).handling == c.handling
    ensures forall after | after == AfterSkipped(c, row).handling || after == AfterFailed(c, row).handling ::
              HandlingKnown(after) && (HandlingInStep(c.handling) ==> HandlingInStep(after))
  {
    hide Strip, SummaryText, SaysFailed, Detected;
  }

  lemma NotedInStep(h: Handling, row: Row)
    ensures HandlingInStep(Noted(h, row)) <==> HandlingInStep(h)
    ensures HandlingKnown(Noted(h, row)) <==> HandlingKnown(h)
  {
    hide SummaryText;
  }

  /** One event keeps the handling stage in step if and only if it does not reopen it. */
  lemma HandlingStep(c: Case, row: Row, phase: Phase, s: PhaseState)
    requires HandlingKnown(c.handling)
    ensures var after := Updated(c, row, phase, s).handling;
            HandlingKnown(after) && (HandlingInStep(c.handling) ==>
              (HandlingInStep(after) <==> !Reopens(c.handling, phase, s)))
  {
    ResolvingHandling(c, row, s);
    ApplyingHandling(c, row, s);
    OthersHandling(c, row, s);
    NotedInStep(AfterPhase(c, row, phase, s).handling, row);
    hide AfterChecking, AfterResolving, AfterApplying, AfterSkipped, AfterFailed, Noted, HandlingInStep, HandlingKnown;
  }

  // ---- detection only moves forward ----

  function Rank(d: Detection): nat {
    match d.state
    case NotStarted => 0
    case Running => 1
    case Completed => 2
    case Failed => 3
    case NotNeeded => 4
  }

  predicate FailedCheck(phase: Phase, s: PhaseState) {
    phase == Checking && s == PhaseFailed
  }

  /** What one event may do to a detection: never lower it, and change a completed one only by a failed check. */
  lemma DetectionStep(c: Case, row: Row, phase: Phase, s: PhaseState)
    requires ConsistentDetection(c.detection)
    ensures var after := Updated(c, row, phase, s).detection;
            && Rank(c.detection) <= Rank(after)
            && (Settled(c.detection) ==>
                  after == if FailedCheck(phase, s) then Detection(Failed, Broken) else c.detection)
  {
    DetectedConsistent(c.detection, row);
    hide Strip, SummaryText, SaysFailed, UsedResolvedPatch;
  }

  /** Evidence in one event for a detection result. */
  predicate Evidence(result: Verdict, row: Row, phase: Phase, s: PhaseState) {
    match result
    case EquivalentExists => row.equivalentExists
    case AlreadyPresent => row.mergedInTarget
    case Conflict =>
      row.hasConflict == Some(true) || (Strip(row.appliedCommit) != "" && UsedResolvedPatch(row)) || phase == Resolving
    case CleanApply =>
      row.hasConflict == Some(false)
      || (Strip(row.appliedCommit) != "" && (phase == Applying || !UsedResolvedPatch(row)))
    case Broken => SaysFailed(row.status) || FailedCheck(phase, s) || phase == FailedPhase
    case _ => false
  }

  lemma AppliedEvidence(row: Row, phase: Phase, s: PhaseState)
    ensures phase == Resolving ==> Evidence(Conflict, row, phase, s)
    ensures phase == Applying && Strip(row.appliedCommit) != "" ==> Evidence(CleanApply, row, phase, s)
    ensures FailedCheck(phase, s) || phase == FailedPhase ==> Evidence(Broken, row, phase, s)
  {
    hide Strip, SaysFailed, UsedResolvedPatch;
  }

  lemma DetectedByEvidence(d: Detection, row: Row, phase: Phase, s: PhaseState)
    requires !Settled(d) && Settled(Detected(d, row))
    ensures Evidence(Detected(d, row).result, row, phase, s)
  {
    hide Strip, SaysFailed, UsedResolvedPatch;
  }

  lemma PhaseDetection(c: Case, row: Row, phase: Phase, s: PhaseState)
    ensures var after, d := Updated(c, row, phase, s).detection, Detected(c.detection, row);
            || after == c.detection || after == d || after.state == Running
            || (phase == Resolving && after == Detection(Completed, Conflict))
            || (phase == Applying && SummaryText(row.appliedCommit, 80) != ""
                && after == Detection(Completed, CleanApply))
            || ((FailedCheck(phase, s) || phase == FailedPhase) && after == Detection(Failed, Broken))
  {
    hide Strip, SummaryText, SaysFailed, UsedResolvedPatch, Detected, Resolved, AppliedHandling, Noted;
  }

  /** A detection is settled only by evidence in the very event that settles it. */
  lemma SettledByEvidence(c: Case, row: Row, phase: Phase, s: PhaseState)
    requires ConsistentDetection(c.detection)
    requires var after := Updated(c, row, phase, s).detection; Settled(after) && after != c.detection
    ensures Evidence(Updated(c, row, phase, s).detection.result, row, phase, s)
  {
    SummaryTextBlank(row.appliedCommit, 80);
    var d := Detected(c.detection, row);
    DetectedConsistent(c.detection, row);
    PhaseDetection(c, row, phase, s);
    if !Settled(c.detection) && Settled(d) { DetectedByEvidence(c.detection, row, phase, s); }
    AppliedEvidence(row, phase, s);
    hide Strip, SummaryText, SaysFailed, UsedResolvedPatch, Detected, Updated, ConsistentDetection, Evidence;
  }

  /** A case becomes applied exactly when an application completes, or a skip is reported, with a commit. */
  lemma BecomesAppliedExactly(c: Case, row: Row, phase: Phase, s: PhaseState)
    requires c.final.result != Applied
    ensures Updated(c, row, phase, s).final.result == Applied <==>
            Strip(row.appliedCommit) != "" && ((phase == Applying && s == PhaseCompleted) || phase == SkippedPhase)
  {
    SummaryTextBlank(row.appliedCommit, 80);
    hide Strip, SummaryText, SaysFailed, Detected;
  }

  // ---- one event touches one case ----

  /** An event changes at most one case, the first it is about; it adds one only when there is none. */
  lemma OneCaseChanges(cases: seq<Case>, p: Progress, fold: string -> string)
    ensures var after := AfterProgress(cases, p, fold);
            var k := Target(cases, p, fold, 0);
            && |after| == (if k == |cases| && Strip(p.rowId) != "" then |cases| + 1 else |cases|)
            && (forall i | 0 <= i < |cases| && i != k :: after[i] == cases[i])
            && (forall i | 0 <= i < |cases| :: after[i].row == cases[i].row)
  {
    hide Strip, SummaryText, SaysFailed, Detected, About, Target;
  }

  lemma NewCaseConsistent(row: Row, index: int)
    ensures Consistent(NewCase(row, index))
  {
    DetectedConsistent(Detection(NotStarted, Unset), row);
    hide Strip, SummaryText, SaysFailed, Detected;
  }

  ghost predicate AllConsistent(cases: seq<Case>) {
    forall i | 0 <= i < |cases| :: Consistent(cases[i])
  }

  lemma ProgressKeepsConsistent(cases: seq<Case>, p: Progress, fold: string -> string)
    requires AllConsistent(cases)
    ensures AllConsistent(AfterProgress(cases, p, fold))
  {
    if Strip(p.rowId) != "" {
      var k := Target(cases, p, fold, 0);
      var added := NewCase(p.row, if NumberOf(p) != 0 then NumberOf(p) else |cases| + 1);
      NewCaseConsistent(p.row, if NumberOf(p) != 0 then NumberOf(p) else |cases| + 1);
      var base := if k < |cases| then cases[k] else added;
      assert Consistent(Named(base, p));
      UpdateKeepsConsistent(Named(base, p), p.row, p.phase, p.phaseState);
      hide Consistent, Updated, NewCase, Named, Target, Strip;
    }
  }

  /**
   In every run, from the cases of any report through any sequence of events, every case is consistent: an
   applied case has a completed final stage, a commit and a settled detection.
   */
  lemma {:induction false} EveryReachableCaseConsistent(rows: seq<Row>, events: seq<Progress>, fold: string -> string)
    ensures AllConsistent(AfterRun(Initial(rows), events, fold))
    decreases |events|
  {
    hide Consistent, AfterProgress, NewCase;
    if events == [] {
      forall i | 0 <= i < |rows| ensures Consistent(Initial(rows)[i]) {
        NewCaseConsistent(rows[i], i + 1);
      }
    } else {
      var n := |events| - 1;
      EveryReachableCaseConsistent(rows, events[..n], fold);
      ProgressKeepsConsistent(AfterRun(Initial(rows), events[..n], fold), events[n], fold);
    }
  }

  /** Event k of a run finds case i, or adds it. */
  ghost predicate Concerns(cases: seq<Case>, events: seq<Progress>, fold: string -> string, k: nat, i: nat) {
    k < |events| && Strip(events[k].rowId) != ""
    && Target(AfterRun(cases, events[..k], fold), events[k], fold, 0) == i
  }

  lemma ConcernsExtends(cases: seq<Case>, events: seq<Progress>, fold: string -> string, k: nat, i: nat)
    requires events != [] && k < |events| - 1
    ensures Concerns(cases, events[..|events| - 1], fold, k, i) <==> Concerns(cases, events, fold, k, i)
    ensures events[..|events| - 1][k] == events[k]
  {
    assert events[..|events| - 1][..k] == events[..k];
    hide AfterRun, Target, Strip;
  }

  /** A failed check of case i occurs among the events. */
  ghost predicate CheckFails(cases: seq<Case>, events: seq<Progress>, fold: string -> string, i: nat) {
    exists k: nat :: Concerns(cases, events, fold, k, i) && FailedCheck(events[k].phase, events[k].phaseState)
  }

  lemma CheckFailsExtends(cases: seq<Case>, events: seq<Progress>, fold: string -> string, i: nat)
    requires events != [] && CheckFails(cases, events[..|events| - 1], fold, i)
    ensures CheckFails(cases, events, fold, i)
  {
    var before := events[..|events| - 1];
    var k: nat :| Concerns(cases, before, fold, k, i) && FailedCheck(before[k].phase, before[k].phaseState);
    ConcernsExtends(cases, events, fold, k, i);
    hide Concerns;
  }

  lemma LastConcerns(cases: seq<Case>, events: seq<Progress>, fold: string -> string, i: nat)
    requires events != []
    ensures var n := |events| - 1;
            Concerns(cases, events, fold, n, i) <==>
            Strip(events[n].rowId) != "" && Target(AfterRun(cases, events[..n], fold), events[n], fold, 0) == i
  {}

  lemma ProgressDetection(cases: seq<Case>, p: Progress, fold: string -> string, i: nat)
    requires i < |cases| && AllConsistent(cases)
    ensures var after := AfterProgress(cases, p, fold);
            && i < |after|
            && Rank(cases[i].detection) <= Rank(after[i].detection)
            && (Settled(cases[i].detection) ==>
                  after[i].detection == cases[i].detection
                  || (FailedCheck(p.phase, p.phaseState) && after[i].detection == Detection(Failed, Broken)
                      && Strip(p.rowId) != "" && Target(cases, p, fold, 0) == i))
  {
    OneCaseChanges(cases, p, fold);
    assert Consistent(cases[i]);
    DetectionStep(Named(cases[i], p), p.row, p.phase, p.phaseState);
    hide Updated, NewCase, SummaryText, Strip, Target, Rank;
  }

  /** What a run may have done to the detection of case i. */
  ghost predicate DetectionKept(cases: seq<Case>, events: seq<Progress>, fold: string -> string, i: nat)
    requires i < |cases|
  {
    var after := AfterRun(cases, events, fold);
    && i < |after|
    && Rank(cases[i].detection) <= Rank(after[i].detection)
    && (Settled(cases[i].detection) ==>
          after[i].detection == cases[i].detection
          || (after[i].detection == Detection(Failed, Broken) && CheckFails(cases, events, fold, i)))
  }

  lemma DetectionKeptNext(cases: seq<Case>, events: seq<Progress>, fold: string -> string, i: nat)
    requires i < |cases| && events != []
    requires DetectionKept(cases, events[..|events| - 1], fold, i)
    requires AllConsistent(AfterRun(cases, events[..|events| - 1], fold))
    ensures DetectionKept(cases, events, fold, i)
  {
    var n := |events| - 1;
    var before := AfterRun(cases, events[..n], fold);
    ProgressDetection(before, events[n], fold, i);
    LastConcerns(cases, events, fold, i);
    if CheckFails(cases, events[..n], fold, i) { CheckFailsExtends(cases, events, fold, i); }
    FailedStays(before[i].detection);
    assert AfterRun(cases, events, fold) == AfterProgress(before, events[n], fold);
    hide AllConsistent, AfterProgress, Rank, Concerns, Target, Strip, AfterRun;
  }

  /**
   Over any sequence of events a case's detection never goes down in not started, running, completed, failed,
   and a settled result stays as it is unless a failed check of that case turns it into a failure.
   */
  lemma {:induction false} DetectionNeverGoesDown(
      cases: seq<Case>, events: seq<Progress>, fold: string -> string, i: nat)
    requires i < |cases| && AllConsistent(cases)
    ensures AllConsistent(AfterRun(cases, events, fold))
    ensures DetectionKept(cases, events, fold, i)
    decreases |events|
  {
    hide Consistent, AfterProgress, Rank;
    if events == [] {
    } else {
      hide AllConsistent, DetectionKept;
      var n := |events| - 1;
      DetectionNeverGoesDown(cases, events[..n], fold, i);
      ProgressKeepsConsistent(AfterRun(cases, events[..n], fold), events[n], fold);
      DetectionKeptNext(cases, events, fold, i);
    }
  }

  lemma FailedStays(d: Detection)
    ensures d == Detection(Failed, Broken) ==> Settled(d)
  {}

  /** The row case i was made from, or an event about case i, accounts for a detection result of it. */
  ghost predicate Accounted(
      result: Verdict, rows: seq<Row>, events: seq<Progress>, fold: string -> string, i: nat)
  {
    (i < |rows| && Evidence(result, rows[i], OtherPhase, OtherState))
    || exists k: nat :: Concerns(Initial(rows), events, fold, k, i)
                        && Evidence(result, events[k].row, events[k].phase, events[k].phaseState)
  }

  ghost predicate CaseAccounted(c: Case, rows: seq<Row>, events: seq<Progress>, fold: string -> string, i: nat) {
    Settled(c.detection) ==> Accounted(c.detection.result, rows, events, fold, i)
  }

  lemma AccountedExtends(c: Case, rows: seq<Row>, events: seq<Progress>, fold: string -> string, i: nat)
    requires events != [] && CaseAccounted(c, rows, events[..|events| - 1], fold, i)
    ensures CaseAccounted(c, rows, events, fold, i)
  {
    hide Evidence, Initial;
    var before := events[..|events| - 1];
    if Settled(c.detection) && !(i < |rows| && Evidence(c.detection.result, rows[i], OtherPhase, OtherState)) {
      var k: nat :| Concerns(Initial(rows), before, fold, k, i)
                    && Evidence(c.detection.result, before[k].row, before[k].phase, before[k].phaseState);
      ConcernsExtends(Initial(rows), events, fold, k, i);
      hide Concerns;
    }
  }

  lemma NewCaseAccounted(row: Row, index: int, phase: Phase, s: PhaseState)
    ensures var d := NewCase(row, index).detection; Settled(d) ==> Evidence(d.result, row, OtherPhase, OtherState)
    ensures var d := NewCase(row, index).detection; Settled(d) ==> Evidence(d.result, row, phase, s)
  {
    hide Strip, SummaryText, SaysFailed, UsedResolvedPatch;
  }

  lemma ByLastEvent(result: Verdict, rows: seq<Row>, events: seq<Progress>, fold: string -> string, i: nat)
    requires events != [] && Concerns(Initial(rows), events, fold, |events| - 1, i)
    requires var p := events[|events| - 1]; Evidence(result, p.row, p.phase, p.phaseState)
    ensures Accounted(result, rows, events, fold, i)
  {
    hide Concerns, Evidence, Initial;
  }

  /** The case an event finds or adds is accounted for after it. */
  lemma EventAccounts(c: Case, rows: seq<Row>, events: seq<Progress>, fold: string -> string, i: nat)
    requires events != [] && Concerns(Initial(rows), events, fold, |events| - 1, i)
    requires Consistent(c) && CaseAccounted(c, rows, events, fold, i)
    ensures var p := events[|events| - 1];
            CaseAccounted(Updated(c, p.row, p.phase, p.phaseState), rows, events, fold, i)
  {
    var p := events[|events| - 1];
    var after := Updated(c, p.row, p.phase, p.phaseState);
    if Settled(after.detection) && after.detection != c.detection {
      SettledByEvidence(c, p.row, p.phase, p.phaseState);
      hide *;
      ByLastEvent(after.detection.result, rows, events, fold, i);
    }
    hide Accounted, Updated;
  }

  /** The case an event starts from: the one it finds, or the one it adds. */
  function Base(cases: seq<Case>, p: Progress, fold: string -> string): Case {
    var k := Target(cases, p, fold, 0);
    if k < |cases| then cases[k]
    else NewCase(p.row, if NumberOf(p) != 0 then NumberOf(p) else |cases| + 1)
  }

  lemma ProgressIs(cases: seq<Case>, p: Progress, fold: string -> string)
    ensures var after, k := AfterProgress(cases, p, fold), Target(cases, p, fold, 0);
            if Strip(p.rowId) == "" then after == cases
            else && |after| == (if k < |cases| then |cases| else |cases| + 1)
                 && (forall i | 0 <= i < |cases| && i != k :: after[i] == cases[i])
                 && after[k] == Updated(Named(Base(cases, p, fold), p), p.row, p.phase, p.phaseState)
  {
    hide Strip, Updated, Named, NewCase;
  }

  lemma BaseAccounted(rows: seq<Row>, events: seq<Progress>, fold: string -> string)
    requires events != []
    requires var before := AfterRun(Initial(rows), events[..|events| - 1], fold);
             && AllConsistent(before)
             && forall i | 0 <= i < |before| :: CaseAccounted(before[i], rows, events, fold, i)
    ensures var n := |events| - 1;
            var before, p := AfterRun(Initial(rows), events[..n], fold), events[n];
            Strip(p.rowId) != "" ==>
              var base, k := Named(Base(before, p, fold), p), Target(before, p, fold, 0);
              Consistent(base) && CaseAccounted(base, rows, events, fold, k)
              && Concerns(Initial(rows), events, fold, n, k)
  {
    hide Evidence, AfterRun, Initial, Consistent;
    var n := |events| - 1;
    var before, p := AfterRun(Initial(rows), events[..n], fold), events[n];
    if Strip(p.rowId) != "" {
      var k := Target(before, p, fold, 0);
      LastConcerns(Initial(rows), events, fold, k);
      hide Strip, Target, Concerns;
      if k >= |before| {
        var index := if NumberOf(p) != 0 then NumberOf(p) else |before| + 1;
        NewCaseConsistent(p.row, index);
        NewCaseAccounted(p.row, index, p.phase, p.phaseState);
        var d := NewCase(p.row, index).detection;
        if Settled(d) { ByLastEvent(d.result, rows, events, fold, k); }
      }
      NamedConsistent(Base(before, p, fold), p);
    }
    hide Accounted;
  }

  lemma NamedConsistent(c: Case, p: Progress)
    ensures Consistent(Named(c, p)) <==> Consistent(c)
  {}

  ghost predicate AllAccounted(
      cases: seq<Case>, rows: seq<Row>, events: seq<Progress>, fold: string -> string)
  {
    forall i: nat | i < |cases| :: CaseAccounted(cases[i], rows, events, fold, i)
  }

  lemma ProgressAccounts(rows: seq<Row>, events: seq<Progress>, fold: string -> string)
    requires events != []
    requires var before := AfterRun(Initial(rows), events[..|events| - 1], fold);
             AllConsistent(before) && AllAccounted(before, rows, events[..|events| - 1], fold)
    ensures var n := |events| - 1;
            AllAccounted(AfterProgress(AfterRun(Initial(rows), events[..n], fold), events[n], fold), rows, events, fold)
  {
    hide CaseAccounted, AfterRun, Initial, AllConsistent, Updated, Named, Base, Strip, Concerns, Consistent,
         AfterProgress, Target;
    var n := |events| - 1;
    var before, p := AfterRun(Initial(rows), events[..n], fold), events[n];
    forall i: nat | i < |before| ensures CaseAccounted(before[i], rows, events, fold, i) {
      AccountedExtends(before[i], rows, events, fold, i);
    }
    ProgressIs(before, p, fold);
    BaseAccounted(rows, events, fold);
    if Strip(p.rowId) != "" {
      EventAccounts(Named(Base(before, p, fold), p), rows, events, fold, Target(before, p, fold, 0));
    }
  }

  /**
   In every run, each settled detection is accounted for by the row its case was made from or by an event that found
   or added that very case: no case is found equivalent, conflicting, clean or broken without one.
   */
  lemma {:induction false} NoVerdictWithoutEvidence(rows: seq<Row>, events: seq<Progress>, fold: string -> string)
    ensures AllAccounted(AfterRun(Initial(rows), events, fold), rows, events, fold)
    decreases |events|
  {
    if events == [] {
      forall i: nat | i < |rows| ensures CaseAccounted(Initial(rows)[i], rows, [], fold, i) {
        NewCaseAccounted(rows[i], i + 1, OtherPhase, OtherState);
        hide Evidence, NewCase, Concerns;
      }
    } else {
      hide AllAccounted, AllConsistent, AfterProgress, Initial;
      NoVerdictWithoutEvidence(rows, events[..|events| - 1], fold);
      EveryReachableCaseConsistent(rows, events[..|events| - 1], fold);
      ProgressAccounts(rows, events, fold);
    }
  }

  // ---- handling over whole runs ----

  ghost predicate AllKnown(cases: seq<Case>) {
    forall i | 0 <= i < |cases| :: HandlingKnown(cases[i].handling)
  }

  ghost predicate AllInStep(cases: seq<Case>) {
    forall i | 0 <= i < |cases| :: HandlingInStep(cases[i].handling)
  }

  /** Event k starts a resolution of a case that already has a handling result. */
  ghost predicate ReopensAt(cases: seq<Case>, p: Progress, fold: string -> string) {
    var k := Target(cases, p, fold, 0);
    Strip(p.rowId) != "" && k < |cases| && Reopens(cases[k].handling, p.phase, p.phaseState)
  }

  lemma ProgressHandling(cases: seq<Case>, p: Progress, fold: string -> string)
    requires AllKnown(cases)
    ensures var after := AfterProgress(cases, p, fold);
            AllKnown(after) && (AllInStep(cases) ==> (AllInStep(after) <==> !ReopensAt(cases, p, fold)))
  {
    ProgressIs(cases, p, fold);
    var k, base := Target(cases, p, fold, 0), Base(cases, p, fold);
    assert k < |cases| || base.handling == Handling(NotStarted, Unset, "", "");
    assert Named(base, p).handling == base.handling;
    HandlingStep(Named(base, p), p.row, p.phase, p.phaseState);
    hide HandlingInStep, Updated, Named, NewCase, Strip, Target, AfterProgress;
    assert HandlingKnown(Handling(NotStarted, Unset, "", ""));
  }

  /** At no moment of the run is a case's handling out of step. */
  ghost predicate InStepThroughout(rows: seq<Row>, events: seq<Progress>, fold: string -> string) {
    forall n: nat | n <= |events| :: AllInStep(AfterRun(Initial(rows), events[..n], fold))
  }

  ghost predicate NeverReopens(rows: seq<Row>, events: seq<Progress>, fold: string -> string) {
    forall n: nat | n < |events| :: !ReopensAt(AfterRun(Initial(rows), events[..n], fold), events[n], fold)
  }

  lemma ThroughoutNext(rows: seq<Row>, events: seq<Progress>, fold: string -> string)
    requires events != []
    ensures var before := events[..|events| - 1];
            && (InStepThroughout(rows, before, fold) ==> AllInStep(AfterRun(Initial(rows), before, fold)))
            && (InStepThroughout(rows, events, fold) <==>
                InStepThroughout(rows, before, fold) && AllInStep(AfterRun(Initial(rows), events, fold)))
  {
    hide AfterRun, AllInStep, Initial;
    var last := |events| - 1;
    assert events[..|events|] == events && events[..last][..last] == events[..last];
    assert forall n: nat | n <= last :: events[..last][..n] == events[..n];
  }

  lemma ReopensNext(rows: seq<Row>, events: seq<Progress>, fold: string -> string)
    requires events != []
    ensures var last := |events| - 1;
            NeverReopens(rows, events, fold) <==>
            NeverReopens(rows, events[..last], fold)
            && !ReopensAt(AfterRun(Initial(rows), events[..last], fold), events[last], fold)
  {
    hide AfterRun, ReopensAt, Initial;
    var last := |events| - 1;
    assert forall n: nat | n < last :: events[..last][..n] == events[..n] && events[..last][n] == events[n];
  }

  lemma RunNext(rows: seq<Row>, events: seq<Progress>, fold: string -> string)
    requires events != []
    ensures var last := |events| - 1;
            AfterRun(Initial(rows), events, fold) ==
            AfterProgress(AfterRun(Initial(rows), events[..last], fold), events[last], fold)
  {}

  lemma InitialHandling(rows: seq<Row>, fold: string -> string)
    ensures AllKnown(Initial(rows)) && AllInStep(Initial(rows)) && AfterRun(Initial(rows), [], fold) == Initial(rows)
    ensures InStepThroughout(rows, [], fold) && NeverReopens(rows, [], fold)
  {
    hide Detected, SummaryText;
    var none: seq<Progress> := [];
    assert none[..0] == [];
  }

  /**
   In every run, every case's handling is in step with its result, or runs again under an older one; and the first
   can be relied on throughout if and only if no event starts a resolution of a case that already has a result.
   */
  lemma {:induction false} HandlingInStepExactly(rows: seq<Row>, events: seq<Progress>, fold: string -> string)
    ensures AllKnown(AfterRun(Initial(rows), events, fold))
    ensures InStepThroughout(rows, events, fold) <==> NeverReopens(rows, events, fold)
    decreases |events|
  {
    hide *;
    if events == [] {
      InitialHandling(rows, fold);
    } else {
      var last := |events| - 1;
      HandlingInStepExactly(rows, events[..last], fold);
      ProgressHandling(AfterRun(Initial(rows), events[..last], fold), events[last], fold);
      RunNext(rows, events, fold);
      ThroughoutNext(rows, events, fold);
      ReopensNext(rows, events, fold);
    }
  }

  /** A resolution that fails and is started again: running, with the result of the failure. */
  lemma ReopenedHandlingOutOfStep(c: Case, row: Row)
    ensures var again := Updated(Updated(c, row, Resolving, PhaseFailed), row, Resolving, PhaseRunning).handling;
            again.state == Running && again.result == Broken && !HandlingInStep(again)
  {
    hide Strip, SummaryText, SaysFailed, Detected;
  }

  // ---- counters ----

  datatype Class = ClassApplied | ClassFailed | ClassEquivalent | ClassUnprocessed

  /** Applied, else failed in some stage, else known to be in the target already, else none of these. */
  function ClassOf(c: Case): Class {
    if c.final.result == Applied then ClassApplied
    else if Failed in {c.detection.state, c.handling.state, c.final.state} then ClassFailed
    else if c.detection.result in {EquivalentExists, AlreadyPresent} || c.handling.result == EquivalentExists
    then ClassEquivalent
    else ClassUnprocessed
  }

  function Tally(cases: seq<Case>, k: Class): nat {
    if cases == [] then 0
    else Tally(cases[..|cases| - 1], k) + if ClassOf(cases[|cases| - 1]) == k then 1 else 0
  }

  /** How many cases are applied after a conflict, or applied without one. */
  function TallyApplied(cases: seq<Case>, conflict: bool): nat {
    if cases == [] then 0
    else
      var last := cases[|cases| - 1];
      TallyApplied(cases[..|cases| - 1], conflict)
      + if last.final.result == Applied && (last.detection.result == Conflict <==> conflict) then 1 else 0
  }

  lemma SelectNext(cases: seq<Case>, c: Case, keep: Case -> bool)
    ensures Select(cases + [c], keep, |cases| + 1) == Select(cases, keep, |cases|) + if keep(c) then [c] else []
  {
    SelectPrefix(cases, c, keep, |cases|);
  }

  lemma {:induction false} SelectPrefix(cases: seq<Case>, c: Case, keep: Case -> bool, n: nat)
    requires n <= |cases|
    ensures Select(cases + [c], keep, n) == Select(cases, keep, n)
    decreases n
  {
    if n == 0 {
    } else {
      SelectPrefix(cases, c, keep, n - 1);
    }
  }

  lemma {:induction false} AppliedTallies(cases: seq<Case>, n: nat)
    requires n <= |cases|
    ensures var applied := Select(cases, IsApplied, n);
            && |Select(applied, HadConflict, |applied|)| == TallyApplied(cases[..n], true)
            && |applied| == TallyApplied(cases[..n], true) + TallyApplied(cases[..n], false)
    decreases n
  {
    if n == 0 {
    } else {
      AppliedTallies(cases, n - 1);
      assert cases[..n][..n - 1] == cases[..n - 1];
      var before, last := Select(cases, IsApplied, n - 1), cases[n - 1];
      if IsApplied(last) { SelectNext(before, last, HadConflict); }
      assert Select(cases, IsApplied, n) == if IsApplied(last) then before + [last] else before;
    }
  }

  lemma {:induction false} SelectHolds(cases: seq<Case>, keep: Case -> bool, n: nat, c: Case)
    requires n <= |cases|
    ensures c in Select(cases, keep, n) <==> c in cases[..n] && keep(c)
    decreases n
  {
    if n == 0 {
    } else {
      SelectHolds(cases, keep, n - 1, c);
      assert cases[..n] == cases[..n - 1] + [cases[n - 1]];
    }
  }

  lemma {:induction false} SelectTally(cases: seq<Case>, keep: Case -> bool, n: nat, k: Class)
    requires n <= |cases|
    requires forall i | 0 <= i < n :: keep(cases[i]) <==> ClassOf(cases[i]) == k
    ensures |Select(cases, keep, n)| == Tally(cases[..n], k)
    decreases n
  {
    if n == 0 {
    } else {
      SelectTally(cases, keep, n - 1, k);
      assert cases[..n][..n - 1] == cases[..n - 1];
    }
  }

  lemma {:induction false} TalliesPartition(cases: seq<Case>)
    ensures Tally(cases, ClassApplied) + Tally(cases, ClassFailed) + Tally(cases, ClassEquivalent)
            + Tally(cases, ClassUnprocessed) == |cases|
    decreases |cases|
  {
    if cases == [] {
    } else {
      TalliesPartition(cases[..|cases| - 1]);
    }
  }

  lemma LeftoverTally(cases: seq<Case>)
    ensures var failed := Select(cases, HasFailed, |cases|);
            |Select(cases, Leftover(failed), |cases|)| == Tally(cases, ClassEquivalent)
  {
    var n, failed := |cases|, Select(cases, HasFailed, |cases|);
    forall i | 0 <= i < n ensures Leftover(failed)(cases[i]) <==> ClassOf(cases[i]) == ClassEquivalent {
      SelectHolds(cases, HasFailed, n, cases[i]);
    }
    SelectTally(cases, Leftover(failed), n, ClassEquivalent);
    assert cases[..n] == cases;
  }

  lemma StagesTally(cases: seq<Case>)
    ensures |Select(cases, IsApplied, |cases|)| == Tally(cases, ClassApplied)
    ensures |Select(cases, HasFailed, |cases|)| == Tally(cases, ClassFailed)
  {
    var n := |cases|;
    SelectTally(cases, IsApplied, n, ClassApplied);
    SelectTally(cases, HasFailed, n, ClassFailed);
    assert cases[..n] == cases;
  }

  lemma ConflictsTally(cases: seq<Case>)
    ensures var applied := Select(cases, IsApplied, |cases|);
            && |Select(applied, HadConflict, |applied|)| == TallyApplied(cases, true)
            && |applied| == TallyApplied(cases, true) + TallyApplied(cases, false)
  {
    AppliedTallies(cases, |cases|);
    assert cases[..|cases|] == cases;
  }

  /**
   The counters tally each case once, under its class: applied, else failed, else equivalent, else unprocessed.
   They add up to the total, so the clamp at zero never acts. The applied ones split into those with a conflict
   detected and the others. Excluding failed cases by equality of their records excludes exactly the failed ones.
   */
  lemma CountsPartition(cases: seq<Case>)
    ensures var n := SummaryCounts(cases);
            && n.total == |cases|
            && n.applied == Tally(cases, ClassApplied)
            && n.failed == Tally(cases, ClassFailed)
            && n.equivalentExists == Tally(cases, ClassEquivalent)
            && n.unprocessed == Tally(cases, ClassUnprocessed)
            && n.applied + n.failed + n.equivalentExists + n.unprocessed == n.total
            && n.conflictResolved == TallyApplied(cases, true) && n.directApplied == TallyApplied(cases, false)
            && n.directApplied + n.conflictResolved == n.applied
  {
    hide Select, Tally, TallyApplied, IsApplied, HasFailed, ClassOf, HadConflict, Leftover;
    StagesTally(cases);
    LeftoverTally(cases);
    ConflictsTally(cases);
    TalliesPartition(cases);
  }
}
