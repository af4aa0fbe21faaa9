/**
 Which logs end up in the task-all log.  A run's logs come from the caller when its own completion merges it, and
 from a scan of the log directory when a later drain does; what the caller delivers need not be what the scan finds.
 */
module LogMergeSources {
  import opened Text
  import opened LogMerge
  import opened LogMergeProofs

  /** The logs used for each run, by id. */
  type Source = string -> seq<string>

  // ---- the log as a function of the logs used ----

  /** The log of the first k runs: a run is left out when its id already shows. */
  ghost function Guarded(env: Env, src: Source, runs: seq<Entry>, k: nat): string
    requires Finished(runs, 0, k)
  {
    if k == 0 then ""
    else MergeOne(env, Guarded(env, src, runs, k - 1), runs[k - 1], src(runs[k - 1].runId))
  }

  /** The promised log: the block of each of the first k runs, once, in sequence order. */
  ghost function InOrder(env: Env, src: Source, runs: seq<Entry>, k: nat): string
    requires Finished(runs, 0, k)
  {
    if k == 0 then ""
    else
      var before, texts := InOrder(env, src, runs, k - 1), src(runs[k - 1].runId);
      if texts == [] then before else Append(before, Block(env, runs[k - 1], texts))
  }

  lemma {:induction false} GuardedIsFold(env: Env, src: Source, runs: seq<Entry>, k: nat, m: nat,
                                         current: string, delivered: seq<string>)
    requires k <= m && Finished(runs, 0, m)
    requires forall r | k <= r < m :: src(runs[r].runId) == Sources(env, runs[r].runId, current, delivered)
    ensures Fold(env, Guarded(env, src, runs, k), runs, k, m, current, delivered) == Guarded(env, src, runs, m)
    decreases m
  {
    hide MergeOne;
    if m <= k {
    } else {
      GuardedIsFold(env, src, runs, k, m - 1, current, delivered);
    }
  }

  predicate SameButMerged(e: Entry, f: Entry) {
    e.(merged := true) == f.(merged := true)
  }

  lemma MergeSame(env: Env, log: string, e: Entry, f: Entry, texts: seq<string>)
    requires SameButMerged(e, f) && e.status.Ended?
    ensures MergeOne(env, log, e, texts) == MergeOne(env, log, f, texts)
  {
    BlockIgnoresMerged(env, e, texts);
    BlockIgnoresMerged(env, f, texts);
    hide JoinChunks, Append, Contains;
  }

  lemma {:induction false} GuardedSame(env: Env, src: Source, other: Source, runs: seq<Entry>, others: seq<Entry>,
        k: nat)
    requires Finished(runs, 0, k) && k <= |others|
    requires forall r | 0 <= r < k :: SameButMerged(others[r], runs[r]) && other(runs[r].runId) == src(runs[r].runId)
    ensures Finished(others, 0, k) && Guarded(env, other, others, k) == Guarded(env, src, runs, k)
    decreases k
  {
    hide MergeOne;
    if k == 0 {
    } else {
      GuardedSame(env, src, other, runs, others, k - 1);
      MergeSame(env, Guarded(env, src, runs, k - 1), runs[k - 1], others[k - 1], src(runs[k - 1].runId));
    }
  }

  /** Ids of the runs a step merged. */
  ghost function NewlyMerged(a: seq<Entry>, b: seq<Entry>): set<string> {
    set r | 0 <= r < |b| && b[r].merged && !(r < |a| && a[r].merged) :: b[r].runId
  }

  /** The logs each merged run was merged with. */
  ghost function Used(env: Env, ops: seq<Op>): map<string, seq<string>> {
    if ops == [] then map[]
    else
      var before, op := ops[..|ops| - 1], ops[|ops| - 1];
      if !op.Complete? then Used(env, before)
      else
        Used(env, before)
        + map id | id in NewlyMerged(Run(env, before).runs, Run(env, ops).runs) ::
            Sources(env, id, op.runId, op.delivered)
  }

  ghost function UsedSource(env: Env, ops: seq<Op>): Source {
    var used := Used(env, ops);
    id => if id in used then used[id] else []
  }

  ghost predicate LogOf(env: Env, src: Source, a: Archive) {
    forall k: nat | MergedUpTo(a.runs, k) && LongestFinished(a.runs, k) :: a.log == Guarded(env, src, a.runs, k)
  }

  ghost predicate Distinct(runs: seq<Entry>) {
    forall i, j | 0 <= i < j < |runs| :: runs[i].runId != runs[j].runId
  }

  /** Run r is merged with what a completion of it delivered or, if it is not the first, with what a scan finds. */
  ghost predicate Explained(env: Env, src: Source, ops: seq<Op>, r: nat, id: string) {
    (r >= 1 && src(id) == env.found(id))
    || exists j | 0 <= j < |ops| :: ops[j].Complete? && ops[j].runId == id && src(id) == ops[j].delivered
  }

  /** What a completion merges: nothing, or the run it completes and the finished ones after it. */
  lemma CompleteMerges(env: Env, a: Archive, id: string, delivered: seq<string>, outcome: string, at: string, k: nat)
    returns (f: nat)
    requires Numbered(a.runs) && MergedUpTo(a.runs, k) && LongestFinished(a.runs, k)
    ensures k <= f
    ensures var i := FindRun(a.runs, id, 0);
            var b := CompletedFully(env, a, id, delivered, outcome, at);
            if i == |a.runs| || a.runs[i].merged then b == a && f == k
            else
              var runs1 := Stamped(a.runs, i, outcome, at);
              LongestFinished(runs1, f) && b.runs == MergedTo(runs1, f)
              && b.log == Fold(env, a.log, runs1, k, f, id, delivered)
              && k <= i && (k < f ==> i == k)
  {
    hide MergeOne, Drain;
    var i := FindRun(a.runs, id, 0);
    f := k;
    if i < |a.runs| && !a.runs[i].merged {
      f := PrefixGrows(a.runs, i, outcome, at, k);
      CompletedClosed(env, a, id, delivered, outcome, at, |a.runs|, i, k, f);
      assert k < f ==> Stamped(a.runs, i, outcome, at)[k].status.Ended?;
    }
  }

  /** A step that merges runs k..f with the logs it names keeps the log a function of the logs used. */
  lemma LogStep(env: Env, src: Source, more: Source, a: Archive, b: Archive, runs1: seq<Entry>, k: nat, f: nat,
                id: string, delivered: seq<string>)
    requires MergedUpTo(a.runs, k) && LongestFinished(a.runs, k) && a.log == Guarded(env, src, a.runs, k)
    requires |runs1| == |a.runs| && k <= f && LongestFinished(runs1, f)
    requires forall r | 0 <= r < k :: runs1[r] == a.runs[r]
    requires b.runs == MergedTo(runs1, f) && b.log == Fold(env, a.log, runs1, k, f, id, delivered)
    requires forall r | 0 <= r < k :: more(runs1[r].runId) == src(runs1[r].runId)
    requires forall r | k <= r < f :: more(runs1[r].runId) == Sources(env, runs1[r].runId, id, delivered)
    ensures LogOf(env, more, b)
  {
    hide MergeOne;
    GuardedSame(env, src, more, a.runs, runs1, k);
    GuardedIsFold(env, more, runs1, k, f, id, delivered);
    GuardedSame(env, more, more, runs1, b.runs, f);
    forall j: nat | MergedUpTo(b.runs, j) && LongestFinished(b.runs, j) ensures j == f {
      assert forall r | 0 <= r < |runs1| :: b.runs[r].status == runs1[r].status;
    }
  }

  ghost function BegunIds(ops: seq<Op>): set<string> {
    set op | op in ops && op.Begin? :: op.runId
  }

  lemma HistoryIds(env: Env, ops: seq<Op>)
    requires FreshIds(Begins(ops))
    ensures Distinct(Run(env, ops).runs) && |Run(env, ops).runs| == |Begins(ops)|
    ensures forall r | 0 <= r < |Begins(ops)| :: Run(env, ops).runs[r].runId == Begins(ops)[r].runId
  {
    IdsStayDistinct(env, ops, BegunIds(ops));
  }

  lemma FreshBefore(ops: seq<Op>)
    requires ops != [] && FreshIds(Begins(ops))
    ensures FreshIds(Begins(ops[..|ops| - 1]))
  {
    var before := Begins(ops[..|ops| - 1]);
    assert forall i | 0 <= i < |before| :: Begins(ops)[i] == before[i];
  }

  ghost predicate UsesMerged(env: Env, ops: seq<Op>) {
    var runs := Run(env, ops).runs;
    forall r | 0 <= r < |runs| :: runs[r].runId in Used(env, ops) <==> runs[r].merged
  }

  ghost predicate AllExplained(env: Env, ops: seq<Op>) {
    var runs := Run(env, ops).runs;
    forall r | 0 <= r < |runs| && runs[r].merged :: Explained(env, UsedSource(env, ops), ops, r, runs[r].runId)
  }

  lemma ExplainedLater(env: Env, src: Source, more: Source, ops: seq<Op>, r: nat, id: string)
    requires ops != [] && Explained(env, src, ops[..|ops| - 1], r, id) && more(id) == src(id)
    ensures Explained(env, more, ops, r, id)
  {
    var before := ops[..|ops| - 1];
    assert forall j | 0 <= j < |before| :: before[j] == ops[j];
  }

  lemma NewlyAre(a: seq<Entry>, b: seq<Entry>, r: nat)
    requires Distinct(b) && r < |b| && |a| <= |b|
    ensures b[r].runId in NewlyMerged(a, b) <==> b[r].merged && !(r < |a| && a[r].merged)
  {}

  lemma BeginUses(env: Env, ops: seq<Op>)
    requires ops != [] && ops[|ops| - 1].Begin? && FreshIds(Begins(ops))
    requires var before := ops[..|ops| - 1];
             LogOf(env, UsedSource(env, before), Run(env, before)) && UsesMerged(env, before)
             && AllExplained(env, before)
    ensures LogOf(env, UsedSource(env, ops), Run(env, ops)) && UsesMerged(env, ops) && AllExplained(env, ops)
  {
    var before, op := ops[..|ops| - 1], ops[|ops| - 1];
    var a, b := Run(env, before), Run(env, ops);
    hide MergeOne, MaxSequence;
    HistoryIds(env, ops);
    assert b == Begun(a, op.runId, op.operation, op.at) && Used(env, ops) == Used(env, before);
    UsedAreOld(env, before, op.runId);
    assert forall r | 0 <= r < |a.runs| :: b.runs[r] == a.runs[r];
    forall k: nat | MergedUpTo(b.runs, k) && LongestFinished(b.runs, k)
      ensures b.log == Guarded(env, UsedSource(env, ops), b.runs, k)
    {
      assert b.runs[|a.runs|].status.Running?;
      assert MergedUpTo(a.runs, k) && LongestFinished(a.runs, k);
      GuardedSame(env, UsedSource(env, before), UsedSource(env, ops), a.runs, b.runs, k);
    }
    forall r | 0 <= r < |b.runs| && b.runs[r].merged
      ensures Explained(env, UsedSource(env, ops), ops, r, b.runs[r].runId)
    {
      ExplainedLater(env, UsedSource(env, before), UsedSource(env, ops), ops, r, b.runs[r].runId);
    }
  }

  /** What a completion adds to the logs used. */
  lemma UsedNext(env: Env, ops: seq<Op>, id: string)
    requires ops != [] && ops[|ops| - 1].Complete?
    ensures var before, op := ops[..|ops| - 1], ops[|ops| - 1];
            var newly := id in NewlyMerged(Run(env, before).runs, Run(env, ops).runs);
            && (id in Used(env, ops) <==> newly || id in Used(env, before))
            && UsedSource(env, ops)(id) ==
               if newly then Sources(env, id, op.runId, op.delivered) else UsedSource(env, before)(id)
  {
    hide NewlyMerged, Run, Sources;
  }

  lemma NewlyRegistered(a: seq<Entry>, b: seq<Entry>, id: string)
    requires id in NewlyMerged(a, b)
    ensures exists r :: 0 <= r < |b| && b[r].runId == id
  {}

  /** Logs were used only for ids of registered runs. */
  lemma {:induction false} UsedAreRegistered(env: Env, ops: seq<Op>, id: string)
    requires id in Used(env, ops)
    ensures exists r :: 0 <= r < |Run(env, ops).runs| && Run(env, ops).runs[r].runId == id
    decreases |ops|
  {
    assert ops != [];
    var before, op := ops[..|ops| - 1], ops[|ops| - 1];
    assert Run(env, ops) == Apply(env, Run(env, before), op);
    if op.Complete? { UsedNext(env, ops, id); }
    hide Run, Apply, NewlyMerged;
    if id in Used(env, before) {
      UsedAreRegistered(env, before, id);
      var r :| 0 <= r < |Run(env, before).runs| && Run(env, before).runs[r].runId == id;
      MergedIsLongestFinishedPrefix(env, before);
      StaysRegistered(env, Run(env, before), op, r);
    } else {
      NewlyRegistered(Run(env, before).runs, Run(env, ops).runs, id);
    }
  }

  lemma StaysRegistered(env: Env, a: Archive, op: Op, r: nat)
    requires Settled(a.runs) && r < |a.runs|
    ensures var runs := Apply(env, a, op).runs; r < |runs| && runs[r].runId == a.runs[r].runId
  {
    if !op.Begin? { CompleteKeepsIds(env, a, op); }
  }

  lemma UsedAreOld(env: Env, ops: seq<Op>, id: string)
    ensures id in Used(env, ops) ==> exists r :: 0 <= r < |Run(env, ops).runs| && Run(env, ops).runs[r].runId == id
  {
    if id in Used(env, ops) { UsedAreRegistered(env, ops, id); }
  }

  /** The manifest around a completion of run i, when k runs were merged before it and f are after it. */
  ghost predicate MergesTo(env: Env, a: Archive, b: Archive, op: Op, i: nat, k: nat, f: nat)
    requires op.Complete?
  {
    && MergedUpTo(a.runs, k) && LongestFinished(a.runs, k) && k <= f && |b.runs| == |a.runs|
    && (if i == |a.runs| || (i < |a.runs| && a.runs[i].merged) then b == a && f == k
        else
          i < |a.runs|
          && var runs1 := Stamped(a.runs, i, op.outcome, op.at);
             LongestFinished(runs1, f) && b.runs == MergedTo(runs1, f)
             && b.log == Fold(env, a.log, runs1, k, f, op.runId, op.delivered)
             && a.runs[i].runId == op.runId && k <= i && (k < f ==> i == k))
  }

  lemma Merges(env: Env, a: Archive, op: Op) returns (i: nat, k: nat, f: nat)
    requires Settled(a.runs) && op.Complete?
    ensures MergesTo(env, a, Apply(env, a, op), op, i, k, f)
  {
    k :| MergedUpTo(a.runs, k) && LongestFinished(a.runs, k);
    i := FindRun(a.runs, op.runId, 0);
    hide MergeOne, Drain, Fold;
    f := CompleteMerges(env, a, op.runId, op.delivered, op.outcome, op.at, k);
  }

  lemma MergesRuns(env: Env, a: Archive, b: Archive, op: Op, i: nat, k: nat, f: nat, r: nat)
    requires op.Complete? && MergesTo(env, a, b, op, i, k, f) && Distinct(b.runs) && r < |b.runs|
    ensures b.runs[r].runId == a.runs[r].runId && (b.runs[r].merged <==> r < f) && (a.runs[r].merged <==> r < k)
    ensures b.runs[r].runId in NewlyMerged(a.runs, b.runs) <==> k <= r < f
    ensures k <= r < f ==> a.runs[k].runId == op.runId
  {
    hide Fold;
    NewlyAre(a.runs, b.runs, r);
  }

  /** The logs used before and after a completion, run by run. */
  lemma UsesRun(env: Env, ops: seq<Op>, i: nat, k: nat, f: nat, r: nat)
    requires ops != [] && ops[|ops| - 1].Complete? && UsesMerged(env, ops[..|ops| - 1])
    requires var a, b := Run(env, ops[..|ops| - 1]), Run(env, ops);
             MergesTo(env, a, b, ops[|ops| - 1], i, k, f) && Distinct(b.runs) && r < |b.runs|
    ensures var id, op := Run(env, ops).runs[r].runId, ops[|ops| - 1];
            && (r < k ==> UsedSource(env, ops)(id) == UsedSource(env, ops[..|ops| - 1])(id))
            && (k <= r < f ==> UsedSource(env, ops)(id) == Sources(env, id, op.runId, op.delivered))
            && (id in Used(env, ops) <==> r < f)
  {
    var a, b := Run(env, ops[..|ops| - 1]), Run(env, ops);
    MergesRuns(env, a, b, ops[|ops| - 1], i, k, f, r);
    UsedNext(env, ops, b.runs[r].runId);
    hide Run, MergesTo, NewlyMerged, Sources, UsedSource, Used;
  }

  lemma RunExplained(env: Env, ops: seq<Op>, i: nat, k: nat, f: nat, r: nat)
    requires ops != [] && ops[|ops| - 1].Complete? && UsesMerged(env, ops[..|ops| - 1])
    requires AllExplained(env, ops[..|ops| - 1])
    requires var a, b := Run(env, ops[..|ops| - 1]), Run(env, ops);
             MergesTo(env, a, b, ops[|ops| - 1], i, k, f) && Distinct(b.runs) && r < f && r < |b.runs|
    ensures Explained(env, UsedSource(env, ops), ops, r, Run(env, ops).runs[r].runId)
  {
    var a, b := Run(env, ops[..|ops| - 1]), Run(env, ops);
    MergesRuns(env, a, b, ops[|ops| - 1], i, k, f, r);
    UsesRun(env, ops, i, k, f, r);
    hide Run, MergesTo, NewlyMerged, UsedSource, Used;
    if r < k {
      ExplainedLater(env, UsedSource(env, ops[..|ops| - 1]), UsedSource(env, ops), ops, r, b.runs[r].runId);
    }
  }

  lemma LogUses(env: Env, ops: seq<Op>, i: nat, k: nat, f: nat)
    requires ops != [] && ops[|ops| - 1].Complete? && UsesMerged(env, ops[..|ops| - 1])
    requires var a, b := Run(env, ops[..|ops| - 1]), Run(env, ops);
             MergesTo(env, a, b, ops[|ops| - 1], i, k, f) && Distinct(b.runs)
             && LogOf(env, UsedSource(env, ops[..|ops| - 1]), a)
    ensures LogOf(env, UsedSource(env, ops), Run(env, ops))
  {
    var a, b, op := Run(env, ops[..|ops| - 1]), Run(env, ops), ops[|ops| - 1];
    var src, more := UsedSource(env, ops[..|ops| - 1]), UsedSource(env, ops);
    forall r | 0 <= r < |b.runs|
      ensures b.runs[r].runId == a.runs[r].runId
      ensures r < k ==> more(b.runs[r].runId) == src(b.runs[r].runId)
      ensures k <= r < f ==> more(b.runs[r].runId) == Sources(env, b.runs[r].runId, op.runId, op.delivered)
    {
      UsesRun(env, ops, i, k, f, r);
      MergesRuns(env, a, b, op, i, k, f, r);
    }
    hide Run, UsedSource, Used, Guarded, Fold, Distinct, UsesMerged, Sources;
    if i == |a.runs| || a.runs[i].merged {
      GuardedUnchanged(env, src, more, a, k);
    } else {
      LogStep(env, src, more, a, b, Stamped(a.runs, i, op.outcome, op.at), k, f, op.runId, op.delivered);
    }
  }

  lemma CompleteUses(env: Env, ops: seq<Op>)
    requires ops != [] && ops[|ops| - 1].Complete? && FreshIds(Begins(ops))
    requires var before := ops[..|ops| - 1];
             LogOf(env, UsedSource(env, before), Run(env, before)) && UsesMerged(env, before)
             && AllExplained(env, before)
    ensures LogOf(env, UsedSource(env, ops), Run(env, ops)) && UsesMerged(env, ops) && AllExplained(env, ops)
  {
    var a, b := Run(env, ops[..|ops| - 1]), Run(env, ops);
    MergedIsLongestFinishedPrefix(env, ops[..|ops| - 1]);
    HistoryIds(env, ops);
    var i, k, f := Merges(env, a, ops[|ops| - 1]);
    hide Run, MergesTo, Used, UsedSource, LogOf, Explained, Distinct, Begins, FreshIds;
    LogUses(env, ops, i, k, f);
    forall r | 0 <= r < |b.runs|
      ensures b.runs[r].merged <==> r < f
      ensures b.runs[r].runId in Used(env, ops) <==> r < f
      ensures r < f ==> Explained(env, UsedSource(env, ops), ops, r, b.runs[r].runId)
    {
      MergesRuns(env, a, b, ops[|ops| - 1], i, k, f, r);
      UsesRun(env, ops, i, k, f, r);
      if r < f { RunExplained(env, ops, i, k, f, r); }
    }
  }

  lemma GuardedUnchanged(env: Env, src: Source, more: Source, a: Archive, k: nat)
    requires MergedUpTo(a.runs, k) && LongestFinished(a.runs, k) && LogOf(env, src, a)
    requires forall r | 0 <= r < k :: more(a.runs[r].runId) == src(a.runs[r].runId)
    ensures LogOf(env, more, a)
  {
    GuardedSame(env, src, more, a.runs, a.runs, k);
    forall j: nat | MergedUpTo(a.runs, j) ensures j == k { MergedUpToUnique(a.runs, j, k); }
  }

  /**
   Without a crash the log is a function of the merged runs and of the logs used for each, whatever callers deliver;
   a run's logs are those a completion of it delivered or, for all but the first run, those a scan finds.
   */
  lemma {:induction false} LogIsFunctionOfSources(env: Env, ops: seq<Op>)
    requires NoLoss(ops) && FreshIds(Begins(ops))
    ensures LogOf(env, UsedSource(env, ops), Run(env, ops)) && UsesMerged(env, ops) && AllExplained(env, ops)
    decreases |ops|
  {
    hide LogOf, UsesMerged, AllExplained, Used;
    if ops == [] {
      StartsEmpty(env);
    } else {
      FreshBefore(ops);
      LogIsFunctionOfSources(env, ops[..|ops| - 1]);
      if ops[|ops| - 1].Begin? { BeginUses(env, ops); } else { CompleteUses(env, ops); }
    }
  }

  lemma StartsEmpty(env: Env)
    ensures LogOf(env, UsedSource(env, []), Run(env, [])) && UsesMerged(env, []) && AllExplained(env, [])
  {}

  /** No run with logs finds its own id in what was merged before it: the guard of the append branch. */
  ghost predicate NoneShadowed(env: Env, src: Source, runs: seq<Entry>, k: nat)
    requires Finished(runs, 0, k)
  {
    forall i | 0 <= i < k && src(runs[i].runId) != [] :: !Contains(Guarded(env, src, runs, i), runs[i].runId)
  }

  /** The log is the in-order concatenation of all blocks exactly when no run is shadowed. */
  lemma {:induction false} InOrderExactly(env: Env, src: Source, runs: seq<Entry>, k: nat)
    requires Finished(runs, 0, k) && forall i | 0 <= i < k :: runs[i].runId != ""
    ensures Guarded(env, src, runs, k) == InOrder(env, src, runs, k) <==> NoneShadowed(env, src, runs, k)
    ensures !NoneShadowed(env, src, runs, k) ==>
              0 < |Guarded(env, src, runs, k)| < |InOrder(env, src, runs, k)|
    decreases k
  {
    hide Block;
    if k == 0 {
    } else {
      InOrderExactly(env, src, runs, k - 1);
    }
  }

  // ---- the manifest as a function of what was registered and completed ----

  /** Each run always ends with the same status and end time, whenever its completion happens to be processed. */
  ghost predicate FixedStamps(ops: seq<Op>, stamp: string -> (string, string)) {
    forall i | 0 <= i < |ops| && ops[i].Complete? :: (ops[i].outcome, ops[i].at) == stamp(ops[i].runId)
  }

  ghost predicate ManifestIs(runs: seq<Entry>, begins: seq<Op>, done: set<string>, stamp: string -> (string, string)) {
    |runs| == |begins| && forall i | 0 <= i < |runs| ::
      begins[i].Begin?
      && runs[i].runId == begins[i].runId && runs[i].operation == begins[i].operation
      && runs[i].startedAt == begins[i].at
      && if begins[i].runId in done
         then runs[i].status == Ended(stamp(begins[i].runId).0) && runs[i].endedAt == Some(stamp(begins[i].runId).1)
         else runs[i].status == Running && runs[i].endedAt == None
  }

  lemma {:induction false} DoneAreBegun(ops: seq<Op>)
    ensures forall id | id in Done(ops) :: exists b :: b in Begins(ops) && b.runId == id
  {
    if ops == [] {
    } else {
      DoneAreBegun(ops[..|ops| - 1]);
      assert forall b | b in Begins(ops[..|ops| - 1]) :: b in Begins(ops);
    }
  }

  lemma StampedForm(runs: seq<Entry>, begins: seq<Op>, done: set<string>, stamp: string -> (string, string), i: nat)
    requires ManifestIs(runs, begins, done, stamp) && FreshIds(begins) && i < |runs|
    ensures var id := runs[i].runId;
            ManifestIs(Stamped(runs, i, stamp(id).0, stamp(id).1), begins, done + {id}, stamp)
  {}

  lemma MergedForm(runs: seq<Entry>, begins: seq<Op>, done: set<string>, stamp: string -> (string, string), m: nat)
    requires ManifestIs(runs, begins, done, stamp)
    ensures ManifestIs(MergedTo(runs, m), begins, done, stamp)
  {}

  lemma DoneAlready(runs: seq<Entry>, begins: seq<Op>, done: set<string>, stamp: string -> (string, string), i: nat,
        k: nat)
    requires ManifestIs(runs, begins, done, stamp) && i < |runs| && runs[i].merged
    requires MergedUpTo(runs, k) && LongestFinished(runs, k)
    ensures runs[i].runId in done
  {}

  lemma CompleteKeepsForm(env: Env, a: Archive, begins: seq<Op>, done: set<string>, stamp: string -> (string, string),
                          id: string, delivered: seq<string>)
    requires Settled(a.runs) && ManifestIs(a.runs, begins, done, stamp) && FreshIds(begins)
    ensures ManifestIs(CompletedFully(env, a, id, delivered, stamp(id).0, stamp(id).1).runs, begins,
                       done + if exists b :: b in begins && b.runId == id then {id} else {}, stamp)
  {
    hide MergeOne, Drain, FindRun;
    var i := FindRun(a.runs, id, 0);
    var k: nat :| MergedUpTo(a.runs, k) && LongestFinished(a.runs, k);
    if i < |a.runs| {
      assert begins[i] in begins && begins[i].runId == id;
      if a.runs[i].merged {
        DoneAlready(a.runs, begins, done, stamp, i, k);
        assert done + {id} == done;
      } else {
        var f := PrefixGrows(a.runs, i, stamp(id).0, stamp(id).1, k);
        CompletedClosed(env, a, id, delivered, stamp(id).0, stamp(id).1, |a.runs|, i, k, f);
        StampedForm(a.runs, begins, done, stamp, i);
        hide ManifestIs, Stamped, MergedTo, Completed, Fold;
        MergedForm(Stamped(a.runs, i, stamp(id).0, stamp(id).1), begins, done + {id}, stamp,
                   if f <= k + |a.runs| then f else k + |a.runs|);
      }
    } else {
      assert forall b | b in begins :: b.runId != id;
      assert done + {} == done;
    }
  }

  lemma {:induction false} ManifestForm(env: Env, ops: seq<Op>, stamp: string -> (string, string))
    requires NoLoss(ops) && FreshIds(Begins(ops)) && FixedStamps(ops, stamp)
    ensures ManifestIs(Run(env, ops).runs, Begins(ops), Done(ops), stamp)
  {
    if ops == [] {
    } else {
      var before, op := ops[..|ops| - 1], ops[|ops| - 1];
      var a := Run(env, before);
      assert forall i | 0 <= i < |Begins(before)| :: Begins(ops)[i] == Begins(before)[i];
      ManifestForm(env, before, stamp);
      MergedIsLongestFinishedPrefix(env, before);
      match op
      case Begin(id, operation, at) =>
        DoneAreBegun(before);
        assert Begins(ops)[|Begins(before)|] == op;
        assert forall i | 0 <= i < |Begins(before)| :: Begins(before)[i].runId != id;
        assert id !in Done(before);
        assert Run(env, ops) == Begun(a, id, operation, at);
      case Complete(id, delivered, outcome, at) =>
        assert (outcome, at) == stamp(id);
        assert Begins(ops) == Begins(before);
        CompleteKeepsForm(env, a, Begins(before), Done(before), stamp, id, delivered);
    }
  }

  /** The manifest's stages decide which runs are merged, so the manifest form determines the manifest. */
  lemma FormDetermines(a: seq<Entry>, b: seq<Entry>, begins: seq<Op>, done: set<string>,
                       stamp: string -> (string, string))
    requires Settled(a) && Settled(b) && ManifestIs(a, begins, done, stamp) && ManifestIs(b, begins, done, stamp)
    ensures a == b
  {
    var k: nat :| MergedUpTo(a, k) && LongestFinished(a, k);
    var j: nat :| MergedUpTo(b, j) && LongestFinished(b, j);
    assert forall i | 0 <= i < |a| :: a[i].status == b[i].status;
    assert k == j by {
      assert k < |a| ==> a[k].status == b[k].status;
      assert j < |a| ==> a[j].status == b[j].status;
    }
    assert forall i | 0 <= i < |a| :: a[i] == b[i];
  }

  // ---- when the order of completion does not matter ----

  /** Each completion of a run delivers the same logs. */
  ghost predicate FixedDeliveries(ops: seq<Op>, deliver: Source) {
    forall i | 0 <= i < |ops| && ops[i].Complete? :: ops[i].delivered == deliver(ops[i].runId)
  }

  /** A crash-free history of these registrations in which a run's end and delivery are fixed per run. */
  ghost predicate History(ops: seq<Op>, begins: seq<Op>, stamp: string -> (string, string), deliver: Source) {
    NoLoss(ops) && Begins(ops) == begins && FixedStamps(ops, stamp) && FixedDeliveries(ops, deliver)
  }

  ghost predicate AllBegin(begins: seq<Op>) {
    forall i | 0 <= i < |begins| :: begins[i].Begin?
  }

  /** All runs completed and merged. */
  ghost function DoneRuns(begins: seq<Op>, stamp: string -> (string, string)): seq<Entry>
    requires AllBegin(begins)
  {
    seq(|begins|, i requires 0 <= i < |begins| =>
      Entry(i + 1, begins[i].runId, begins[i].operation, Ended(stamp(begins[i].runId).0), begins[i].at,
            Some(stamp(begins[i].runId).1), true))
  }

  /** Merged after the runs before it, run i leaves the same log whether its logs are delivered or scanned. */
  ghost predicate ContributesSame(env: Env, begins: seq<Op>, stamp: string -> (string, string), deliver: Source, i: nat)
    requires i < |begins| && AllBegin(begins)
  {
    var runs, id := DoneRuns(begins, stamp), begins[i].runId;
    var before := Guarded(env, deliver, runs, i);
    MergeOne(env, before, runs[i], deliver(id)) == MergeOne(env, before, runs[i], env.found(id))
  }

  /** Histories that complete the same runs leave the same archive, log included. */
  ghost predicate OrderIndependent(env: Env, begins: seq<Op>, stamp: string -> (string, string), deliver: Source) {
    forall ops: seq<Op>, other: seq<Op> ::
      History(ops, begins, stamp, deliver) && History(other, begins, stamp, deliver) && Done(ops) == Done(other) ==>
        Run(env, ops) == Run(env, other)
  }

  lemma {:induction false} GuardedCanonical(env: Env, src: Source, runs: seq<Entry>, begins: seq<Op>,
                                            stamp: string -> (string, string), deliver: Source, k: nat)
    requires AllBegin(begins)
    requires Finished(runs, 0, k) && k <= |begins|
    requires forall r | 0 <= r < k :: SameButMerged(DoneRuns(begins, stamp)[r], runs[r])
    requires forall r | 0 <= r < k ::
               src(runs[r].runId) == deliver(runs[r].runId)
               || (r >= 1 && src(runs[r].runId) == env.found(runs[r].runId))
    requires forall r | 1 <= r < |begins| :: ContributesSame(env, begins, stamp, deliver, r)
    ensures Guarded(env, src, runs, k) == Guarded(env, deliver, DoneRuns(begins, stamp), k)
    decreases k
  {
    hide MergeOne;
    if k == 0 {
    } else {
      GuardedCanonical(env, src, runs, begins, stamp, deliver, k - 1);
      var before := Guarded(env, src, runs, k - 1);
      MergeSame(env, before, DoneRuns(begins, stamp)[k - 1], runs[k - 1], deliver(runs[k - 1].runId));
      MergeSame(env, before, DoneRuns(begins, stamp)[k - 1], runs[k - 1], env.found(runs[k - 1].runId));
      if k > 1 { assert ContributesSame(env, begins, stamp, deliver, k - 1); }
    }
  }

  lemma SourceIs(env: Env, ops: seq<Op>, src: Source, deliver: Source, r: nat, id: string)
    requires FixedDeliveries(ops, deliver) && Explained(env, src, ops, r, id)
    ensures src(id) == deliver(id) || (r >= 1 && src(id) == env.found(id))
  {}

  lemma {:induction false} BeginsBegin(ops: seq<Op>)
    ensures forall i | 0 <= i < |Begins(ops)| :: Begins(ops)[i].Begin?
  {
    if ops == [] {
    } else {
      BeginsBegin(ops[..|ops| - 1]);
    }
  }

  lemma CanonicalLog(env: Env, ops: seq<Op>, begins: seq<Op>, stamp: string -> (string, string), deliver: Source,
        k: nat)
    requires History(ops, begins, stamp, deliver) && FreshIds(begins)
    requires AllBegin(begins)
    requires forall r | 1 <= r < |begins| :: ContributesSame(env, begins, stamp, deliver, r)
    requires MergedUpTo(Run(env, ops).runs, k) && LongestFinished(Run(env, ops).runs, k)
    ensures k <= |begins| && Run(env, ops).log == Guarded(env, deliver, DoneRuns(begins, stamp), k)
  {
    LogIsFunctionOfSources(env, ops);
    ManifestForm(env, ops, stamp);
    MergedIsLongestFinishedPrefix(env, ops);
    var runs, src := Run(env, ops).runs, UsedSource(env, ops);
    hide Guarded, ContributesSame, Used, UsedSource, Explained, Begins, Run, UsesMerged;
    forall r | 0 <= r < k
      ensures src(runs[r].runId) == deliver(runs[r].runId)
              || (r >= 1 && src(runs[r].runId) == env.found(runs[r].runId))
      ensures SameButMerged(DoneRuns(begins, stamp)[r], runs[r])
    {
      SourceIs(env, ops, src, deliver, r, runs[r].runId);
    }
    GuardedCanonical(env, src, runs, begins, stamp, deliver, k);
  }

  lemma SameWhereItContributes(env: Env, ops: seq<Op>, other: seq<Op>, begins: seq<Op>,
                               stamp: string -> (string, string), deliver: Source)
    requires History(ops, begins, stamp, deliver) && History(other, begins, stamp, deliver) && Done(ops) == Done(other)
    requires FreshIds(begins) && AllBegin(begins)
    requires forall r | 1 <= r < |begins| :: ContributesSame(env, begins, stamp, deliver, r)
    ensures Run(env, ops) == Run(env, other)
  {
    hide MergeOne, Drain, ContributesSame, Guarded, DoneRuns;
    ManifestForm(env, ops, stamp);
    ManifestForm(env, other, stamp);
    MergedIsLongestFinishedPrefix(env, ops);
    MergedIsLongestFinishedPrefix(env, other);
    var a, b := Run(env, ops), Run(env, other);
    FormDetermines(a.runs, b.runs, begins, Done(ops), stamp);
    var k: nat :| MergedUpTo(a.runs, k) && LongestFinished(a.runs, k);
    hide Run, ManifestIs, Done, FixedStamps, FixedDeliveries;
    CanonicalLog(env, ops, begins, stamp, deliver, k);
    CanonicalLog(env, other, begins, stamp, deliver, k);
  }

  // ---- two histories that tell delivered from scanned logs ----

  function Completion(b: Op, stamp: string -> (string, string), deliver: Source): Op
    requires b.Begin?
  {
    Complete(b.runId, deliver(b.runId), stamp(b.runId).0, stamp(b.runId).1)
  }

  /** The manifest with every run registered and the first j completed and merged. */
  ghost function RunsAt(begins: seq<Op>, stamp: string -> (string, string), j: nat): seq<Entry>
    requires AllBegin(begins)
  {
    seq(|begins|, i requires 0 <= i < |begins| =>
      if i < j then DoneRuns(begins, stamp)[i]
      else Entry(i + 1, begins[i].runId, begins[i].operation, Running, begins[i].at, None, false))
  }

  ghost function StateAt(env: Env, begins: seq<Op>, stamp: string -> (string, string), deliver: Source, j: nat): Archive
    requires j <= |begins| && AllBegin(begins)
  {
    Archive(RunsAt(begins, stamp, j), Guarded(env, deliver, DoneRuns(begins, stamp), j))
  }

  lemma AtEntry(begins: seq<Op>, stamp: string -> (string, string), j: nat, i: nat)
    requires i < |begins| && AllBegin(begins)
    ensures var e := RunsAt(begins, stamp, j)[i];
            e.sequence == i + 1 && e.runId == begins[i].runId && (e.merged <==> i < j) && (e.status.Ended? <==> i < j)
  {
    var done := DoneRuns(begins, stamp)[i];
    assert done.sequence == i + 1 && done.runId == begins[i].runId && done.merged && done.status.Ended?;
    hide DoneRuns;
    assert RunsAt(begins, stamp, j)[i] == if i < j then done else
      Entry(i + 1, begins[i].runId, begins[i].operation, Running, begins[i].at, None, false);
  }

  lemma AtForm(begins: seq<Op>, stamp: string -> (string, string), j: nat)
    requires j <= |begins| && FreshIds(begins) && AllBegin(begins)
    ensures var runs := RunsAt(begins, stamp, j);
            Numbered(runs) && MergedUpTo(runs, j) && LongestFinished(runs, j) && Distinct(runs)
  {
    var runs := RunsAt(begins, stamp, j);
    assert |runs| == |begins|;
    forall i | 0 <= i < |begins|
      ensures runs[i].sequence == i + 1 && runs[i].runId == begins[i].runId
      ensures (runs[i].merged <==> i < j) && (runs[i].status.Ended? <==> i < j)
    {
      AtEntry(begins, stamp, j, i);
    }
    hide RunsAt, AllBegin;
  }

  lemma {:induction false} AfterBegins(env: Env, begins: seq<Op>, stamp: string -> (string, string), deliver: Source,
        n: nat)
    requires n <= |begins| && FreshIds(begins) && AllBegin(begins)
    ensures Run(env, begins[..n]) == Archive(RunsAt(begins, stamp, 0)[..n], "")
    ensures Begins(begins[..n]) == begins[..n] && Done(begins[..n]) == {}
    decreases n
  {
    if n == 0 {
    } else {
      var op, runs := begins[n - 1], RunsAt(begins, stamp, 0);
      assert begins[..n] == begins[..n - 1] + [op];
      RunNext(env, begins[..n - 1], op);
      NextOp(begins[..n - 1], op);
      NextEntry(env, begins, stamp, n - 1);
      hide *;
      AfterBegins(env, begins, stamp, deliver, n - 1);
    }
  }

  lemma NextEntry(env: Env, begins: seq<Op>, stamp: string -> (string, string), n: nat)
    requires n < |begins| && AllBegin(begins)
    ensures begins[n].Begin?
    ensures Apply(env, Archive(RunsAt(begins, stamp, 0)[..n], ""), begins[n])
            == Archive(RunsAt(begins, stamp, 0)[..n + 1], "")
  {
    var runs := RunsAt(begins, stamp, 0);
    assert runs[n] == Entry(n + 1, begins[n].runId, begins[n].operation, Running, begins[n].at, None, false);
    var before := runs[..n];
    assert Numbered(before) && MergedUpTo(before, 0);
    MaxSequenceIs(before, 0);
    hide MaxSequence, RunsAt;
    assert runs[..n + 1] == before + [runs[n]];
  }

  /** Completing the next run merges it alone when the one after it still runs. */
  lemma CompleteNext(env: Env, begins: seq<Op>, stamp: string -> (string, string), deliver: Source, j: nat)
    requires j < |begins| && FreshIds(begins) && AllBegin(begins)
    ensures Apply(env, StateAt(env, begins, stamp, deliver, j), Completion(begins[j], stamp, deliver))
            == StateAt(env, begins, stamp, deliver, j + 1)
  {
    var a := StateAt(env, begins, stamp, deliver, j);
    var op := Completion(begins[j], stamp, deliver);
    AtForm(begins, stamp, j);
    assert a.runs[j].runId == op.runId;
    MergeOneRun(env, a, op, j);
    var b := Apply(env, a, op);
    MergeSame(env, a.log, DoneRuns(begins, stamp)[j], Stamped(a.runs, j, op.outcome, op.at)[j], op.delivered);
    hide Apply, MergeOne, Distinct, FreshIds;
    assert b.runs == RunsAt(begins, stamp, j + 1);
    assert Guarded(env, deliver, DoneRuns(begins, stamp), j + 1)
           == MergeOne(env, a.log, DoneRuns(begins, stamp)[j], op.delivered);
  }

  lemma MergeOneRun(env: Env, a: Archive, op: Op, j: nat)
    requires Numbered(a.runs) && MergedUpTo(a.runs, j) && LongestFinished(a.runs, j) && Distinct(a.runs)
    requires op.Complete? && j < |a.runs| && a.runs[j].runId == op.runId
    requires j + 1 < |a.runs| ==> a.runs[j + 1].status.Running?
    ensures var runs1 := Stamped(a.runs, j, op.outcome, op.at);
            Apply(env, a, op) == Archive(MergedTo(runs1, j + 1), MergeOne(env, a.log, runs1[j], op.delivered))
  {
    var runs1 := Stamped(a.runs, j, op.outcome, op.at);
    assert FindRun(a.runs, op.runId, 0) == j;
    hide MergeOne, Drain, FindRun;
    var f := CompleteMerges(env, a, op.runId, op.delivered, op.outcome, op.at, j);
    assert f == j + 1 by { OnlyPrefix(runs1, j + 1, f); }
    assert Fold(env, a.log, runs1, j, j, op.runId, op.delivered) == a.log;
  }

  lemma OnlyPrefix(runs: seq<Entry>, m: nat, f: nat)
    requires LongestFinished(runs, m) && LongestFinished(runs, f)
    ensures m == f
  {}

  /** Completing the run after the next one merges nothing. */
  lemma CompleteEarly(env: Env, a: Archive, op: Op, j: nat)
    requires Numbered(a.runs) && MergedUpTo(a.runs, j) && LongestFinished(a.runs, j) && Distinct(a.runs)
    requires op.Complete? && j + 1 < |a.runs| && a.runs[j + 1].runId == op.runId
    ensures Apply(env, a, op) == Archive(Stamped(a.runs, j + 1, op.outcome, op.at), a.log)
  {
    var runs1 := Stamped(a.runs, j + 1, op.outcome, op.at);
    assert FindRun(a.runs, op.runId, 0) == j + 1;
    hide MergeOne, Drain, FindRun;
    var f := CompleteMerges(env, a, op.runId, op.delivered, op.outcome, op.at, j);
    assert f == j;
    assert MergedTo(runs1, j) == runs1;
  }

  /** Completing the next run then merges both, the second from a scan. */
  lemma MergeTwoRuns(env: Env, a: Archive, op: Op, j: nat)
    requires Numbered(a.runs) && MergedUpTo(a.runs, j) && LongestFinished(a.runs, j) && Distinct(a.runs)
    requires op.Complete? && j + 1 < |a.runs| && a.runs[j].runId == op.runId && a.runs[j + 1].status.Ended?
    requires j + 2 < |a.runs| ==> a.runs[j + 2].status.Running?
    ensures var runs1 := Stamped(a.runs, j, op.outcome, op.at);
            Apply(env, a, op) ==
            Archive(MergedTo(runs1, j + 2),
                    MergeOne(env, MergeOne(env, a.log, runs1[j], op.delivered), runs1[j + 1],
                             env.found(a.runs[j + 1].runId)))
  {
    var runs1 := Stamped(a.runs, j, op.outcome, op.at);
    assert FindRun(a.runs, op.runId, 0) == j;
    hide MergeOne, Drain, FindRun;
    var f := CompleteMerges(env, a, op.runId, op.delivered, op.outcome, op.at, j);
    assert f == j + 2 by { OnlyPrefix(runs1, j + 2, f); }
    assert Fold(env, a.log, runs1, j, j, op.runId, op.delivered) == a.log;
    assert Fold(env, a.log, runs1, j, j + 1, op.runId, op.delivered) == MergeOne(env, a.log, runs1[j], op.delivered);
    assert a.runs[j + 1].runId != op.runId;
  }

  /** The registrations, then the first j completions in order. */
  ghost function InTurn(begins: seq<Op>, stamp: string -> (string, string), deliver: Source, j: nat): seq<Op>
    requires j <= |begins| && AllBegin(begins)
  {
    if j == 0 then begins else InTurn(begins, stamp, deliver, j - 1) + [Completion(begins[j - 1], stamp, deliver)]
  }

  lemma HistoryNext(ops: seq<Op>, begins: seq<Op>, stamp: string -> (string, string), deliver: Source, i: nat)
    requires i < |begins| && AllBegin(begins) && History(ops, begins, stamp, deliver)
    ensures var op := Completion(begins[i], stamp, deliver);
            History(ops + [op], begins, stamp, deliver) && Done(ops + [op]) == Done(ops) + {begins[i].runId}
  {
    var op := Completion(begins[i], stamp, deliver);
    NextOp(ops, op);
    hide Begins, Done;
    assert begins[i] in begins;
    assert begins + [] == begins;
  }

  lemma RunNext(env: Env, ops: seq<Op>, op: Op)
    ensures Run(env, ops + [op]) == Apply(env, Run(env, ops), op)
  {
    assert (ops + [op])[..|ops|] == ops;
  }

  lemma StartsAt(env: Env, begins: seq<Op>, stamp: string -> (string, string), deliver: Source)
    requires FreshIds(begins) && AllBegin(begins)
    ensures History(begins, begins, stamp, deliver) && Run(env, begins) == StateAt(env, begins, stamp, deliver, 0)
  {
    AfterBegins(env, begins, stamp, deliver, |begins|);
    assert begins[..|begins|] == begins;
    assert RunsAt(begins, stamp, 0)[..|begins|] == RunsAt(begins, stamp, 0);
    hide Run, Begins, RunsAt, FreshIds, Done;
  }

  lemma {:induction false} InTurnRuns(env: Env, begins: seq<Op>, stamp: string -> (string, string), deliver: Source,
        j: nat)
    requires j <= |begins| && FreshIds(begins) && AllBegin(begins)
    ensures History(InTurn(begins, stamp, deliver, j), begins, stamp, deliver)
    ensures Run(env, InTurn(begins, stamp, deliver, j)) == StateAt(env, begins, stamp, deliver, j)
    decreases j
  {
    hide Run, History, StateAt, Apply, FreshIds, Done, Completion;
    if j == 0 {
      StartsAt(env, begins, stamp, deliver);
    } else {
      var before, i := InTurn(begins, stamp, deliver, j - 1), j - 1;
      assert begins[i].Begin? by { Registered(begins, i); }
      hide AllBegin;
      InTurnRuns(env, begins, stamp, deliver, i);
      HistoryNext(before, begins, stamp, deliver, i);
      RunNext(env, before, Completion(begins[i], stamp, deliver));
      CompleteNext(env, begins, stamp, deliver, i);
    }
  }

  lemma Registered(begins: seq<Op>, i: nat)
    requires AllBegin(begins) && i < |begins|
    ensures begins[i].Begin?
  {}

  /** The logs after completing runs 0..i in order, and with the last two the other way round. */
  lemma SwapDone(before: seq<Op>, begins: seq<Op>, stamp: string -> (string, string), deliver: Source, i: nat, j: nat)
    requires i < |begins| && j < |begins| && AllBegin(begins) && History(before, begins, stamp, deliver)
    ensures var ops := before + [Completion(begins[i], stamp, deliver)] + [Completion(begins[j], stamp, deliver)];
            History(ops, begins, stamp, deliver) && Done(ops) == Done(before) + {begins[i].runId} + {begins[j].runId}
  {
    var first := Completion(begins[i], stamp, deliver);
    hide *;
    HistoryNext(before, begins, stamp, deliver, i);
    HistoryNext(before + [first], begins, stamp, deliver, j);
  }

  lemma SwappedHistories(env: Env, begins: seq<Op>, stamp: string -> (string, string), deliver: Source, i: nat)
    requires 1 <= i < |begins| && FreshIds(begins) && AllBegin(begins)
    ensures var before := InTurn(begins, stamp, deliver, i - 1);
            var last, late := Completion(begins[i - 1], stamp, deliver), Completion(begins[i], stamp, deliver);
            var ops, other := before + [last] + [late], before + [late] + [last];
            History(ops, begins, stamp, deliver) && History(other, begins, stamp, deliver) && Done(ops) == Done(other)
  {
    hide *;
    Registered(begins, i - 1);
    Registered(begins, i);
    var before := InTurn(begins, stamp, deliver, i - 1);
    InTurnRuns(env, begins, stamp, deliver, i - 1);
    SwapDone(before, begins, stamp, deliver, i - 1, i);
    SwapDone(before, begins, stamp, deliver, i, i - 1);
    SwapSets(Done(before), begins[i].runId, begins[i - 1].runId);
  }

  lemma SwapSets(s: set<string>, a: string, b: string)
    ensures s + {a} + {b} == s + {b} + {a}
  {}

  lemma SwappedLogs(env: Env, begins: seq<Op>, stamp: string -> (string, string), deliver: Source, i: nat)
    requires 1 <= i < |begins| && FreshIds(begins) && AllBegin(begins)
    ensures var before := InTurn(begins, stamp, deliver, i - 1);
            var last, late := Completion(begins[i - 1], stamp, deliver), Completion(begins[i], stamp, deliver);
            var ops, other := before + [last] + [late], before + [late] + [last];
            var runs := DoneRuns(begins, stamp);
            && History(ops, begins, stamp, deliver) && History(other, begins, stamp, deliver)
            && Done(ops) == Done(other)
            && Run(env, ops).log == MergeOne(env, Guarded(env, deliver, runs, i), runs[i], deliver(begins[i].runId))
            && Run(env, other).log == MergeOne(env, Guarded(env, deliver, runs, i), runs[i], env.found(begins[i].runId))
  {
    SwappedHistories(env, begins, stamp, deliver, i);
    InTurnLog(env, begins, stamp, deliver, i);
    SwappedLog(env, begins, stamp, deliver, i);
    hide InTurn, Run, History, Done, FreshIds, MergeOne, Guarded, DoneRuns;
  }

  lemma InTurnLog(env: Env, begins: seq<Op>, stamp: string -> (string, string), deliver: Source, i: nat)
    requires 1 <= i < |begins| && FreshIds(begins) && AllBegin(begins)
    ensures var last, late := Completion(begins[i - 1], stamp, deliver), Completion(begins[i], stamp, deliver);
            var runs := DoneRuns(begins, stamp);
            Run(env, InTurn(begins, stamp, deliver, i - 1) + [last] + [late]).log
            == MergeOne(env, Guarded(env, deliver, runs, i), runs[i], deliver(begins[i].runId))
  {
    hide MergeOne, Run, DoneRuns, History, FreshIds, AllBegin, RunsAt;
    InTurnRuns(env, begins, stamp, deliver, i + 1);
    DoneId(begins, stamp, i);
  }

  lemma DoneId(begins: seq<Op>, stamp: string -> (string, string), i: nat)
    requires AllBegin(begins) && i < |begins|
    ensures DoneRuns(begins, stamp)[i].runId == begins[i].runId
  {}

  /** Completing run j + 1, then run j, from a state in which the first j runs are merged and the rest still run. */
  lemma SwappedStep(env: Env, a: Archive, late: Op, last: Op, j: nat)
    requires Numbered(a.runs) && MergedUpTo(a.runs, j) && LongestFinished(a.runs, j) && Distinct(a.runs)
    requires late.Complete? && last.Complete? && j + 1 < |a.runs|
    requires a.runs[j].runId == last.runId && a.runs[j + 1].runId == late.runId
    requires j + 2 < |a.runs| ==> a.runs[j + 2].status.Running?
    ensures var runs1 := Stamped(Stamped(a.runs, j + 1, late.outcome, late.at), j, last.outcome, last.at);
            Apply(env, Apply(env, a, late), last).log
            == MergeOne(env, MergeOne(env, a.log, runs1[j], last.delivered), runs1[j + 1], env.found(late.runId))
  {
    hide MergeOne, Apply;
    CompleteEarly(env, a, late, j);
    var held := Archive(Stamped(a.runs, j + 1, late.outcome, late.at), a.log);
    assert a.runs[j].status.Running?;
    MergeTwoRuns(env, held, last, j);
  }

  lemma SwappedEntries(begins: seq<Op>, stamp: string -> (string, string), deliver: Source, i: nat)
    requires 1 <= i < |begins| && AllBegin(begins)
    ensures var last, late := Completion(begins[i - 1], stamp, deliver), Completion(begins[i], stamp, deliver);
            var runs, at := DoneRuns(begins, stamp), RunsAt(begins, stamp, i - 1);
            var runs1 := Stamped(Stamped(at, i, late.outcome, late.at), i - 1, last.outcome, last.at);
            && SameButMerged(runs[i - 1], runs1[i - 1]) && SameButMerged(runs[i], runs1[i])
            && at[i - 1].runId == last.runId && at[i].runId == late.runId && runs[i - 1].runId == last.runId
            && (i + 1 < |begins| ==> at[i + 1].status.Running?) && |at| == |begins|
            && runs[i - 1].status.Ended? && runs[i].status.Ended?
  {}

  lemma SwappedLog(env: Env, begins: seq<Op>, stamp: string -> (string, string), deliver: Source, i: nat)
    requires 1 <= i < |begins| && FreshIds(begins) && AllBegin(begins)
    ensures var last, late := Completion(begins[i - 1], stamp, deliver), Completion(begins[i], stamp, deliver);
            var runs := DoneRuns(begins, stamp);
            Run(env, InTurn(begins, stamp, deliver, i - 1) + [late] + [last]).log
            == MergeOne(env, Guarded(env, deliver, runs, i), runs[i], env.found(begins[i].runId))
  {
    hide *;
    Registered(begins, i - 1);
    Registered(begins, i);
    var before := InTurn(begins, stamp, deliver, i - 1);
    var last, late := Completion(begins[i - 1], stamp, deliver), Completion(begins[i], stamp, deliver);
    var a := StateAt(env, begins, stamp, deliver, i - 1);
    SwappedFacts(env, begins, stamp, deliver, i);
    InTurnRuns(env, begins, stamp, deliver, i - 1);
    RunTwo(env, before, late, last);
    AtForm(begins, stamp, i - 1);
    SwappedRun(env, begins, stamp, a, late, last, i);
  }

  lemma RunTwo(env: Env, ops: seq<Op>, first: Op, second: Op)
    ensures Run(env, ops + [first] + [second]) == Apply(env, Apply(env, Run(env, ops), first), second)
  {
    RunNext(env, ops, first);
    RunNext(env, ops + [first], second);
  }

  lemma SwappedFacts(env: Env, begins: seq<Op>, stamp: string -> (string, string), deliver: Source, i: nat)
    requires 1 <= i < |begins| && AllBegin(begins)
    ensures var last, late := Completion(begins[i - 1], stamp, deliver), Completion(begins[i], stamp, deliver);
            var runs, a := DoneRuns(begins, stamp), StateAt(env, begins, stamp, deliver, i - 1);
            && |runs| == |begins| && Finished(runs, 0, i) && runs[i].status.Ended? && runs[i - 1].status.Ended?
            && a.runs == RunsAt(begins, stamp, i - 1)
            && late.Complete? && late.runId == begins[i].runId && (late.outcome, late.at) == stamp(late.runId)
            && last.Complete? && last.runId == begins[i - 1].runId && (last.outcome, last.at) == stamp(last.runId)
            && Guarded(env, deliver, runs, i) == MergeOne(env, a.log, runs[i - 1], last.delivered)
  {
    hide *;
    DoneEntries(begins, stamp, i);
    CompletionIs(begins[i - 1], stamp, deliver);
    CompletionIs(begins[i], stamp, deliver);
    StateIs(env, begins, stamp, deliver, i - 1);
    GuardedNext(env, deliver, DoneRuns(begins, stamp), i - 1);
  }

  lemma CompletionIs(begin: Op, stamp: string -> (string, string), deliver: Source)
    requires begin.Begin?
    ensures var op := Completion(begin, stamp, deliver);
            op.Complete? && op.runId == begin.runId && (op.outcome, op.at) == stamp(begin.runId)
            && op.delivered == deliver(begin.runId)
  {}

  lemma DoneEntries(begins: seq<Op>, stamp: string -> (string, string), i: nat)
    requires 1 <= i < |begins| && AllBegin(begins)
    ensures var runs := DoneRuns(begins, stamp);
            && |runs| == |begins| && Finished(runs, 0, i - 1) && Finished(runs, 0, i) && runs[i].status.Ended?
            && runs[i - 1].status.Ended? && runs[i - 1].runId == begins[i - 1].runId
            && begins[i].Begin? && begins[i - 1].Begin?
  {}

  lemma StateIs(env: Env, begins: seq<Op>, stamp: string -> (string, string), deliver: Source, j: nat)
    requires j <= |begins| && AllBegin(begins)
    ensures var a := StateAt(env, begins, stamp, deliver, j);
            Finished(DoneRuns(begins, stamp), 0, j)
            && a.runs == RunsAt(begins, stamp, j) && a.log == Guarded(env, deliver, DoneRuns(begins, stamp), j)
  {}

  lemma GuardedNext(env: Env, src: Source, runs: seq<Entry>, k: nat)
    requires Finished(runs, 0, k) && Finished(runs, 0, k + 1) && k < |runs| && runs[k].status.Ended?
    ensures Guarded(env, src, runs, k + 1) == MergeOne(env, Guarded(env, src, runs, k), runs[k], src(runs[k].runId))
  {}

  lemma SwappedRun(env: Env, begins: seq<Op>, stamp: string -> (string, string), a: Archive, late: Op, last: Op, i: nat)
    requires 1 <= i < |begins| && AllBegin(begins) && a.runs == RunsAt(begins, stamp, i - 1)
    requires Numbered(a.runs) && MergedUpTo(a.runs, i - 1) && LongestFinished(a.runs, i - 1) && Distinct(a.runs)
    requires late.Complete? && late.runId == begins[i].runId && (late.outcome, late.at) == stamp(late.runId)
    requires last.Complete? && last.runId == begins[i - 1].runId && (last.outcome, last.at) == stamp(last.runId)
    ensures var runs := DoneRuns(begins, stamp);
            Apply(env, Apply(env, a, late), last).log
            == MergeOne(env, MergeOne(env, a.log, runs[i - 1], last.delivered), runs[i], env.found(begins[i].runId))
  {
    SwappedEntries(begins, stamp, _ => last.delivered, i);
    var runs := DoneRuns(begins, stamp);
    hide *;
    SwappedStep(env, a, late, last, i - 1);
    var runs1 := Stamped(Stamped(a.runs, i, late.outcome, late.at), i - 1, last.outcome, last.at);
    MergeSame(env, a.log, runs[i - 1], runs1[i - 1], last.delivered);
    MergeSame(env, MergeOne(env, a.log, runs[i - 1], last.delivered), runs[i], runs1[i], env.found(begins[i].runId));
  }

  /**
   For given registrations, ends and deliveries per run, the order of completion never matters if and only if each
   run but the first leaves the same log, after the runs before it, whether its logs are delivered or scanned.
   */
  lemma OrderIndependentExactly(env: Env, begins: seq<Op>, stamp: string -> (string, string), deliver: Source)
    requires FreshIds(begins) && AllBegin(begins)
    ensures OrderIndependent(env, begins, stamp, deliver) <==>
            forall i | 1 <= i < |begins| :: ContributesSame(env, begins, stamp, deliver, i)
  {
    if forall i | 1 <= i < |begins| :: ContributesSame(env, begins, stamp, deliver, i) {
      forall ops: seq<Op>, other: seq<Op> |
        History(ops, begins, stamp, deliver) && History(other, begins, stamp, deliver) && Done(ops) == Done(other)
        ensures Run(env, ops) == Run(env, other)
      {
        SameWhereItContributes(env, ops, other, begins, stamp, deliver);
      }
    }
    if OrderIndependent(env, begins, stamp, deliver) {
      forall i | 1 <= i < |begins| ensures ContributesSame(env, begins, stamp, deliver, i) {
        OrderTells(env, begins, stamp, deliver, i);
      }
    }
  }

  lemma OrderTells(env: Env, begins: seq<Op>, stamp: string -> (string, string), deliver: Source, i: nat)
    requires OrderIndependent(env, begins, stamp, deliver)
    requires 1 <= i < |begins| && FreshIds(begins) && AllBegin(begins)
    ensures ContributesSame(env, begins, stamp, deliver, i)
  {
    hide *;
    Registered(begins, i - 1);
    Registered(begins, i);
    var before := InTurn(begins, stamp, deliver, i - 1);
    var last, late := Completion(begins[i - 1], stamp, deliver), Completion(begins[i], stamp, deliver);
    SwappedLogs(env, begins, stamp, deliver, i);
    SameRuns(env, begins, stamp, deliver, before + [last] + [late], before + [late] + [last]);
    Contribution(env, begins, stamp, deliver, i);
  }

  lemma Contribution(env: Env, begins: seq<Op>, stamp: string -> (string, string), deliver: Source, i: nat)
    requires 1 <= i < |begins| && AllBegin(begins)
    ensures var runs := DoneRuns(begins, stamp);
            && |runs| == |begins| && Finished(runs, 0, i) && runs[i].status.Ended?
            && (ContributesSame(env, begins, stamp, deliver, i) <==>
                MergeOne(env, Guarded(env, deliver, runs, i), runs[i], deliver(begins[i].runId))
                == MergeOne(env, Guarded(env, deliver, runs, i), runs[i], env.found(begins[i].runId)))
  {
    hide MergeOne, Guarded;
  }

  lemma SameRuns(env: Env, begins: seq<Op>, stamp: string -> (string, string), deliver: Source, ops: seq<Op>,
                 other: seq<Op>)
    requires OrderIndependent(env, begins, stamp, deliver)
    requires History(ops, begins, stamp, deliver) && History(other, begins, stamp, deliver) && Done(ops) == Done(other)
    ensures Run(env, ops) == Run(env, other)
  {
    hide History, Done, Run;
  }

  /**
   What that means when redaction erases no block: the run's id already shows, or neither source has logs, or both
   give the same redacted block.
   */
  lemma ContributesSameExactly(env: Env, begins: seq<Op>, stamp: string -> (string, string), deliver: Source, i: nat)
    requires i < |begins| && AllBegin(begins)
    requires forall e: Entry, texts: seq<string> | e.status.Ended? && texts != [] :: Block(env, e, texts) != ""
    ensures var runs, id := DoneRuns(begins, stamp), begins[i].runId;
            ContributesSame(env, begins, stamp, deliver, i) <==>
            || Contains(Guarded(env, deliver, runs, i), id)
            || (deliver(id) == [] && env.found(id) == [])
            || (deliver(id) != [] && env.found(id) != []
                && Block(env, runs[i], deliver(id)) == Block(env, runs[i], env.found(id)))
  {
    var runs, id := DoneRuns(begins, stamp), begins[i].runId;
    var log := Guarded(env, deliver, runs, i);
    hide Block, Contains, Guarded;
    AppendCancels(log, Block(env, runs[i], deliver(id)), Block(env, runs[i], env.found(id)));
  }

  lemma AppendCancels(log: string, a: string, b: string)
    ensures Append(log, a) == Append(log, b) <==> a == b
    ensures a != "" ==> Append(log, a) != log
  {
    if log != "" {
      assert (log + "\n" + a)[|log| + 1..] == a && (log + "\n" + b)[|log| + 1..] == b;
    }
  }

  /** A run closed without logs although a scan finds some, and whose id the first run's block does not show: its
      block is in the log or not, by the order of completion, while the manifests are the same. */
  lemma EmptyDeliveryDependsOnOrder(env: Env, x: Op, y: Op, stamp: string -> (string, string), deliver: Source)
    requires x.Begin? && y.Begin? && x.runId != y.runId && deliver(y.runId) == [] && env.found(y.runId) != []
    requires !Contains(Guarded(env, deliver, DoneRuns([x, y], stamp), 1), y.runId)
    ensures var xs, ys := Completion(x, stamp, deliver), Completion(y, stamp, deliver);
            var first := Guarded(env, deliver, DoneRuns([x, y], stamp), 1);
            && Done([x, y] + [xs] + [ys]) == Done([x, y] + [ys] + [xs])
            && Run(env, [x, y] + [xs] + [ys]).log == first
            && Run(env, [x, y] + [ys] + [xs]).log
               == Append(first, Block(env, DoneRuns([x, y], stamp)[1], env.found(y.runId)))
  {
    var begins := [x, y];
    SwappedLogs(env, begins, stamp, deliver, 1);
    assert InTurn(begins, stamp, deliver, 0) == begins;
    hide Run, Block, DoneRuns, Completion, Guarded, Done;
  }

  // ---- the substring guard drops a run ----

  /** A run with logs whose id shows in the block of the run before it is merged without a block. */
  lemma GuardCanDropARun(env: Env, x: Op, y: Op, stamp: string -> (string, string), deliver: Source)
    requires x.Begin? && y.Begin? && x.runId != y.runId && x.runId != "" && y.runId != ""
    requires deliver(x.runId) != [] && deliver(y.runId) != []
    requires Contains(Block(env, DoneRuns([x, y], stamp)[0], deliver(x.runId)), y.runId)
    ensures var runs := DoneRuns([x, y], stamp);
            var end := Run(env, InTurn([x, y], stamp, deliver, 2));
            && end.runs == runs && end.log == Block(env, runs[0], deliver(x.runId))
            && !NoneShadowed(env, deliver, runs, 2) && end.log != InOrder(env, deliver, runs, 2)
  {
    var begins := [x, y];
    var runs := DoneRuns(begins, stamp);
    InTurnRuns(env, begins, stamp, deliver, 2);
    AllMerged(begins, stamp);
    assert !HasAt("", x.runId, 0);
    hide Block, Run, InTurn, HasAt;
    assert Guarded(env, deliver, runs, 0) == "";
    assert Guarded(env, deliver, runs, 1) == Block(env, runs[0], deliver(x.runId));
    assert Guarded(env, deliver, runs, 2) == Guarded(env, deliver, runs, 1);
    assert Contains(Guarded(env, deliver, runs, 1), runs[1].runId);
    hide Guarded, InOrder, Contains;
    InOrderExactly(env, deliver, runs, 2);
  }

  lemma AllMerged(begins: seq<Op>, stamp: string -> (string, string))
    requires AllBegin(begins)
    ensures RunsAt(begins, stamp, |begins|) == DoneRuns(begins, stamp)
  {}

  /** With nothing to redact, any first run whose log mentions the second run's id drops the second. */
  lemma MentionedRunIsDropped(taskId: string, found: Source, x: Op, y: Op, stamp: string -> (string, string),
                              deliver: Source, head: string, tail: string)
    requires x.Begin? && y.Begin? && x.runId != y.runId && x.runId != "" && y.runId != ""
    requires deliver(x.runId) == [head + y.runId + tail] && deliver(y.runId) != []
    ensures var env := Env(taskId, found, text => text);
            var end := Run(env, InTurn([x, y], stamp, deliver, 2));
            end.runs == DoneRuns([x, y], stamp) && end.log != InOrder(env, deliver, end.runs, 2)
            && end.log == Block(env, end.runs[0], deliver(x.runId))
  {
    var env := Env(taskId, found, text => text);
    var first := DoneRuns([x, y], stamp)[0];
    var lead := Header(env, first) + "\n" + head;
    hide Header, DoneRuns;
    assert Block(env, first, deliver(x.runId)) == lead + y.runId + tail;
    assert HasAt(y.runId, y.runId, 0);
    ContainsExtends(lead, y.runId, tail, y.runId);
    GuardCanDropARun(env, x, y, stamp, deliver);
  }
}
