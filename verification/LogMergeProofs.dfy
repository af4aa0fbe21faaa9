/** What every interleaving of begin, complete and lost-manifest crash leaves in the archive. */
module LogMergeProofs {
  import opened Text
  import opened LogMerge

  // ---- the drain in closed form ----

  ghost predicate Numbered(runs: seq<Entry>) {
    forall i | 0 <= i < |runs| :: runs[i].sequence == i + 1
  }

  ghost predicate MergedUpTo(runs: seq<Entry>, k: nat) {
    k <= |runs| && forall i | 0 <= i < |runs| :: runs[i].merged <==> i < k
  }

  ghost predicate Finished(runs: seq<Entry>, lo: nat, hi: nat) {
    hi <= |runs| && forall i | lo <= i < hi :: runs[i].status.Ended?
  }

  /** k is the length of the longest prefix of finished runs. */
  ghost predicate LongestFinished(runs: seq<Entry>, k: nat) {
    Finished(runs, 0, k) && (k < |runs| ==> runs[k].status.Running?)
  }

  ghost function FinishedFrom(runs: seq<Entry>, from: nat): (k: nat)
    requires Finished(runs, 0, from)
    ensures from <= k && LongestFinished(runs, k)
    decreases |runs| - from
  {
    if from == |runs| || runs[from].status.Running? then from else FinishedFrom(runs, from + 1)
  }

  /** The merged runs are exactly the longest finished prefix, and sequences are 1, 2, 3, ... */
  ghost predicate Settled(runs: seq<Entry>) {
    Numbered(runs) && exists k: nat :: MergedUpTo(runs, k) && LongestFinished(runs, k)
  }

  lemma {:induction false} MaxSequenceIs(runs: seq<Entry>, k: nat)
    requires Numbered(runs) && MergedUpTo(runs, k)
    ensures MaxSequence(runs, true) == k && MaxSequence(runs, false) == |runs|
  {
    if runs == [] {
    } else {
      MaxSequenceIs(runs[..|runs| - 1], if k == |runs| then k - 1 else k);
    }
  }

  ghost function MergedTo(runs: seq<Entry>, m: nat): (r: seq<Entry>) {
    seq(|runs|, i requires 0 <= i < |runs| => if i < m then runs[i].(merged := true) else runs[i])
  }

  /** The log after the loop has dealt with runs[lo..hi]. */
  ghost function Fold(env: Env, log: string, runs: seq<Entry>, lo: nat, hi: nat, current: string,
        delivered: seq<string>)
    : string
    requires Finished(runs, lo, hi)
  {
    if hi <= lo then log
    else
      var e := runs[hi - 1];
      MergeOne(env, Fold(env, log, runs, lo, hi - 1, current, delivered), e, Sources(env, e.runId, current, delivered))
  }

  lemma {:induction false} FoldStarts(env: Env, log: string, runs: seq<Entry>, lo: nat, hi: nat,
                                      current: string, delivered: seq<string>)
    requires lo < hi && Finished(runs, lo, hi)
    ensures Fold(env, log, runs, lo, hi, current, delivered)
         == Fold(env, MergeOne(env, log, runs[lo], Sources(env, runs[lo].runId, current, delivered)),
                 runs, lo + 1, hi, current, delivered)
    decreases hi
  {
    hide MergeOne;
    if lo + 1 < hi { FoldStarts(env, log, runs, lo, hi - 1, current, delivered); }
    assert Fold(env, log, runs, lo, lo, current, delivered) == log;
  }

  lemma {:induction false} BlockIgnoresMerged(env: Env, e: Entry, texts: seq<string>)
    requires e.status.Ended?
    ensures JoinChunks(env, e, texts) == JoinChunks(env, e.(merged := true), texts)
  {
    assert Header(env, e) == Header(env, e.(merged := true)) by { hide Decimal; }
    hide Header;
    if |texts| > 1 { BlockIgnoresMerged(env, e, texts[1..]); }
  }

  /** The fold reads nothing of an entry's `merged` flag. */
  lemma {:induction false} FoldSame(env: Env, log: string, runs: seq<Entry>, other: seq<Entry>, lo: nat, hi: nat,
                                    current: string, delivered: seq<string>)
    requires Finished(runs, lo, hi) && hi <= |other|
    requires forall i | lo <= i < hi :: other[i] == runs[i] || other[i] == runs[i].(merged := true)
    ensures Finished(other, lo, hi)
    ensures Fold(env, log, runs, lo, hi, current, delivered) == Fold(env, log, other, lo, hi, current, delivered)
    decreases hi
  {
    hide JoinChunks, Append, Contains;
    if hi <= lo {
    } else {
      FoldSame(env, log, runs, other, lo, hi - 1, current, delivered);
      BlockIgnoresMerged(env, runs[hi - 1], Sources(env, runs[hi - 1].runId, current, delivered));
    }
  }

  lemma MergedUpToUnique(runs: seq<Entry>, k: nat, j: nat)
    requires MergedUpTo(runs, k) && MergedUpTo(runs, j)
    ensures k == j
  {
    assert k < |runs| ==> (runs[k].merged <==> k < j);
    assert j < |runs| ==> (runs[j].merged <==> j < k);
  }

  /** With k runs merged the only run that can be ready is the next one. */
  lemma ReadyIsNext(runs: seq<Entry>, k: nat)
    requires Numbered(runs) && MergedUpTo(runs, k)
    ensures FindReady(runs, 0) == if k < |runs| && runs[k].status.Ended? then k else |runs|
  {
    MaxSequenceIs(runs, k);
    var i := FindReady(runs, 0);
    assert i < |runs| ==> Ready(runs, i) && i == k;
    if k < |runs| && runs[k].status.Ended? {
      assert Ready(runs, k);
    }
  }

  ghost function Turn(env: Env, a: Archive, k: nat, current: string, delivered: seq<string>): Archive
    requires k < |a.runs| && a.runs[k].status.Ended?
  {
    Archive(MarkAt(a.runs, k), MergeOne(env, a.log, a.runs[k], Sources(env, a.runs[k].runId, current, delivered)))
  }

  lemma DrainTurns(env: Env, a: Archive, current: string, delivered: seq<string>, budget: nat, k: nat)
    requires Numbered(a.runs) && MergedUpTo(a.runs, k)
    ensures budget > 0 && k < |a.runs| && a.runs[k].status.Ended? ==>
              Drain(env, a, current, delivered, budget)
              == Drain(env, Turn(env, a, k, current, delivered), current, delivered, budget - 1)
    ensures budget == 0 || k == |a.runs| || a.runs[k].status.Running? ==> Drain(env, a, current, delivered, budget) == a
  {
    hide MergeOne;
    ReadyIsNext(a.runs, k);
  }

  /** The drain merges a stretch of finished runs, in sequence order, as far as its budget reaches. */
  lemma {:induction false} DrainClosed(env: Env, a: Archive, current: string, delivered: seq<string>,
                                       budget: nat, k: nat, f: nat)
    requires Numbered(a.runs) && MergedUpTo(a.runs, k) && k <= f && LongestFinished(a.runs, f)
    ensures var m := if f <= k + budget then f else k + budget;
            Drain(env, a, current, delivered, budget)
               == Archive(MergedTo(a.runs, m), Fold(env, a.log, a.runs, k, m, current, delivered))
    decreases budget
  {
    hide MergeOne, Drain;
    DrainTurns(env, a, current, delivered, budget, k);
    var m := if f <= k + budget then f else k + budget;
    if budget == 0 || k == f {
      assert MergedTo(a.runs, k) == a.runs;
    } else {
      var next := Turn(env, a, k, current, delivered);
      DrainClosed(env, next, current, delivered, budget - 1, k + 1, f);
      assert MergedTo(next.runs, m) == MergedTo(a.runs, m);
      FoldSame(env, next.log, a.runs, next.runs, k + 1, m, current, delivered);
      FoldStarts(env, a.log, a.runs, k, m, current, delivered);
    }
  }

  // ---- histories ----

  /** `Lost` is a complete whose log appends reached the disk for `turns` runs but whose manifest write did not. */
  datatype Op =
    | Begin(runId: string, operation: string, at: string)
    | Complete(runId: string, delivered: seq<string>, outcome: string, at: string)
    | Lost(runId: string, delivered: seq<string>, outcome: string, at: string, turns: nat)

  ghost function Apply(env: Env, a: Archive, op: Op): Archive {
    match op
    case Begin(id, operation, at) => Begun(a, id, operation, at)
    case Complete(id, delivered, outcome, at) => CompletedFully(env, a, id, delivered, outcome, at)
    case Lost(id, delivered, outcome, at, turns) =>
      a.(log := Completed(env, a, id, delivered, outcome, at, turns).log)
  }

  ghost function Run(env: Env, ops: seq<Op>): Archive {
    if ops == [] then Archive([], "") else Apply(env, Run(env, ops[..|ops| - 1]), ops[|ops| - 1])
  }

  /** The manifest just before the drain of a complete. */
  ghost function Stamped(runs: seq<Entry>, i: nat, outcome: string, at: string): seq<Entry>
    requires i < |runs|
  {
    runs[i := runs[i].(status := Ended(outcome), endedAt := Some(at))]
  }

  /** One complete, in closed form: k runs were merged, f are finished afterwards, m of them get merged. */
  lemma CompletedClosed(env: Env, a: Archive, id: string, delivered: seq<string>, outcome: string, at: string,
                        budget: nat, i: nat, k: nat, f: nat)
    requires Numbered(a.runs) && MergedUpTo(a.runs, k) && LongestFinished(a.runs, k)
    requires i == FindRun(a.runs, id, 0) && i < |a.runs| && !a.runs[i].merged
    requires k <= f && LongestFinished(Stamped(a.runs, i, outcome, at), f)
    ensures var runs1 := Stamped(a.runs, i, outcome, at);
            var m := if f <= k + budget then f else k + budget;
            Completed(env, a, id, delivered, outcome, at, budget)
            == Archive(MergedTo(runs1, m), Fold(env, a.log, runs1, k, m, id, delivered))
  {
    hide MergeOne, Drain;
    DrainClosed(env, a.(runs := Stamped(a.runs, i, outcome, at)), id, delivered, budget, k, f);
  }

  /** The finished prefix can only have grown. */
  lemma PrefixGrows(runs: seq<Entry>, i: nat, outcome: string, at: string, k: nat) returns (f: nat)
    requires i < |runs| && LongestFinished(runs, k)
    ensures k <= f && LongestFinished(Stamped(runs, i, outcome, at), f)
  {
    f := FinishedFrom(Stamped(runs, i, outcome, at), k);
  }

  /** After every step of every history the merged runs are exactly 1..k, k the longest finished prefix. */
  lemma {:induction false} MergedIsLongestFinishedPrefix(env: Env, ops: seq<Op>)
    ensures Settled(Run(env, ops).runs)
  {
    if ops == [] {
      assert MergedUpTo([], 0) && LongestFinished([], 0);
    } else {
      var a := Run(env, ops[..|ops| - 1]);
      MergedIsLongestFinishedPrefix(env, ops[..|ops| - 1]);
      SettledStep(env, a, ops[|ops| - 1]);
    }
  }

  lemma SettledByMerging(runs: seq<Entry>, k: nat, f: nat)
    requires Numbered(runs) && MergedUpTo(runs, k) && k <= f && LongestFinished(runs, f)
    ensures MergedUpTo(MergedTo(runs, f), f) && Settled(MergedTo(runs, f))
  {
    assert MergedUpTo(MergedTo(runs, f), f) && LongestFinished(MergedTo(runs, f), f);
  }

  lemma SettledStep(env: Env, a: Archive, op: Op)
    requires Settled(a.runs)
    ensures Settled(Apply(env, a, op).runs)
  {
    var k: nat :| MergedUpTo(a.runs, k) && LongestFinished(a.runs, k);
    match op
    case Begin(id, operation, at) =>
      MaxSequenceIs(a.runs, k);
      var runs1 := Begun(a, id, operation, at).runs;
      assert MergedUpTo(runs1, k) && LongestFinished(runs1, k);
    case Lost(_, _, _, _, _) =>
    case Complete(id, delivered, outcome, at) =>
      var i := FindRun(a.runs, id, 0);
      if i < |a.runs| && !a.runs[i].merged {
        var f := PrefixGrows(a.runs, i, outcome, at, k);
        CompletedClosed(env, a, id, delivered, outcome, at, |a.runs|, i, k, f);
        SettledByMerging(Stamped(a.runs, i, outcome, at), k, f);
      }
  }

  // ---- what a history registers and completes ----

  ghost predicate NoLoss(ops: seq<Op>) {
    forall i | 0 <= i < |ops| :: !ops[i].Lost?
  }

  ghost function Begins(ops: seq<Op>): seq<Op> {
    if ops == [] then []
    else Begins(ops[..|ops| - 1]) + if ops[|ops| - 1].Begin? then [ops[|ops| - 1]] else []
  }

  /** Runs completed at least once after they were registered. */
  ghost function Done(ops: seq<Op>): set<string> {
    if ops == [] then {}
    else
      var op := ops[|ops| - 1];
      Done(ops[..|ops| - 1])
      + if op.Complete? && (exists b :: b in Begins(ops[..|ops| - 1]) && b.runId == op.runId) then {op.runId} else {}
  }

  ghost predicate FreshIds(begins: seq<Op>) {
    forall i, j | 0 <= i < j < |begins| :: begins[i].runId != begins[j].runId
  }

  lemma NextOp(ops: seq<Op>, op: Op)
    ensures Begins(ops + [op]) == Begins(ops) + if op.Begin? then [op] else []
    ensures Done(ops + [op]) ==
            Done(ops) + if op.Complete? && (exists b :: b in Begins(ops) && b.runId == op.runId) then {op.runId} else {}
  {
    assert (ops + [op])[..|ops|] == ops;
  }

  // ---- run ids ----

  ghost predicate SameRun(e: Entry, f: Entry) {
    e.sequence == f.sequence && e.runId == f.runId && e.operation == f.operation && e.startedAt == f.startedAt
  }

  ghost predicate DistinctIds(runs: seq<Entry>, ids: set<string>) {
    (forall i | 0 <= i < |runs| :: runs[i].runId in ids)
    && forall i, j | 0 <= i < j < |runs| :: runs[i].runId != runs[j].runId
  }

  ghost predicate AllIn(ops: seq<Op>, ids: set<string>) {
    forall op | op in ops && op.Begin? :: op.runId in ids
  }

  lemma CompleteKeepsIds(env: Env, a: Archive, op: Op)
    requires Settled(a.runs) && !op.Begin?
    ensures var runs := Apply(env, a, op).runs;
            |runs| == |a.runs| && forall i | 0 <= i < |runs| :: SameRun(runs[i], a.runs[i])
  {
    hide MergeOne, Drain, Fold;
    var i := FindRun(a.runs, op.runId, 0);
    if op.Complete? && i < |a.runs| && !a.runs[i].merged {
      var k: nat :| MergedUpTo(a.runs, k) && LongestFinished(a.runs, k);
      var f := PrefixGrows(a.runs, i, op.outcome, op.at, k);
      CompletedClosed(env, a, op.runId, op.delivered, op.outcome, op.at, |a.runs|, i, k, f);
    }
  }

  lemma {:induction false} IdsStayDistinct(env: Env, ops: seq<Op>, ids: set<string>)
    requires FreshIds(Begins(ops)) && AllIn(ops, ids)
    ensures |Run(env, ops).runs| == |Begins(ops)|
    ensures forall i | 0 <= i < |Begins(ops)| :: Run(env, ops).runs[i].runId == Begins(ops)[i].runId
    ensures DistinctIds(Run(env, ops).runs, ids)
  {
    if ops == [] {
    } else {
      var before, op := ops[..|ops| - 1], ops[|ops| - 1];
      assert forall i | 0 <= i < |Begins(before)| :: Begins(ops)[i] == Begins(before)[i];
      IdsStayDistinct(env, before, ids);
      MergedIsLongestFinishedPrefix(env, before);
      var a := Run(env, before);
      assert Run(env, ops) == Apply(env, a, op);
      hide Run;
      if op.Begin? {
        assert op in ops;
        BeginKeepsDistinct(env, a, op, Begins(before), ids);
      } else {
        hide Apply;
        CompleteKeepsIds(env, a, op);
      }
    }
  }

  lemma BeginKeepsDistinct(env: Env, a: Archive, op: Op, begins: seq<Op>, ids: set<string>)
    requires op.Begin? && DistinctIds(a.runs, ids) && op.runId in ids && FreshIds(begins + [op])
    requires |a.runs| == |begins| && forall i | 0 <= i < |begins| :: a.runs[i].runId == begins[i].runId
    ensures DistinctIds(Apply(env, a, op).runs, ids)
  {
    assert forall i | 0 <= i < |begins| :: (begins + [op])[i] == begins[i];
    assert (begins + [op])[|begins|] == op;
  }
}
