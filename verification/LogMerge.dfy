/**
 The task-all log of a Backport task: every subprocess run is registered with the next
 sequence number, runs end in any order, and a drain loop appends their logs to one file
 strictly in sequence.  `task.json` (the manifest) and the log file are written separately,
 so a crash can lose the manifest write after the log has grown.
 */
module LogMerge {
  import opened Text

  datatype Status = Running | Ended(outcome: string)

  datatype Entry = Entry(
    sequence: nat, runId: string, operation: string, status: Status,
    startedAt: string, endedAt: Option<string>, merged: bool)

  /** What the merge reads from outside: the contents of a run's entry logs in path order, and the redaction. */
  datatype Env = Env(taskId: string, found: string -> seq<string>, redact: string -> string)

  // ---- one block of the log ----

  function Rendered(text: Option<string>): string {
    if text.None? then "None" else text.value
  }

  function Header(env: Env, e: Entry): string
    requires e.status.Ended?
  {
    "--- task run " + Decimal(e.sequence) + " | " + e.runId + " | " + env.taskId + " | "
    + (if e.operation == "" then "cvekit" else e.operation) + " | " + e.status.outcome
    + " | started=" + e.startedAt + " | ended=" + Rendered(e.endedAt) + " ---\n"
  }

  function JoinChunks(env: Env, e: Entry, texts: seq<string>): string
    requires e.status.Ended?
  {
    if texts == [] then ""
    else if |texts| == 1 then Header(env, e) + "\n" + texts[0]
    else Header(env, e) + "\n" + texts[0] + "\n" + JoinChunks(env, e, texts[1..])
  }

  function Block(env: Env, e: Entry, texts: seq<string>): string
    requires e.status.Ended?
  {
    env.redact(JoinChunks(env, e, texts))
  }

  function Append(log: string, block: string): string {
    if log == "" then block else log + "\n" + block
  }

  /** One turn of the loop: a run without logs, or whose id already shows in the file, adds nothing. */
  function MergeOne(env: Env, log: string, e: Entry, texts: seq<string>): string
    requires e.status.Ended?
  {
    if texts == [] || Contains(log, e.runId) then log else Append(log, Block(env, e, texts))
  }

  // ---- the drain loop ----

  function MaxSequence(runs: seq<Entry>, mergedOnly: bool): nat {
    if runs == [] then 0
    else
      var rest := MaxSequence(runs[..|runs| - 1], mergedOnly);
      var last := runs[|runs| - 1];
      if (mergedOnly ==> last.merged) && last.sequence > rest then last.sequence else rest
  }

  predicate Ready(runs: seq<Entry>, i: nat)
    requires i < |runs|
  {
    !runs[i].merged && runs[i].status.Ended? && runs[i].sequence == MaxSequence(runs, true) + 1
  }

  /** Index of the first ready run at or after `from`, or |runs|. */
  function FindReady(runs: seq<Entry>, from: nat): (i: nat)
    requires from <= |runs|
    ensures from <= i <= |runs|
    ensures i < |runs| ==> Ready(runs, i)
    ensures forall j | from <= j < i :: !Ready(runs, j)
    decreases |runs| - from
  {
    if from == |runs| then from else if Ready(runs, from) then from else FindReady(runs, from + 1)
  }

  function Unmerged(runs: seq<Entry>): nat {
    if runs == [] then 0 else Unmerged(runs[..|runs| - 1]) + if runs[|runs| - 1].merged then 0 else 1
  }

  lemma MarkDecreases(runs: seq<Entry>, i: nat)
    requires i < |runs| && !runs[i].merged
    ensures Unmerged(runs[i := runs[i].(merged := true)]) < Unmerged(runs)
  {
    var marked := runs[i := runs[i].(merged := true)];
    if i == |runs| - 1 {
      assert marked[..|runs| - 1] == runs[..|runs| - 1];
    } else {
      assert marked[..|runs| - 1] == runs[..|runs| - 1][i := runs[i].(merged := true)];
      MarkDecreases(runs[..|runs| - 1], i);
    }
  }

  datatype Archive = Archive(runs: seq<Entry>, log: string)

  function Sources(env: Env, runId: string, current: string, delivered: seq<string>): seq<string> {
    if runId == current then delivered else env.found(runId)
  }

  function MarkAt(runs: seq<Entry>, i: nat): seq<Entry>
    requires i < |runs|
  {
    runs[i := runs[i].(merged := true)]
  }

  /** The archive after at most `budget` turns of the drain loop. */
  function Drain(env: Env, a: Archive, current: string, delivered: seq<string>, budget: nat): Archive
    decreases budget
  {
    var i := FindReady(a.runs, 0);
    if budget == 0 || i == |a.runs| then a
    else
      var e := a.runs[i];
      Drain(env,
            Archive(MarkAt(a.runs, i), MergeOne(env, a.log, e, Sources(env, e.runId, current, delivered))),
            current, delivered, budget - 1)
  }

  /** Unmerged runs bound the number of turns, so this budget never cuts the loop short. */
  lemma BudgetSuffices(env: Env, a: Archive, current: string, delivered: seq<string>, more: nat, budget: nat)
    requires Unmerged(a.runs) <= budget <= more
    ensures Drain(env, a, current, delivered, budget) == Drain(env, a, current, delivered, more)
    decreases budget
  {
    var i := FindReady(a.runs, 0);
    if i < |a.runs| {
      MarkDecreases(a.runs, i);
      var e := a.runs[i];
      BudgetSuffices(env,
                     Archive(MarkAt(a.runs, i), MergeOne(env, a.log, e, Sources(env, e.runId, current, delivered))),
                     current, delivered, more - 1, budget - 1);
    }
  }

  function FindRun(runs: seq<Entry>, runId: string, from: nat): (i: nat)
    requires from <= |runs|
    ensures from <= i <= |runs|
    ensures i < |runs| ==> runs[i].runId == runId
    ensures forall j | from <= j < i :: runs[j].runId != runId
    decreases |runs| - from
  {
    if from == |runs| || runs[from].runId == runId then from else FindRun(runs, runId, from + 1)
  }

  function Begun(a: Archive, runId: string, operation: string, at: string): Archive {
    a.(runs := a.runs + [Entry(MaxSequence(a.runs, false) + 1, runId, operation, Running, at, None, false)])
  }

  /** `complete` up to and including `budget` turns of the drain. */
  function Completed(env: Env, a: Archive, runId: string, delivered: seq<string>, outcome: string, at: string,
        budget: nat)
    : Archive
  {
    var i := FindRun(a.runs, runId, 0);
    if i == |a.runs| || a.runs[i].merged then a
    else
      Drain(env, a.(runs := a.runs[i := a.runs[i].(status := Ended(outcome), endedAt := Some(at))]),
            runId, delivered, budget)
  }

  function CompletedFully(env: Env, a: Archive, runId: string, delivered: seq<string>, outcome: string, at: string)
    : Archive
  {
    Completed(env, a, runId, delivered, outcome, at, |a.runs|)
  }

  lemma UnmergedBound(runs: seq<Entry>)
    ensures Unmerged(runs) <= |runs|
  {
    if runs != [] { UnmergedBound(runs[..|runs| - 1]); }
  }

  class TaskArchive {
    const env: Env
    var runs: seq<Entry>
    var taskAll: string

    constructor (env: Env)
      ensures this.env == env && View() == Archive([], "")
    {
      this.env := env;
      runs, taskAll := [], "";
    }

    function View(): Archive
      reads this
    {
      Archive(runs, taskAll)
    }

    method BeginCvekitRun(runId: string, operation: string, at: string) returns (sequence: nat)
      modifies this
      ensures View() == Begun(old(View()), runId, operation, at)
      ensures sequence == runs[|runs| - 1].sequence
    {
      sequence := MaxSequence(runs, false) + 1;
      runs := runs + [Entry(sequence, runId, operation, Running, at, None, false)];
    }

    method CompleteCvekitRun(runId: string, delivered: seq<string>, outcome: string, at: string)
      modifies this
      ensures View() == CompletedFully(env, old(View()), runId, delivered, outcome, at)
    {
      var i := FindRun(runs, runId, 0);
      if i == |runs| || runs[i].merged {
        return;
      }
      runs := runs[i := runs[i].(status := Ended(outcome), endedAt := Some(at))];
      MergeReadyRuns(delivered, runId);
    }

    method MergeReadyRuns(delivered: seq<string>, current: string)
      modifies this
      ensures View() == Drain(env, old(View()), current, delivered, |old(runs)|)
    {
      hide Sources, Contains, Append, Block, Unmerged;
      ghost var budget := |runs|;
      UnmergedBound(runs);
      while true
        invariant Unmerged(runs) <= budget
        invariant Drain(env, View(), current, delivered, budget)
               == Drain(env, old(View()), current, delivered, |old(runs)|)
        decreases Unmerged(runs)
      {
        var i := FindReady(runs, 0);
        if i == |runs| {
          return;
        }
        MarkDecreases(runs, i);
        var ready := runs[i];
        var logs := Sources(env, ready.runId, current, delivered);
        if logs != [] {
          if !Contains(taskAll, ready.runId) {
            taskAll := Append(taskAll, Block(env, ready, logs));
          }
        }
        runs := runs[i := ready.(merged := true)];
        budget := budget - 1;
      }
    }
  }
}
