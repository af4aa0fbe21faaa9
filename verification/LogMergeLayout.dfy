/**
 What the task-all log looks like on disk: header and log text of every merged log, each once, in order, with one line
 break between neighbours and nothing else.
 */
module LogMergeLayout {
  import opened Text
  import opened LogMerge
  import opened LogMergeProofs
  import LogMergeSources
  import opened LogMergeCrash
  import LogMergeIds

  // ---- texts laid end to end ----

  /** The text consists of these parts, part i standing at starts[i], with one line break between neighbours. */
  ghost predicate Laid(text: string, parts: seq<string>, starts: seq<nat>) {
    && |starts| == |parts| + 1 && starts[0] == 0 && starts[|parts|] == |text| + 1
    && forall i | 0 <= i < |parts| :: StandsAt(text, parts[i], starts[i], starts[i + 1])
  }

  /** The part fills the text from `from` to the line break, or the end, just before `next`. */
  predicate StandsAt(text: string, part: string, from: nat, next: nat) {
    && next == from + |part| + 1 && next <= |text| + 1
    && text[from..from + |part|] == part
    && (next <= |text| ==> text[next - 1] == '\n')
  }

  lemma LaidAlone(part: string) returns (starts: seq<nat>)
    ensures Laid(part, [part], starts)
  {
    starts := [0, |part| + 1];
    assert StandsAt(part, part, 0, |part| + 1);
  }

  lemma StandsBefore(text: string, more: string, part: string, from: nat, next: nat)
    requires StandsAt(text, part, from, next)
    ensures StandsAt(text + "\n" + more, part, from, next)
  {
    var whole := text + "\n" + more;
    assert whole[from..from + |part|] == text[from..from + |part|];
    if next <= |text| {
      assert whole[next - 1] == text[next - 1];
    } else {
      assert whole[|text|] == '\n';
    }
  }

  lemma StandsAfter(text: string, more: string, part: string, from: nat, next: nat)
    requires StandsAt(more, part, from, next)
    ensures StandsAt(text + "\n" + more, part, |text| + 1 + from, |text| + 1 + next)
  {
    var whole, n := text + "\n" + more, |text| + 1;
    assert whole[n + from..n + from + |part|] == more[from..from + |part|];
    if next <= |more| {
      assert whole[n + next - 1] == more[next - 1];
    }
  }

  function Shifted(starts: seq<nat>, offset: nat): seq<nat> {
    seq(|starts|, i requires 0 <= i < |starts| => starts[i] + offset)
  }

  lemma LaidTogether(text: string, parts: seq<string>, starts: seq<nat>, more: string, others: seq<string>,
                     offsets: seq<nat>)
    returns (all: seq<nat>)
    requires Laid(text, parts, starts) && Laid(more, others, offsets)
    ensures Laid(text + "\n" + more, parts + others, all)
  {
    var whole := text + "\n" + more;
    all := starts[..|parts|] + Shifted(offsets, |text| + 1);
    assert all[|parts|] == |text| + 1 + offsets[0] == starts[|parts|];
    assert |whole| == |text| + 1 + |more|;
    forall i | 0 <= i < |parts| + |others|
      ensures StandsAt(whole, (parts + others)[i], all[i], all[i + 1])
    {
      if i < |parts| {
        StandsBefore(text, more, parts[i], starts[i], starts[i + 1]);
      } else {
        var k := i - |parts|;
        StandsAfter(text, more, others[k], offsets[k], offsets[k + 1]);
      }
    }
    hide StandsAt;
  }

  // ---- one block ----

  /** What a run puts into the log: each of its logs under a header. */
  ghost function PartsOf(env: Env, e: Entry, texts: seq<string>): seq<string>
    requires e.status.Ended?
  {
    seq(|texts|, i requires 0 <= i < |texts| => Header(env, e) + "\n" + texts[i])
  }

  lemma {:induction false} ChunksLaid(env: Env, e: Entry, texts: seq<string>) returns (starts: seq<nat>)
    requires e.status.Ended? && texts != []
    ensures Laid(JoinChunks(env, e, texts), PartsOf(env, e, texts), starts)
    decreases |texts|
  {
    hide Header, Laid;
    var first := Header(env, e) + "\n" + texts[0];
    starts := LaidAlone(first);
    if |texts| == 1 {
      assert PartsOf(env, e, texts) == [first];
    } else {
      var offsets := ChunksLaid(env, e, texts[1..]);
      assert PartsOf(env, e, texts) == [first] + PartsOf(env, e, texts[1..]);
      starts := LaidTogether(first, [first], starts, JoinChunks(env, e, texts[1..]), PartsOf(env, e, texts[1..]),
                             offsets);
    }
  }

  /** A block is, before redaction, its logs in order, each once and under the run's header, and nothing else. */
  lemma BlockLayout(env: Env, e: Entry, texts: seq<string>) returns (raw: string, starts: seq<nat>)
    requires e.status.Ended? && texts != []
    ensures Block(env, e, texts) == env.redact(raw) && Laid(raw, PartsOf(env, e, texts), starts)
  {
    raw := JoinChunks(env, e, texts);
    starts := ChunksLaid(env, e, texts);
    hide Laid, JoinChunks, Header;
  }

  // ---- the whole file ----

  /** Nothing to redact. */
  ghost predicate Verbatim(env: Env) {
    forall text: string :: env.redact(text) == text
  }

  /** Everything the first n blocks put into the log. */
  ghost function AllParts(env: Env, w: seq<Piece>, n: nat): seq<string>
    requires n <= |w| && AllEnded(w)
  {
    if n == 0 then [] else AllParts(env, w, n - 1) + PartsOf(env, w[n - 1].entry, w[n - 1].texts)
  }

  ghost predicate HaveLogs(w: seq<Piece>) {
    forall p | 0 <= p < |w| :: w[p].texts != []
  }

  lemma {:induction false} JoinedLayout(env: Env, w: seq<Piece>, n: nat) returns (starts: seq<nat>)
    requires Verbatim(env) && AllEnded(w) && HaveLogs(w) && 0 < n <= |w|
    ensures Laid(Joined(env, w, n), AllParts(env, w, n), starts) && Joined(env, w, n) != ""
    decreases n
  {
    hide Laid, Header, JoinChunks;
    var e, texts := w[n - 1].entry, w[n - 1].texts;
    var raw := JoinChunks(env, e, texts);
    var offsets := ChunksLaid(env, e, texts);
    BlockNotBlank(env, e, texts);
    starts := offsets;
    if n == 1 {
      assert [] + PartsOf(env, e, texts) == PartsOf(env, e, texts);
      assert AllParts(env, w, 0) == [] && Joined(env, w, 0) == "";
    } else {
      var before := JoinedLayout(env, w, n - 1);
      starts := LaidTogether(Joined(env, w, n - 1), AllParts(env, w, n - 1), before, raw, PartsOf(env, e, texts),
                             offsets);
    }
  }

  lemma BlockNotBlank(env: Env, e: Entry, texts: seq<string>)
    requires e.status.Ended? && texts != []
    ensures JoinChunks(env, e, texts) != ""
  {
    assert |Header(env, e)| > 0 by { hide Decimal; }
    hide Header;
  }

  /** A header shows its run's id, so with nothing to redact every block does. */
  lemma VerbatimShowsItself(env: Env, ops: seq<Op>)
    requires Verbatim(env)
    ensures ShowsItself(env, ops)
  {
    hide Writable, Contains, JoinChunks;
    forall p: Piece | Writable(env, ops, p) && p.texts != [] && p.entry.status.Ended?
      ensures Contains(Block(env, p.entry, p.texts), p.entry.runId)
    {
      HeaderStarts(env, p.entry, p.texts);
    }
  }

  lemma HeaderStarts(env: Env, e: Entry, texts: seq<string>)
    requires e.status.Ended? && texts != []
    ensures Contains(JoinChunks(env, e, texts), e.runId)
  {
    var lead := "--- task run " + Decimal(e.sequence) + " | ";
    LogMergeIds.HeaderIs(env, e);
    hide Decimal;
    var header := Header(env, e);
    assert lead + e.runId <= header by {
      assert header[..|lead + e.runId|] == lead + e.runId;
    }
    hide Header;
    var whole := JoinChunks(env, e, texts);
    assert header <= whole;
    LogMergeIds.ShowsItself(e.runId);
    ContainsExtends(lead, e.runId, whole[|lead + e.runId|..], e.runId);
    assert lead + e.runId + whole[|lead + e.runId|..] == whole;
  }

  /**
   The file after every history, crashes included, when nothing is redacted: the logs of some registered runs, no run
   twice, each log once under its run's header, in the order of a run's logs, with single line breaks between them.
   */
  lemma FileLayout(env: Env, ops: seq<Op>) returns (w: seq<Piece>, starts: seq<nat>)
    requires Verbatim(env) && FreshIds(Begins(ops))
    ensures BlocksOnce(env, ops, w) && HaveLogs(w)
    ensures if w == [] then Run(env, ops).log == ""
            else Laid(Run(env, ops).log, AllParts(env, w, |w|), starts)
  {
    hide Run, Begins, Writable, Laid, Header, JoinChunks;
    VerbatimShowsItself(env, ops);
    w := CrashesNeverDuplicate(env, ops);
    starts := [];
    if w != [] { starts := JoinedLayout(env, w, |w|); }
  }

  // ---- the file without crashes ----

  /** The blocks of the first k runs that have logs. */
  ghost function PiecesOf(src: LogMergeSources.Source, runs: seq<Entry>, k: nat): (w: seq<Piece>)
    requires Finished(runs, 0, k)
    ensures AllEnded(w) && HaveLogs(w)
  {
    if k == 0 then []
    else
      var e := runs[k - 1];
      PiecesOf(src, runs, k - 1) + if src(e.runId) == [] then [] else [Piece(e, src(e.runId))]
  }

  /** w is the runs at these places, with their logs, in the order of the runs, and every other of the first k has
      no logs. */
  ghost predicate Picked(src: LogMergeSources.Source, runs: seq<Entry>, k: nat, w: seq<Piece>, at: seq<nat>)
    requires k <= |runs|
  {
    && |at| == |w| && (forall p | 0 <= p < |w| :: at[p] < k && w[p].entry == runs[at[p]])
    && (forall p | 0 <= p < |w| :: w[p].texts == src(runs[at[p]].runId) && w[p].texts != [])
    && (forall p, q | 0 <= p < q < |w| :: at[p] < at[q])
    && forall r: nat | r < k && r !in at :: src(runs[r].runId) == []
  }

  lemma PickedNext(src: LogMergeSources.Source, runs: seq<Entry>, k: nat, w: seq<Piece>, at: seq<nat>)
    requires k < |runs| && Picked(src, runs, k, w, at)
    ensures var e := runs[k];
            if src(e.runId) == [] then Picked(src, runs, k + 1, w, at)
            else Picked(src, runs, k + 1, w + [Piece(e, src(e.runId))], at + [k])
  {
    var e := runs[k];
    if src(e.runId) == [] {
      assert forall r: nat | r < k + 1 && r !in at :: r == k || r < k;
    } else {
      var more := at + [k];
      assert more[|at|] == k;
      forall r: nat | r < k + 1 && r !in more ensures src(runs[r].runId) == [] {
        assert r != k && r !in at;
      }
    }
  }

  /** Every run among the first k that has logs is there, with them, and in the order of the runs. */
  lemma {:induction false} PiecesAre(src: LogMergeSources.Source, runs: seq<Entry>, k: nat) returns (at: seq<nat>)
    requires Finished(runs, 0, k)
    ensures Picked(src, runs, k, PiecesOf(src, runs, k), at)
    decreases k
  {
    hide *;
    if k == 0 {
      at := [];
      NothingPicked(src, runs);
    } else {
      FinishedBefore(runs, k);
      PiecesNext(src, runs, k);
      var before := PiecesAre(src, runs, k - 1);
      PickedNext(src, runs, k - 1, PiecesOf(src, runs, k - 1), before);
      at := if src(runs[k - 1].runId) == [] then before else before + [k - 1];
    }
  }

  lemma NothingPicked(src: LogMergeSources.Source, runs: seq<Entry>)
    ensures Finished(runs, 0, 0) && PiecesOf(src, runs, 0) == [] && Picked(src, runs, 0, [], [])
  {}

  lemma FinishedBefore(runs: seq<Entry>, k: nat)
    requires Finished(runs, 0, k) && k > 0
    ensures k <= |runs| && Finished(runs, 0, k - 1)
  {}

  lemma PiecesNext(src: LogMergeSources.Source, runs: seq<Entry>, k: nat)
    requires Finished(runs, 0, k) && k > 0
    ensures var e := runs[k - 1];
            PiecesOf(src, runs, k) == if src(e.runId) == [] then PiecesOf(src, runs, k - 1)
                                      else PiecesOf(src, runs, k - 1) + [Piece(e, src(e.runId))]
  {}

  lemma {:induction false} InOrderJoins(env: Env, src: LogMergeSources.Source, runs: seq<Entry>, k: nat)
    requires Finished(runs, 0, k)
    ensures var w := PiecesOf(src, runs, k); LogMergeSources.InOrder(env, src, runs, k) == Joined(env, w, |w|)
    decreases k
  {
    hide Block, Append;
    if k == 0 {
    } else {
      InOrderJoins(env, src, runs, k - 1);
      var before, w := PiecesOf(src, runs, k - 1), PiecesOf(src, runs, k);
      if w != before {
        assert w[..|before|] == before;
        JoinedPrefix(env, before, w, |before|);
      }
    }
  }

  /**
   Without crashes, nothing redacted and no id mentioned too early: the file is the used logs of every merged run that
   has some, each once under its run's header, in sequence order, with single line breaks between them.
   */
  lemma OrderlyFileLayout(env: Env, ops: seq<Op>, k: nat) returns (starts: seq<nat>)
    requires Verbatim(env) && NoLoss(ops) && FreshIds(Begins(ops))
    requires MergedUpTo(Run(env, ops).runs, k) && LongestFinished(Run(env, ops).runs, k)
    requires forall i | 0 <= i < k :: Run(env, ops).runs[i].runId != ""
    requires LogMergeSources.NoneShadowed(env, LogMergeSources.UsedSource(env, ops), Run(env, ops).runs, k)
    ensures var w := PiecesOf(LogMergeSources.UsedSource(env, ops), Run(env, ops).runs, k);
            if w == [] then Run(env, ops).log == "" else Laid(Run(env, ops).log, AllParts(env, w, |w|), starts)
  {
    hide Run, Begins, NoLoss, FreshIds, Laid, AllParts, LogMergeSources.UsedSource, LogMergeSources.NoneShadowed;
    var src, runs := LogMergeSources.UsedSource(env, ops), Run(env, ops).runs;
    LogMergeSources.LogIsFunctionOfSources(env, ops);
    LogMergeSources.InOrderExactly(env, src, runs, k);
    InOrderJoins(env, src, runs, k);
    var w := PiecesOf(src, runs, k);
    starts := [];
    if w != [] { starts := JoinedLayout(env, w, |w|); }
  }
}
