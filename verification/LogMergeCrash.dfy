/**
 The task-all log when manifest writes are lost after the log has grown, whatever logs each attempt delivers: no
 block is ever appended twice, and exactly when the blocks stay in sequence order.
 */
module LogMergeCrash {
  import opened Text
  import opened LogMerge
  import opened LogMergeProofs
  import LogMergeSources

  // ---- a log as a list of blocks ----

  /** One appended block: the run as it then stood and the logs it was written from. */
  datatype Piece = Piece(entry: Entry, texts: seq<string>)

  ghost predicate Has(w: seq<Piece>, id: string) {
    exists p | 0 <= p < |w| :: w[p].entry.runId == id
  }

  /** Which blocks may be written. */
  type Allowed = Piece -> bool

  ghost predicate GoodPiece(p: Piece, ids: set<string>, allowed: Allowed) {
    p.entry.status.Ended? && p.texts != [] && p.entry.runId in ids && allowed(p)
  }

  ghost predicate GoodPieces(w: seq<Piece>, ids: set<string>, allowed: Allowed) {
    && (forall p | 0 <= p < |w| :: GoodPiece(w[p], ids, allowed))
    && EachOnce(w)
  }

  /** No run has two blocks. */
  ghost predicate EachOnce(w: seq<Piece>) {
    forall p, q | 0 <= p < q < |w| :: w[p].entry.runId != w[q].entry.runId
  }

  ghost predicate AllEnded(w: seq<Piece>) {
    forall p | 0 <= p < |w| :: w[p].entry.status.Ended?
  }

  ghost function Joined(env: Env, w: seq<Piece>, n: nat): string
    requires n <= |w| && AllEnded(w)
  {
    if n == 0 then "" else Append(Joined(env, w, n - 1), Block(env, w[n - 1].entry, w[n - 1].texts))
  }

  /** Run ids are single-line tokens, and every allowed block of one of these runs shows its own id and no other's. */
  ghost predicate Identifies(env: Env, ids: set<string>, allowed: Allowed) {
    && (forall id | id in ids :: id != "" && '\n' !in id)
    && forall p: Piece, x: string | GoodPiece(p, ids, allowed) && x in ids ::
         Contains(Block(env, p.entry, p.texts), x) <==> x == p.entry.runId
  }

  /** A single-line token shows in a joined text exactly when it shows in a part. */
  lemma ContainsAppended(log: string, block: string, x: string)
    requires '\n' !in x && x != ""
    ensures Contains(Append(log, block), x) <==> Contains(log, x) || Contains(block, x)
  {
    assert !HasAt("", x, 0);
    if log != "" {
      var whole := log + "\n" + block;
      assert "" + log + ("\n" + block) == whole && log + "\n" + block + "" == whole;
      if Contains(log, x) { ContainsExtends("", log, "\n" + block, x); }
      if Contains(block, x) { ContainsExtends(log + "\n", block, "", x); }
      if Contains(whole, x) { ContainsSplits(log, '\n', block, x); }
    }
  }

  /** The first n blocks show exactly the ids of their runs. */
  lemma {:induction false} JoinedShows(env: Env, w: seq<Piece>, n: nat, ids: set<string>, allowed: Allowed, x: string)
    requires Identifies(env, ids, allowed) && GoodPieces(w, ids, allowed) && n <= |w| && x in ids && AllEnded(w)
    ensures Contains(Joined(env, w, n), x) <==> exists p | 0 <= p < n :: w[p].entry.runId == x
    decreases n
  {
    hide Block;
    assert !HasAt("", x, 0);
    if n == 0 {
    } else {
      JoinedShows(env, w, n - 1, ids, allowed, x);
      assert GoodPiece(w[n - 1], ids, allowed);
      ContainsAppended(Joined(env, w, n - 1), Block(env, w[n - 1].entry, w[n - 1].texts), x);
      hide Contains, GoodPieces, GoodPiece;
    }
  }

  lemma {:induction false} JoinedPrefix(env: Env, w: seq<Piece>, v: seq<Piece>, n: nat)
    requires n <= |w| <= |v| && v[..|w|] == w && AllEnded(w) && AllEnded(v)
    ensures Joined(env, v, n) == Joined(env, w, n)
    decreases n
  {
    hide Block;
    if n == 0 {
    } else {
      JoinedPrefix(env, w, v, n - 1);
      assert v[..|w|][n - 1] == w[n - 1];
    }
  }

  lemma {:induction false} JoinedGrows(env: Env, w: seq<Piece>, m: nat, n: nat)
    requires m <= n <= |w| && AllEnded(w)
    ensures Joined(env, w, m) <= Joined(env, w, n)
    decreases n
  {
    hide Block;
    if n <= m {
    } else {
      JoinedGrows(env, w, m, n - 1);
    }
  }

  // ---- the order of the blocks, read off the text ----

  /** x shows in some beginning of the log that does not show y yet. */
  ghost predicate Before(log: string, x: string, y: string) {
    exists n: nat | n <= |log| :: ShowsFirst(log, n, x, y)
  }

  predicate ShowsFirst(log: string, n: nat, x: string, y: string)
    requires n <= |log|
  {
    Contains(log[..n], x) && !Contains(log[..n], y)
  }

  lemma ContainsGrows(a: string, b: string, x: string)
    requires a <= b && Contains(a, x)
    ensures Contains(b, x)
  {
    ContainsExtends("", a, b[|a|..], x);
    assert "" + a + b[|a|..] == b;
  }

  /** Two ids cannot each show before the other. */
  lemma BeforeOneWay(log: string, x: string, y: string)
    requires Before(log, x, y)
    ensures !Before(log, y, x)
  {
    if Before(log, y, x) {
      var n: nat :| n <= |log| && ShowsFirst(log, n, x, y);
      var m: nat :| m <= |log| && ShowsFirst(log, m, y, x);
      if n <= m {
        assert log[..n] <= log[..m];
        ContainsGrows(log[..n], log[..m], x);
      } else {
        assert log[..m] <= log[..n];
        ContainsGrows(log[..m], log[..n], y);
      }
    }
  }

  lemma OnlyPiece(w: seq<Piece>, n: nat, q: nat, ids: set<string>, allowed: Allowed)
    requires GoodPieces(w, ids, allowed) && n <= |w| && q < |w|
    ensures (exists p | 0 <= p < n :: w[p].entry.runId == w[q].entry.runId) <==> q < n
    ensures w[q].entry.runId in ids
  {
    assert GoodPiece(w[q], ids, allowed);
  }

  /** The first n blocks show the id of block q exactly when it is among them. */
  lemma PieceShows(env: Env, w: seq<Piece>, n: nat, q: nat, ids: set<string>, allowed: Allowed)
    requires Identifies(env, ids, allowed) && GoodPieces(w, ids, allowed) && n <= |w| && q < |w| && AllEnded(w)
    ensures Contains(Joined(env, w, n), w[q].entry.runId) <==> q < n
  {
    OnlyPiece(w, n, q, ids, allowed);
    hide *;
    JoinedShows(env, w, n, ids, allowed, w[q].entry.runId);
  }

  /** Of two blocks, the id of the earlier one shows first. */
  lemma EarlierShowsFirst(env: Env, w: seq<Piece>, p: nat, q: nat, ids: set<string>, allowed: Allowed)
    requires Identifies(env, ids, allowed) && GoodPieces(w, ids, allowed) && p < q < |w| && AllEnded(w)
    ensures Before(Joined(env, w, |w|), w[p].entry.runId, w[q].entry.runId)
  {
    hide *;
    JoinedGrows(env, w, p + 1, |w|);
    PieceShows(env, w, p + 1, p, ids, allowed);
    PieceShows(env, w, p + 1, q, ids, allowed);
    PartShows(Joined(env, w, |w|), Joined(env, w, p + 1), w[p].entry.runId, w[q].entry.runId);
  }

  lemma PartShows(log: string, part: string, x: string, y: string)
    requires part <= log && Contains(part, x) && !Contains(part, y)
    ensures Before(log, x, y)
  {
    hide Contains;
    assert log[..|part|] == part;
    assert ShowsFirst(log, |part|, x, y);
  }

  /** The ids of runs that show in the log show in sequence order. */
  ghost predicate InOrder(a: Archive) {
    forall i, j | 0 <= i < j < |a.runs| && Contains(a.log, a.runs[i].runId) && Contains(a.log, a.runs[j].runId) ::
      Before(a.log, a.runs[i].runId, a.runs[j].runId)
  }

  // ---- what the file holds after every step ----

  /** The log is the blocks of w, each of a registered run. */
  ghost predicate Holds(env: Env, a: Archive, w: seq<Piece>, ids: set<string>, allowed: Allowed) {
    && GoodPieces(w, ids, allowed) && AllEnded(w) && a.log == Joined(env, w, |w|)
    && DistinctIds(a.runs, ids)
    && forall p | 0 <= p < |w| :: exists r :: 0 <= r < |a.runs| && a.runs[r].runId == w[p].entry.runId
  }

  lemma HoldsShows(env: Env, a: Archive, w: seq<Piece>, ids: set<string>, allowed: Allowed, x: string)
    requires Identifies(env, ids, allowed) && Holds(env, a, w, ids, allowed) && x in ids
    ensures Contains(a.log, x) <==> Has(w, x)
  {
    JoinedShows(env, w, |w|, ids, allowed, x);
  }

  /** The blocks of w stand in the order of the runs. */
  ghost predicate Ordered(w: seq<Piece>, runs: seq<Entry>) {
    forall p, q, i, j |
      0 <= p < |w| && 0 <= q < |w| && 0 <= i < j < |runs|
      && w[p].entry.runId == runs[i].runId && w[q].entry.runId == runs[j].runId ::
      p < q
  }

  /** Order of blocks and order in the text are the same thing. */
  lemma OrderedExactly(env: Env, a: Archive, w: seq<Piece>, ids: set<string>, allowed: Allowed)
    requires Identifies(env, ids, allowed) && Holds(env, a, w, ids, allowed)
    ensures InOrder(a) <==> Ordered(w, a.runs)
  {
    forall p, q, i, j |
      0 <= p < |w| && 0 <= q < |w| && 0 <= i < j < |a.runs|
      && w[p].entry.runId == a.runs[i].runId && w[q].entry.runId == a.runs[j].runId
      ensures Contains(a.log, a.runs[i].runId) && Contains(a.log, a.runs[j].runId)
      ensures Before(a.log, a.runs[i].runId, a.runs[j].runId) <==> p < q
    {
      PairOrder(env, a, w, ids, allowed, p, q, i, j);
    }
    forall i | 0 <= i < |a.runs| ensures Contains(a.log, a.runs[i].runId) ==> Has(w, a.runs[i].runId) {
      HoldsShows(env, a, w, ids, allowed, a.runs[i].runId);
    }
    hide Contains, Before, Holds, Identifies;
  }

  lemma PairOrder(env: Env, a: Archive, w: seq<Piece>, ids: set<string>, allowed: Allowed, p: nat, q: nat, i: nat,
        j: nat)
    requires Identifies(env, ids, allowed) && Holds(env, a, w, ids, allowed)
    requires p < |w| && q < |w| && i < j < |a.runs|
    requires w[p].entry.runId == a.runs[i].runId && w[q].entry.runId == a.runs[j].runId
    ensures Contains(a.log, a.runs[i].runId) && Contains(a.log, a.runs[j].runId)
    ensures Before(a.log, a.runs[i].runId, a.runs[j].runId) <==> p < q
  {
    HoldsShows(env, a, w, ids, allowed, a.runs[i].runId);
    HoldsShows(env, a, w, ids, allowed, a.runs[j].runId);
    assert p != q;
    if p < q {
      EarlierShowsFirst(env, w, p, q, ids, allowed);
    } else {
      EarlierShowsFirst(env, w, q, p, ids, allowed);
      BeforeOneWay(a.log, a.runs[j].runId, a.runs[i].runId);
    }
    hide Contains, Before, Joined, Identifies;
  }

  // ---- one drain, block by block ----

  /** What one turn of the loop does to the list of blocks. */
  ghost function Piled(w: seq<Piece>, e: Entry, texts: seq<string>): seq<Piece> {
    if texts == [] || Has(w, e.runId) then w else w + [Piece(e, texts)]
  }

  ghost function PileFold(env: Env, w: seq<Piece>, runs: seq<Entry>, lo: nat, hi: nat,
                          current: string, delivered: seq<string>): seq<Piece>
    requires hi <= |runs|
  {
    if hi <= lo then w
    else
      var e := runs[hi - 1];
      Piled(PileFold(env, w, runs, lo, hi - 1, current, delivered), e, Sources(env, e.runId, current, delivered))
  }

  lemma OneMorePile(env: Env, w: seq<Piece>, p: Piece)
    requires AllEnded(w) && p.entry.status.Ended?
    ensures AllEnded(w + [p])
    ensures Joined(env, w + [p], |w| + 1) == Append(Joined(env, w, |w|), Block(env, p.entry, p.texts))
  {
    var v := w + [p];
    assert v[..|w|] == w && v[|w|] == p;
    JoinedPrefix(env, w, v, |w|);
    hide Block, Append;
  }

  lemma MergePiles(env: Env, w: seq<Piece>, e: Entry, texts: seq<string>, ids: set<string>, allowed: Allowed)
    requires Identifies(env, ids, allowed) && GoodPieces(w, ids, allowed) && AllEnded(w)
    requires e.status.Ended? && e.runId in ids && (texts != [] ==> allowed(Piece(e, texts)))
    ensures var v := Piled(w, e, texts);
            GoodPieces(v, ids, allowed) && AllEnded(v) && w <= v
            && MergeOne(env, Joined(env, w, |w|), e, texts) == Joined(env, v, |v|)
  {
    JoinedShows(env, w, |w|, ids, allowed, e.runId);
    hide Joined, Block, Contains, Identifies, Append;
    if texts != [] && !Has(w, e.runId) {
      OneMorePile(env, w, Piece(e, texts));
    }
  }

  /** Every block that a drain of runs[lo..hi] may write is allowed. */
  ghost predicate SourcesAllowed(env: Env, allowed: Allowed, runs: seq<Entry>, lo: nat, hi: nat, current: string,
                                 delivered: seq<string>)
    requires hi <= |runs|
  {
    forall r | lo <= r < hi :: allowed(Piece(runs[r], Sources(env, runs[r].runId, current, delivered)))
  }

  lemma FewerAllowed(env: Env, allowed: Allowed, runs: seq<Entry>, lo: nat, hi: nat, current: string,
                     delivered: seq<string>)
    requires lo < hi <= |runs| && SourcesAllowed(env, allowed, runs, lo, hi, current, delivered)
    ensures SourcesAllowed(env, allowed, runs, lo, hi - 1, current, delivered)
  {}

  lemma {:induction false} FoldPiles(env: Env, w: seq<Piece>, runs: seq<Entry>, lo: nat, hi: nat, current: string,
                                     delivered: seq<string>, ids: set<string>, allowed: Allowed)
    requires Identifies(env, ids, allowed) && GoodPieces(w, ids, allowed) && AllEnded(w)
    requires Finished(runs, lo, hi) && SourcesAllowed(env, allowed, runs, lo, hi, current, delivered)
    requires DistinctIds(runs, ids)
    ensures var v := PileFold(env, w, runs, lo, hi, current, delivered);
            GoodPieces(v, ids, allowed) && AllEnded(v) && w <= v
            && Fold(env, Joined(env, w, |w|), runs, lo, hi, current, delivered) == Joined(env, v, |v|)
    decreases hi
  {
    hide Identifies, GoodPieces, AllEnded, MergeOne, Joined, Piled;
    if hi <= lo {
    } else {
      FoldPiles(env, w, runs, lo, hi - 1, current, delivered, ids, allowed);
      var e := runs[hi - 1];
      MergePiles(env, PileFold(env, w, runs, lo, hi - 1, current, delivered), e,
                 Sources(env, e.runId, current, delivered), ids, allowed);
    }
  }

  ghost predicate DistinctRuns(runs: seq<Entry>) {
    forall i, j | 0 <= i < j < |runs| :: runs[i].runId != runs[j].runId
  }

  lemma PiledHas(w: seq<Piece>, e: Entry, texts: seq<string>, x: string)
    ensures Has(Piled(w, e, texts), x) <==> Has(w, x) || (texts != [] && x == e.runId)
  {
    var v := w + [Piece(e, texts)];
    assert v[|w|].entry.runId == e.runId;
    assert forall p | 0 <= p < |w| :: v[p] == w[p];
  }

  /** A drain leaves blocks for the runs that had one and those of its stretch that it finds logs for. */
  lemma {:induction false} FoldHas(env: Env, w: seq<Piece>, runs: seq<Entry>, lo: nat, hi: nat, current: string,
                                   delivered: seq<string>, r: nat)
    requires hi <= |runs| && r < |runs| && DistinctRuns(runs)
    ensures Has(PileFold(env, w, runs, lo, hi, current, delivered), runs[r].runId) <==>
            Has(w, runs[r].runId) || (lo <= r < hi && Sources(env, runs[r].runId, current, delivered) != [])
    decreases hi
  {
    hide Has, Piled;
    if hi <= lo {
    } else {
      FoldHas(env, w, runs, lo, hi - 1, current, delivered, r);
      var e := runs[hi - 1];
      PiledHas(PileFold(env, w, runs, lo, hi - 1, current, delivered), e, Sources(env, e.runId, current, delivered),
               runs[r].runId);
    }
  }

  /** A new block goes to the end, so order is kept exactly when no later run has a block yet. */
  lemma PiledOrdered(w: seq<Piece>, runs: seq<Entry>, r: nat, e: Entry, texts: seq<string>)
    requires DistinctRuns(runs) && r < |runs| && e.runId == runs[r].runId
    requires EachOnce(w)
    ensures Ordered(Piled(w, e, texts), runs) <==>
            Ordered(w, runs)
            && (texts != [] && !Has(w, e.runId) ==> forall j | r < j < |runs| :: !Has(w, runs[j].runId))
  {
    if texts != [] && !Has(w, e.runId) {
      var v := w + [Piece(e, texts)];
      assert v[|w|].entry.runId == e.runId;
      assert forall p | 0 <= p < |w| :: v[p] == w[p];
    }
  }

  /** A drain keeps the order exactly when it writes no block for a run that a later run with a block passed. */
  lemma {:induction false} FoldOrdered(env: Env, w: seq<Piece>, runs: seq<Entry>, lo: nat, hi: nat, current: string,
                                       delivered: seq<string>, ids: set<string>, allowed: Allowed)
    requires Identifies(env, ids, allowed) && GoodPieces(w, ids, allowed) && AllEnded(w)
    requires hi <= |runs| && Finished(runs, lo, hi) && SourcesAllowed(env, allowed, runs, lo, hi, current, delivered)
    requires DistinctIds(runs, ids)
    ensures Ordered(PileFold(env, w, runs, lo, hi, current, delivered), runs) <==>
            Ordered(w, runs) && AllPass(env, w, runs, lo, hi, current, delivered)
    decreases hi
  {
    hide *;
    if lo < hi {
      FoldNext(env, w, runs, lo, hi, current, delivered);
      FewerAllowed(env, allowed, runs, lo, hi, current, delivered);
      FoldOrdered(env, w, runs, lo, hi - 1, current, delivered, ids, allowed);
      FoldStepOrdered(env, w, runs, lo, hi - 1, current, delivered, ids, allowed);
    } else {
      FoldNone(env, w, runs, lo, hi, current, delivered);
    }
  }

  lemma FoldNone(env: Env, w: seq<Piece>, runs: seq<Entry>, lo: nat, hi: nat, current: string, delivered: seq<string>)
    requires hi <= lo && hi <= |runs|
    ensures PileFold(env, w, runs, lo, hi, current, delivered) == w
    ensures AllPass(env, w, runs, lo, hi, current, delivered)
  {}

  lemma FoldStepOrdered(env: Env, w: seq<Piece>, runs: seq<Entry>, lo: nat, hi: nat, current: string,
                        delivered: seq<string>, ids: set<string>, allowed: Allowed)
    requires Identifies(env, ids, allowed) && GoodPieces(w, ids, allowed) && AllEnded(w)
    requires hi < |runs| && Finished(runs, lo, hi) && SourcesAllowed(env, allowed, runs, lo, hi, current, delivered)
    requires DistinctIds(runs, ids)
    ensures var v := PileFold(env, w, runs, lo, hi, current, delivered);
            Ordered(Piled(v, runs[hi], Sources(env, runs[hi].runId, current, delivered)), runs) <==>
            Ordered(v, runs) && Passes(env, w, runs, hi, current, delivered)
  {
    hide *;
    FoldPiles(env, w, runs, lo, hi, current, delivered, ids, allowed);
    var v := PileFold(env, w, runs, lo, hi, current, delivered);
    DistinctPieces(v, ids, allowed);
    DistinctFrom(runs, ids);
    FoldHasFrom(env, w, runs, lo, hi, current, delivered);
    OrderedStep(env, w, v, runs, hi, current, delivered);
  }

  lemma FoldHasFrom(env: Env, w: seq<Piece>, runs: seq<Entry>, lo: nat, hi: nat, current: string,
        delivered: seq<string>)
    requires hi <= |runs| && DistinctRuns(runs)
    ensures SameFrom(PileFold(env, w, runs, lo, hi, current, delivered), w, runs, hi)
  {
    forall j | hi <= j < |runs|
      ensures Has(PileFold(env, w, runs, lo, hi, current, delivered), runs[j].runId) <==> Has(w, runs[j].runId)
    {
      FoldHas(env, w, runs, lo, hi, current, delivered, j);
    }
  }

  ghost predicate SameFrom(v: seq<Piece>, w: seq<Piece>, runs: seq<Entry>, r: nat) {
    forall j | r <= j < |runs| :: Has(v, runs[j].runId) <==> Has(w, runs[j].runId)
  }

  ghost predicate AllPass(env: Env, w: seq<Piece>, runs: seq<Entry>, lo: nat, hi: nat, current: string,
                          delivered: seq<string>)
    requires hi <= |runs|
  {
    forall r | lo <= r < hi :: Passes(env, w, runs, r, current, delivered)
  }

  lemma FoldNext(env: Env, w: seq<Piece>, runs: seq<Entry>, lo: nat, hi: nat, current: string, delivered: seq<string>)
    requires lo < hi <= |runs|
    ensures Finished(runs, lo, hi) ==> Finished(runs, lo, hi - 1)
    ensures PileFold(env, w, runs, lo, hi, current, delivered)
            == Piled(PileFold(env, w, runs, lo, hi - 1, current, delivered), runs[hi - 1],
                     Sources(env, runs[hi - 1].runId, current, delivered))
    ensures AllPass(env, w, runs, lo, hi, current, delivered) <==>
            AllPass(env, w, runs, lo, hi - 1, current, delivered) && Passes(env, w, runs, hi - 1, current, delivered)
  {
    hide Passes, Piled, Sources;
  }

  lemma OrderedStep(env: Env, w: seq<Piece>, v: seq<Piece>, runs: seq<Entry>, r: nat, current: string,
                    delivered: seq<string>)
    requires DistinctRuns(runs) && r < |runs|
    requires EachOnce(v) && SameFrom(v, w, runs, r)
    ensures Ordered(Piled(v, runs[r], Sources(env, runs[r].runId, current, delivered)), runs) <==>
            Ordered(v, runs) && Passes(env, w, runs, r, current, delivered)
  {
    hide Ordered, Piled, Has, Sources;
    PiledOrdered(v, runs, r, runs[r], Sources(env, runs[r].runId, current, delivered));
  }

  lemma DistinctPieces(w: seq<Piece>, ids: set<string>, allowed: Allowed)
    requires GoodPieces(w, ids, allowed)
    ensures EachOnce(w)
  {}

  /** Run r gets no block, or no run after it has one. */
  ghost predicate Passes(env: Env, w: seq<Piece>, runs: seq<Entry>, r: nat, current: string, delivered: seq<string>)
    requires r < |runs|
  {
    Sources(env, runs[r].runId, current, delivered) != [] && !Has(w, runs[r].runId) ==>
      forall j | r < j < |runs| :: !Has(w, runs[j].runId)
  }

  // ---- one operation ----

  /** A run without a block that a later run with one passed: the next run, once delivered no logs, or a finished run
      without logs to find. */
  ghost predicate Gap(env: Env, runs: seq<Entry>, w: seq<Piece>, k: nat, empties: set<string>) {
    forall r, j | k <= r < j < |runs| && Has(w, runs[j].runId) && !Has(w, runs[r].runId) ::
      if r == k then runs[r].runId in empties else runs[r].status.Ended? && env.found(runs[r].runId) == []
  }

  /** The archive, as blocks, with k runs merged. */
  ghost predicate State(env: Env, a: Archive, w: seq<Piece>, k: nat, ids: set<string>, allowed: Allowed,
                        empties: set<string>) {
    && Holds(env, a, w, ids, allowed) && Numbered(a.runs) && MergedUpTo(a.runs, k) && LongestFinished(a.runs, k)
    && Gap(env, a.runs, w, k, empties)
  }

  /** Logs turn up late: the run next in sequence is delivered logs, has no block yet, and a later run has. */
  ghost predicate LateLogs(a: Archive, op: Op) {
    !op.Begin? && op.delivered != [] && (op.Lost? ==> op.turns > 0)
    && var k := MaxSequence(a.runs, true);
       k < |a.runs| && FindRun(a.runs, op.runId, 0) == k && !Contains(a.log, op.runId)
       && exists j | k < j < |a.runs| :: Contains(a.log, a.runs[j].runId)
  }

  /** The run an operation delivers no logs for. */
  function Empty(op: Op): set<string> {
    if !op.Begin? && op.delivered == [] then {op.runId} else {}
  }

  /** The stretch of runs an operation on run i appends, k merged and f finished. */
  ghost function Stretch(a: Archive, op: Op, k: nat, f: nat): nat
    requires !op.Begin?
  {
    var budget := if op.Lost? then op.turns else |a.runs|;
    if f <= k + budget then f else k + budget
  }

  lemma DistinctFrom(runs: seq<Entry>, ids: set<string>)
    requires DistinctIds(runs, ids)
    ensures DistinctRuns(runs) && forall r | 0 <= r < |runs| :: runs[r].runId in ids
  {}

  /** The same, of the blocks: a stretch k..m is begun with logs for a run that a later run with a block passed. */
  ghost predicate LateIn(w: seq<Piece>, runs: seq<Entry>, k: nat, m: nat, id: string, delivered: seq<string>) {
    k < m && delivered != [] && !Has(w, id) && exists j | k < j < |runs| :: Has(w, runs[j].runId)
  }

  /** Within a stretch only its first run can be late, since every other run's source is the scan. */
  lemma OnlyFirstIsLate(env: Env, w: seq<Piece>, runs: seq<Entry>, runs1: seq<Entry>, k: nat, m: nat, i: nat,
                        current: string, delivered: seq<string>, empties: set<string>)
    requires Gap(env, runs, w, k, empties) && |runs1| == |runs| && k <= i < |runs| && k <= m <= |runs|
             && (k < m ==> i == k)
    requires forall r | 0 <= r < |runs| :: runs1[r].runId == runs[r].runId && (r != i ==> runs1[r] == runs[r])
    requires DistinctRuns(runs) && runs[i].runId == current && Finished(runs1, k, m)
    ensures AllPass(env, w, runs1, k, m, current, delivered) <==> !LateIn(w, runs, k, m, current, delivered)
  {
    hide Has;
    if k < m {
      forall r | k < r < m ensures Passes(env, w, runs1, r, current, delivered) {
        assert runs1[r] == runs[r];
      }
      assert Passes(env, w, runs1, k, current, delivered) <==>
             !(delivered != [] && !Has(w, current) && exists j | k < j < |runs| :: Has(w, runs[j].runId));
    }
  }

  /** What an operation other than a registration does, k runs merged before it and f finished after its stamp. */
  ghost predicate Effect(env: Env, a: Archive, op: Op, k: nat, i: nat, f: nat, b: Archive)
    requires !op.Begin?
  {
    && i <= |a.runs|
    && if i == |a.runs| || a.runs[i].merged then b == a
       else
         && i < |a.runs| && k <= i && k <= f && (k < f <==> i == k) && a.runs[i].runId == op.runId
         && var runs1 := Stamped(a.runs, i, op.outcome, op.at);
            var m := Stretch(a, op, k, f);
            && LongestFinished(runs1, f) && Finished(runs1, k, m) && k <= m <= f
            && b.log == Fold(env, a.log, runs1, k, m, op.runId, op.delivered)
            && b.runs == (if op.Lost? then a.runs else MergedTo(runs1, f))
            && (op.Complete? ==> m == f)
  }

  lemma OpEffect(env: Env, a: Archive, op: Op, k: nat) returns (i: nat, f: nat)
    requires !op.Begin? && Numbered(a.runs) && MergedUpTo(a.runs, k) && LongestFinished(a.runs, k)
    ensures Effect(env, a, op, k, i, f, Apply(env, a, op)) && i == FindRun(a.runs, op.runId, 0)
  {
    hide MergeOne, Drain;
    i := FindRun(a.runs, op.runId, 0);
    f := k;
    if i < |a.runs| && !a.runs[i].merged {
      f := PrefixGrows(a.runs, i, op.outcome, op.at, k);
      CompletedClosed(env, a, op.runId, op.delivered, op.outcome, op.at,
                      if op.Lost? then op.turns else |a.runs|, i, k, f);
      var runs1 := Stamped(a.runs, i, op.outcome, op.at);
      assert k < f ==> runs1[k].status.Ended?;
      assert i == k ==> runs1[k].status.Ended?;
    }
  }

  lemma OrderedSame(w: seq<Piece>, runs: seq<Entry>, others: seq<Entry>)
    requires |others| == |runs| && forall r | 0 <= r < |runs| :: others[r].runId == runs[r].runId
    ensures Ordered(w, runs) <==> Ordered(w, others)
  {}

  lemma SameIds(a: seq<Entry>, b: seq<Entry>, ids: set<string>)
    requires DistinctIds(a, ids) && |a| == |b| && forall r | 0 <= r < |a| :: a[r].runId == b[r].runId
    ensures DistinctIds(b, ids)
  {}

  /** The blocks after an operation that appends the stretch k..m. */
  lemma StretchHolds(env: Env, a: Archive, w: seq<Piece>, runs1: seq<Entry>, k: nat, m: nat, b: Archive,
                     current: string, delivered: seq<string>, ids: set<string>, allowed: Allowed)
    requires Identifies(env, ids, allowed) && Holds(env, a, w, ids, allowed)
    requires |runs1| == |a.runs| == |b.runs| && Finished(runs1, k, m)
    requires SourcesAllowed(env, allowed, runs1, k, m, current, delivered)
    requires forall r | 0 <= r < |runs1| :: runs1[r].runId == a.runs[r].runId == b.runs[r].runId
    requires b.log == Fold(env, a.log, runs1, k, m, current, delivered)
    ensures Holds(env, b, PileFold(env, w, runs1, k, m, current, delivered), ids, allowed)
    ensures w <= PileFold(env, w, runs1, k, m, current, delivered)
  {
    SameIds(a.runs, runs1, ids);
    SameIds(a.runs, b.runs, ids);
    FoldPiles(env, w, runs1, k, m, current, delivered, ids, allowed);
    var v := PileFold(env, w, runs1, k, m, current, delivered);
    forall p | 0 <= p < |v| ensures exists r :: 0 <= r < |b.runs| && b.runs[r].runId == v[p].entry.runId {
      FoldRegistered(env, w, runs1, k, m, current, delivered, p);
      if q: nat :| q < |w| && w[q].entry.runId == v[p].entry.runId {
        var r :| 0 <= r < |a.runs| && a.runs[r].runId == w[q].entry.runId;
        assert b.runs[r].runId == v[p].entry.runId;
      } else {
        var r :| 0 <= r < |runs1| && runs1[r].runId == v[p].entry.runId;
        assert b.runs[r].runId == v[p].entry.runId;
      }
    }
    hide GoodPieces, AllEnded, Joined, DistinctIds, PileFold, Fold, Identifies;
  }

  lemma {:induction false} FoldRegistered(env: Env, w: seq<Piece>, runs: seq<Entry>, lo: nat, hi: nat, current: string,
                                          delivered: seq<string>, p: nat)
    requires hi <= |runs| && p < |PileFold(env, w, runs, lo, hi, current, delivered)|
    ensures var x := PileFold(env, w, runs, lo, hi, current, delivered)[p].entry.runId;
            (exists q: nat :: q < |w| && w[q].entry.runId == x) || exists r :: 0 <= r < |runs| && runs[r].runId == x
    decreases hi
  {
    hide Has;
    if hi <= lo {
    } else {
      var v := PileFold(env, w, runs, lo, hi - 1, current, delivered);
      if p < |v| {
        FoldRegistered(env, w, runs, lo, hi - 1, current, delivered, p);
      } else {
        assert runs[hi - 1].runId == PileFold(env, w, runs, lo, hi, current, delivered)[p].entry.runId;
      }
    }
  }

  /** After the stretch k..m of runs1 no other gap is left than the ones allowed. */
  lemma StretchGap(env: Env, w: seq<Piece>, runs: seq<Entry>, runs1: seq<Entry>, b: seq<Entry>, k: nat, m: nat, f: nat,
                   i: nat, k': nat, current: string, delivered: seq<string>, empties: set<string>)
    requires Gap(env, runs, w, k, empties) && DistinctRuns(runs1) && |runs1| == |runs| == |b|
             && LongestFinished(runs, k) && LongestFinished(runs1, f) && Finished(runs1, k, m)
    requires forall r | 0 <= r < |runs| ::
               runs1[r].runId == runs[r].runId == b[r].runId && (r != i ==> runs1[r] == runs[r])
    requires k <= i < |runs| && runs[i].runId == current && k <= m <= f <= |runs| && (k < f <==> i == k)
    requires runs1[i].status.Ended?
    requires (k' == k && b == runs)
             || (k' == f == m && forall r | 0 <= r < |runs| :: b[r].status == runs1[r].status)
    ensures Gap(env, b, PileFold(env, w, runs1, k, m, current, delivered), k',
                empties + if delivered == [] then {current} else {})
  {
    var v := PileFold(env, w, runs1, k, m, current, delivered);
    forall r | 0 <= r < |runs|
      ensures Has(v, runs[r].runId) <==>
              Has(w, runs[r].runId) || (k <= r < m && Sources(env, runs[r].runId, current, delivered) != [])
    {
      FoldHas(env, w, runs1, k, m, current, delivered, r);
    }
    hide Has, PileFold;
    forall r, j | k' <= r < j < |b| && Has(v, b[j].runId) && !Has(v, b[r].runId)
      ensures if r == k' then b[r].runId in empties + (if delivered == [] then {current} else {})
              else b[r].status.Ended? && env.found(b[r].runId) == []
    {
      if Has(w, runs[j].runId) {
        assert if r == k then runs[r].runId in empties else runs[r].status.Ended? && env.found(runs[r].runId) == [];
      }
    }
  }

  lemma LateExactly(env: Env, a: Archive, w: seq<Piece>, op: Op, k: nat, i: nat, m: nat, f: nat, ids: set<string>,
                    allowed: Allowed)
    requires Identifies(env, ids, allowed) && Holds(env, a, w, ids, allowed) && !op.Begin? && op.runId in ids
    requires Numbered(a.runs) && MergedUpTo(a.runs, k) && i == FindRun(a.runs, op.runId, 0) && i < |a.runs|
    requires k <= f && (k < f <==> i == k) && m == Stretch(a, op, k, f)
    ensures LateLogs(a, op) <==> LateIn(w, a.runs, k, m, op.runId, op.delivered)
  {
    MaxSequenceIs(a.runs, k);
    HoldsShows(env, a, w, ids, allowed, op.runId);
    DistinctFrom(a.runs, ids);
    forall j | 0 <= j < |a.runs| ensures Contains(a.log, a.runs[j].runId) <==> Has(w, a.runs[j].runId) {
      HoldsShows(env, a, w, ids, allowed, a.runs[j].runId);
    }
    hide Contains, Has, Holds, Identifies, MaxSequence, FindRun, MergedUpTo;
  }

  lemma NotLate(a: Archive, op: Op, k: nat)
    requires Numbered(a.runs) && MergedUpTo(a.runs, k) && !op.Begin?
    requires var i := FindRun(a.runs, op.runId, 0); i == |a.runs| || a.runs[i].merged
    ensures !LateLogs(a, op)
  {
    MaxSequenceIs(a.runs, k);
    hide Contains, MaxSequence;
  }

  /** Every block that an operation may write is allowed. */
  ghost predicate StepAllowed(env: Env, a: Archive, op: Op, allowed: Allowed)
    requires !op.Begin?
  {
    var i := FindRun(a.runs, op.runId, 0);
    i < |a.runs| && !a.runs[i].merged ==>
      var runs1 := Stamped(a.runs, i, op.outcome, op.at);
      forall r | 0 <= r < |runs1| && runs1[r].status.Ended? && !runs1[r].merged ::
        allowed(Piece(runs1[r], Sources(env, runs1[r].runId, op.runId, op.delivered)))
  }

  lemma StretchAllowed(env: Env, a: Archive, op: Op, k: nat, i: nat, m: nat, allowed: Allowed)
    requires !op.Begin? && StepAllowed(env, a, op, allowed) && MergedUpTo(a.runs, k)
    requires i == FindRun(a.runs, op.runId, 0) && i < |a.runs| && !a.runs[i].merged
    requires Finished(Stamped(a.runs, i, op.outcome, op.at), k, m)
    ensures SourcesAllowed(env, allowed, Stamped(a.runs, i, op.outcome, op.at), k, m, op.runId, op.delivered)
  {
    hide Sources;
  }

  /** One operation on a pending run: the blocks afterwards, and when they are still in order. */
  lemma PendingStep(env: Env, a: Archive, w: seq<Piece>, op: Op, k: nat, i: nat, f: nat, ids: set<string>,
                    allowed: Allowed, empties: set<string>) returns (v: seq<Piece>, k': nat)
    requires Identifies(env, ids, allowed) && State(env, a, w, k, ids, allowed, empties) && !op.Begin?
             && op.runId in ids
    requires StepAllowed(env, a, op, allowed)
    requires Effect(env, a, op, k, i, f, Apply(env, a, op)) && i == FindRun(a.runs, op.runId, 0)
    requires i < |a.runs| && !a.runs[i].merged
    ensures State(env, Apply(env, a, op), v, k', ids, allowed, empties + Empty(op)) && w <= v
    ensures Ordered(v, Apply(env, a, op).runs) <==> Ordered(w, a.runs) && !LateLogs(a, op)
  {
    var b, m := Apply(env, a, op), Stretch(a, op, k, f);
    var runs1 := Stamped(a.runs, i, op.outcome, op.at);
    v := PileFold(env, w, runs1, k, m, op.runId, op.delivered);
    k' := if op.Lost? then k else f;
    PendingState(env, a, w, op, k, i, f, b, ids, allowed, empties);
    PendingOrder(env, a, w, op, k, i, f, b, ids, allowed, empties);
  }

  lemma PendingState(env: Env, a: Archive, w: seq<Piece>, op: Op, k: nat, i: nat, f: nat, b: Archive, ids: set<string>,
                     allowed: Allowed, empties: set<string>)
    requires Identifies(env, ids, allowed) && State(env, a, w, k, ids, allowed, empties) && !op.Begin?
             && op.runId in ids
    requires StepAllowed(env, a, op, allowed) && i == FindRun(a.runs, op.runId, 0)
    requires Effect(env, a, op, k, i, f, b) && i < |a.runs| && !a.runs[i].merged && Stretch(a, op, k, f) <= |a.runs|
    ensures var runs1 := Stamped(a.runs, i, op.outcome, op.at);
            var v := PileFold(env, w, runs1, k, Stretch(a, op, k, f), op.runId, op.delivered);
            State(env, b, v, if op.Lost? then k else f, ids, allowed, empties + Empty(op)) && w <= v
  {
    var m, runs1 := Stretch(a, op, k, f), Stamped(a.runs, i, op.outcome, op.at);
    EffectForm(env, a, op, k, i, f, b);
    assert DistinctIds(runs1, ids) by { SameIds(a.runs, runs1, ids); }
    DistinctFrom(runs1, ids);
    StretchAllowed(env, a, op, k, i, m, allowed);
    hide StepAllowed;
    hide Identifies, GoodPieces, Joined, AllEnded, Fold, PileFold, Has, Stretch, Stamped, Effect, Gap, Holds,
         DistinctIds, Numbered, MergedUpTo, LongestFinished, DistinctRuns, SourcesAllowed, Finished, Contains;
    StretchHolds(env, a, w, runs1, k, m, b, op.runId, op.delivered, ids, allowed);
    StretchGap(env, w, a.runs, runs1, b.runs, k, m, f, i, if op.Lost? then k else f, op.runId, op.delivered, empties);
  }

  lemma PendingOrder(env: Env, a: Archive, w: seq<Piece>, op: Op, k: nat, i: nat, f: nat, b: Archive, ids: set<string>,
                     allowed: Allowed, empties: set<string>)
    requires Identifies(env, ids, allowed) && State(env, a, w, k, ids, allowed, empties) && !op.Begin?
             && op.runId in ids
    requires StepAllowed(env, a, op, allowed) && i == FindRun(a.runs, op.runId, 0)
    requires Effect(env, a, op, k, i, f, b) && i < |a.runs| && !a.runs[i].merged && Stretch(a, op, k, f) <= |a.runs|
    ensures var runs1 := Stamped(a.runs, i, op.outcome, op.at);
            var v := PileFold(env, w, runs1, k, Stretch(a, op, k, f), op.runId, op.delivered);
            Ordered(v, b.runs) <==> Ordered(w, a.runs) && !LateLogs(a, op)
  {
    hide *;
    PendingFacts(env, a, w, op, k, i, f, b, ids, allowed, empties);
    StretchAllowed(env, a, op, k, i, Stretch(a, op, k, f), allowed);
    var m, runs1 := Stretch(a, op, k, f), Stamped(a.runs, i, op.outcome, op.at);
    FoldOrdered(env, w, runs1, k, m, op.runId, op.delivered, ids, allowed);
    PendingPasses(env, a, w, op, k, i, f, b, ids, allowed, empties);
    OrderedSame(w, a.runs, runs1);
    OrderedSame(PileFold(env, w, runs1, k, m, op.runId, op.delivered), runs1, b.runs);
  }

  lemma PendingFacts(env: Env, a: Archive, w: seq<Piece>, op: Op, k: nat, i: nat, f: nat, b: Archive, ids: set<string>,
                     allowed: Allowed, empties: set<string>)
    requires State(env, a, w, k, ids, allowed, empties) && !op.Begin?
    requires Effect(env, a, op, k, i, f, b) && i < |a.runs| && !a.runs[i].merged && Stretch(a, op, k, f) <= |a.runs|
    ensures var m, runs1 := Stretch(a, op, k, f), Stamped(a.runs, i, op.outcome, op.at);
            && GoodPieces(w, ids, allowed) && AllEnded(w) && DistinctIds(runs1, ids) && m <= |runs1|
            && Finished(runs1, k, m) && |b.runs| == |runs1| == |a.runs| && MergedUpTo(a.runs, k)
            && forall r | 0 <= r < |runs1| :: runs1[r].runId == a.runs[r].runId == b.runs[r].runId
  {
    EffectForm(env, a, op, k, i, f, b);
    SameIds(a.runs, Stamped(a.runs, i, op.outcome, op.at), ids);
    hide GoodPieces, AllEnded, DistinctIds, Joined, Fold;
  }

  lemma PendingPasses(env: Env, a: Archive, w: seq<Piece>, op: Op, k: nat, i: nat, f: nat, b: Archive, ids: set<string>,
                      allowed: Allowed, empties: set<string>)
    requires Identifies(env, ids, allowed) && State(env, a, w, k, ids, allowed, empties) && !op.Begin?
             && op.runId in ids
    requires i == FindRun(a.runs, op.runId, 0)
    requires Effect(env, a, op, k, i, f, b) && i < |a.runs| && !a.runs[i].merged && Stretch(a, op, k, f) <= |a.runs|
    ensures var runs1 := Stamped(a.runs, i, op.outcome, op.at);
            AllPass(env, w, runs1, k, Stretch(a, op, k, f), op.runId, op.delivered) <==> !LateLogs(a, op)
  {
    var m, runs1 := Stretch(a, op, k, f), Stamped(a.runs, i, op.outcome, op.at);
    EffectForm(env, a, op, k, i, f, b);
    DistinctFrom(a.runs, ids);
    hide *;
    OnlyFirstIsLate(env, w, a.runs, runs1, k, m, i, op.runId, op.delivered, empties);
    LateExactly(env, a, w, op, k, i, m, f, ids, allowed);
  }

  /** The manifest after an operation, in the form the step needs. */
  lemma EffectForm(env: Env, a: Archive, op: Op, k: nat, i: nat, f: nat, b: Archive)
    requires !op.Begin? && Effect(env, a, op, k, i, f, b) && i < |a.runs| && !a.runs[i].merged
    requires Numbered(a.runs) && MergedUpTo(a.runs, k) && LongestFinished(a.runs, k)
    ensures var runs1, k' := Stamped(a.runs, i, op.outcome, op.at), if op.Lost? then k else f;
            && |runs1| == |a.runs| == |b.runs| && f <= |a.runs|
            && (forall r | 0 <= r < |runs1| ::
                  runs1[r].runId == a.runs[r].runId == b.runs[r].runId && (r != i ==> runs1[r] == a.runs[r]))
            && Numbered(b.runs) && MergedUpTo(b.runs, k') && LongestFinished(b.runs, k')
            && (op.Lost? ==> b.runs == a.runs)
            && k <= i && k <= Stretch(a, op, k, f) <= f && (k < f <==> i == k) && a.runs[i].runId == op.runId
            && (op.Complete? ==> Stretch(a, op, k, f) == f)
            && Finished(runs1, k, Stretch(a, op, k, f)) && LongestFinished(runs1, f) && runs1[i].status.Ended?
            && b.log == Fold(env, a.log, runs1, k, Stretch(a, op, k, f), op.runId, op.delivered)
            && (op.Complete? ==> forall r | 0 <= r < |runs1| :: b.runs[r].status == runs1[r].status)
  {
    hide Fold, Stretch;
  }

  lemma BeginHolds(env: Env, a: Archive, w: seq<Piece>, op: Op, ids: set<string>, allowed: Allowed)
    requires op.Begin? && Holds(env, a, w, ids, allowed) && op.runId in ids
    requires forall r | 0 <= r < |a.runs| :: a.runs[r].runId != op.runId
    ensures Holds(env, Apply(env, a, op), w, ids, allowed) && !Has(w, op.runId)
  {
    var b := Apply(env, a, op);
    assert forall r | 0 <= r < |a.runs| :: b.runs[r] == a.runs[r];
    forall p | 0 <= p < |w|
      ensures w[p].entry.runId != op.runId && exists r :: 0 <= r < |b.runs| && b.runs[r].runId == w[p].entry.runId
    {
      var r :| 0 <= r < |a.runs| && a.runs[r].runId == w[p].entry.runId;
      assert b.runs[r].runId == w[p].entry.runId;
    }
    hide GoodPieces, AllEnded, Joined, MaxSequence;
  }

  lemma BeginOrdered(w: seq<Piece>, a: seq<Entry>, b: seq<Entry>)
    requires |b| == |a| + 1 && (forall r | 0 <= r < |a| :: b[r] == a[r]) && !Has(w, b[|a|].runId)
    ensures Ordered(w, b) <==> Ordered(w, a)
  {}

  lemma BeginStep(env: Env, a: Archive, w: seq<Piece>, op: Op, k: nat, ids: set<string>, allowed: Allowed,
                  empties: set<string>)
    requires op.Begin? && State(env, a, w, k, ids, allowed, empties) && op.runId in ids
    requires forall r | 0 <= r < |a.runs| :: a.runs[r].runId != op.runId
    ensures State(env, Apply(env, a, op), w, k, ids, allowed, empties)
    ensures Ordered(w, Apply(env, a, op).runs) <==> Ordered(w, a.runs)
  {
    BeginForm(env, a, op, k);
    BeginHolds(env, a, w, op, ids, allowed);
    hide Holds, Apply, Has, Ordered, Numbered, MergedUpTo, LongestFinished, Gap;
    BeginOrdered(w, a.runs, Apply(env, a, op).runs);
    BeginGap(env, w, a.runs, Apply(env, a, op).runs, k, empties);
  }

  lemma BeginGap(env: Env, w: seq<Piece>, a: seq<Entry>, b: seq<Entry>, k: nat, empties: set<string>)
    requires |b| == |a| + 1 && (forall r | 0 <= r < |a| :: b[r] == a[r]) && !Has(w, b[|a|].runId)
    requires Gap(env, a, w, k, empties)
    ensures Gap(env, b, w, k, empties)
  {
    hide Has;
  }

  lemma BeginForm(env: Env, a: Archive, op: Op, k: nat)
    requires op.Begin? && Numbered(a.runs) && MergedUpTo(a.runs, k) && LongestFinished(a.runs, k)
    ensures var b, n := Apply(env, a, op).runs, |a.runs|;
            && |b| == n + 1 && b[n].runId == op.runId && (forall r | 0 <= r < n :: b[r] == a.runs[r])
            && Numbered(b) && MergedUpTo(b, k) && LongestFinished(b, k)
  {
    MaxSequenceIs(a.runs, k);
    hide MaxSequence;
  }

  /** One operation of any kind. */
  lemma StepBlocks(env: Env, a: Archive, w: seq<Piece>, op: Op, k: nat, ids: set<string>, allowed: Allowed,
        empties: set<string>)
    returns (v: seq<Piece>, k': nat)
    requires Identifies(env, ids, allowed) && State(env, a, w, k, ids, allowed, empties)
    requires op.Begin? ==> op.runId in ids && forall r | 0 <= r < |a.runs| :: a.runs[r].runId != op.runId
    requires !op.Begin? ==> StepAllowed(env, a, op, allowed)
    ensures State(env, Apply(env, a, op), v, k', ids, allowed, empties + Empty(op)) && w <= v
    ensures Ordered(v, Apply(env, a, op).runs) <==> Ordered(w, a.runs) && !LateLogs(a, op)
  {
    if op.Begin? {
      v, k' := w, k;
      assert empties + Empty(op) == empties && !LateLogs(a, op);
      hide *;
      BeginStep(env, a, w, op, k, ids, allowed, empties);
    } else {
      var i, f := OpEffect(env, a, op, k);
      if i < |a.runs| && !a.runs[i].merged {
        assert op.runId in ids by { RegisteredIn(env, a, w, i, ids, allowed); }
        hide *;
        v, k' := PendingStep(env, a, w, op, k, i, f, ids, allowed, empties);
      } else {
        v, k' := w, k;
        NothingDone(env, a, w, op, k, i, f, ids, allowed, empties);
        hide *;
      }
    }
  }

  lemma RegisteredIn(env: Env, a: Archive, w: seq<Piece>, i: nat, ids: set<string>, allowed: Allowed)
    requires Holds(env, a, w, ids, allowed) && i < |a.runs|
    ensures a.runs[i].runId in ids
  {}

  lemma NothingDone(env: Env, a: Archive, w: seq<Piece>, op: Op, k: nat, i: nat, f: nat, ids: set<string>,
                    allowed: Allowed, empties: set<string>)
    requires State(env, a, w, k, ids, allowed, empties) && !op.Begin?
    requires Effect(env, a, op, k, i, f, Apply(env, a, op)) && i == FindRun(a.runs, op.runId, 0)
    requires i == |a.runs| || a.runs[i].merged
    ensures State(env, Apply(env, a, op), w, k, ids, allowed, empties + Empty(op))
    ensures Apply(env, a, op) == a && !LateLogs(a, op)
  {
    NotLate(a, op, k);
    hide Holds, LateLogs, Apply, FindRun, Has;
  }

  // ---- what a history can write ----

  /** The operation that registered the run of this entry, n runs being registered before it. */
  ghost predicate Opens(op: Op, e: Entry, n: nat) {
    op.Begin? && e.sequence == n + 1 && e.runId == op.runId && e.operation == op.operation && e.startedAt == op.at
  }

  /** The completion that gave this entry its outcome and end. */
  ghost predicate Stamps(op: Op, e: Entry) {
    !op.Begin? && e.runId == op.runId && e.status == Ended(op.outcome) && e.endedAt == Some(op.at)
  }

  /** A block of a run registered by operation b, as operation c stamped it, from the logs c delivered or, once its
      manifest is written, from those that a scan finds. */
  ghost predicate WrittenBy(env: Env, ops: seq<Op>, p: Piece, b: nat, c: nat)
    requires b < c < |ops|
  {
    && Opens(ops[b], p.entry, |Begins(ops[..b])|) && Stamps(ops[c], p.entry) && !p.entry.merged
    && (p.texts == ops[c].delivered || (ops[c].Complete? && p.texts == env.found(p.entry.runId)))
  }

  ghost predicate Writable(env: Env, ops: seq<Op>, p: Piece) {
    exists b: nat, c: nat | b < c < |ops| :: WrittenBy(env, ops, p, b, c)
  }

  lemma WritableExtends(env: Env, ops: seq<Op>, p: Piece)
    requires ops != [] && Writable(env, ops[..|ops| - 1], p)
    ensures Writable(env, ops, p)
  {
    var before := ops[..|ops| - 1];
    var b: nat, c: nat :| b < c < |before| && WrittenBy(env, before, p, b, c);
    assert before[..b] == ops[..b] && before[b] == ops[b] && before[c] == ops[c];
    hide Opens, Stamps, Begins;
    assert WrittenBy(env, ops, p, b, c);
  }

  /** An entry comes from a registration and, once it has ended, from a completion after it. */
  ghost predicate TracedTo(ops: seq<Op>, e: Entry, b: nat)
    requires b < |ops|
  {
    && Opens(ops[b], e, |Begins(ops[..b])|)
    && (e.status.Ended? ==> exists c: nat | b < c < |ops| :: ops[c].Complete? && Stamps(ops[c], e))
  }

  ghost predicate Traced(ops: seq<Op>, e: Entry) {
    exists b: nat | b < |ops| :: TracedTo(ops, e, b)
  }

  ghost predicate AllTraced(ops: seq<Op>, runs: seq<Entry>) {
    forall r | 0 <= r < |runs| :: Traced(ops, runs[r])
  }

  lemma TracedExtends(ops: seq<Op>, e: Entry, f: Entry)
    requires ops != [] && Traced(ops[..|ops| - 1], e)
    requires SameRun(f, e)
    requires (f.status == e.status && f.endedAt == e.endedAt)
             || (ops[|ops| - 1].Complete? && Stamps(ops[|ops| - 1], f))
    ensures Traced(ops, f)
  {
    var before := ops[..|ops| - 1];
    var b: nat :| b < |before| && TracedTo(before, e, b);
    assert before[..b] == ops[..b] && before[b] == ops[b];
    hide Begins;
    if f.status == e.status && f.endedAt == e.endedAt {
      if e.status.Ended? {
        var c: nat :| b < c < |before| && before[c].Complete? && Stamps(before[c], e);
        assert ops[c] == before[c];
      }
    } else {
      assert ops[|ops| - 1].Complete? && Stamps(ops[|ops| - 1], f);
    }
    assert TracedTo(ops, f, b);
  }

  /** What a completion does to the manifest, entry by entry. */
  ghost predicate StampedOnly(a: Archive, op: Op, runs: seq<Entry>)
    requires !op.Begin?
  {
    |runs| == |a.runs| && forall r | 0 <= r < |runs| ::
      && SameRun(runs[r], a.runs[r])
      && ((runs[r].status == a.runs[r].status && runs[r].endedAt == a.runs[r].endedAt)
          || (op.Complete? && Stamps(op, runs[r])))
  }

  lemma CompletionStamps(env: Env, a: Archive, op: Op)
    requires Settled(a.runs) && !op.Begin?
    ensures StampedOnly(a, op, Apply(env, a, op).runs)
  {
    hide MergeOne, Drain, Fold;
    var i := FindRun(a.runs, op.runId, 0);
    if op.Complete? && i < |a.runs| && !a.runs[i].merged {
      var k: nat :| MergedUpTo(a.runs, k) && LongestFinished(a.runs, k);
      var f := PrefixGrows(a.runs, i, op.outcome, op.at, k);
      CompletedClosed(env, a, op.runId, op.delivered, op.outcome, op.at, |a.runs|, i, k, f);
    }
  }

  lemma BeginTraced(env: Env, ops: seq<Op>, runs: seq<Entry>)
    requires ops != [] && ops[|ops| - 1].Begin? && AllTraced(ops[..|ops| - 1], runs)
    requires |runs| == |Begins(ops[..|ops| - 1])| && Settled(runs)
    ensures AllTraced(ops, Apply(env, Archive(runs, ""), ops[|ops| - 1]).runs)
  {
    var n := |ops| - 1;
    var k: nat :| MergedUpTo(runs, k) && LongestFinished(runs, k);
    MaxSequenceIs(runs, k);
    var after := Apply(env, Archive(runs, ""), ops[n]).runs;
    assert TracedTo(ops, after[|runs|], n);
    hide MaxSequence, Begins;
    forall r | 0 <= r < |runs| ensures Traced(ops, after[r]) {
      TracedExtends(ops, runs[r], after[r]);
    }
  }

  lemma RunNext(env: Env, ops: seq<Op>)
    requires ops != []
    ensures Run(env, ops) == Apply(env, Run(env, ops[..|ops| - 1]), ops[|ops| - 1])
  {
    hide Apply;
  }

  lemma BeginsNext(ops: seq<Op>)
    requires ops != []
    ensures |Begins(ops)| == |Begins(ops[..|ops| - 1])| + if ops[|ops| - 1].Begin? then 1 else 0
  {}

  lemma BeginAppends(env: Env, a: Archive, op: Op)
    requires op.Begin?
    ensures Apply(env, a, op).runs == Apply(env, Archive(a.runs, ""), op).runs
    ensures |Apply(env, a, op).runs| == |a.runs| + 1
  {}

  lemma StampedTraced(ops: seq<Op>, a: Archive, runs: seq<Entry>)
    requires ops != [] && !ops[|ops| - 1].Begin? && StampedOnly(a, ops[|ops| - 1], runs)
    requires AllTraced(ops[..|ops| - 1], a.runs)
    ensures AllTraced(ops, runs) && |runs| == |a.runs|
  {
    hide Traced, SameRun, Stamps;
    forall r | 0 <= r < |runs| ensures Traced(ops, runs[r]) { TracedExtends(ops, a.runs[r], runs[r]); }
  }

  /** Every entry of the manifest comes from the history's own operations. */
  lemma {:induction false} ManifestTraced(env: Env, ops: seq<Op>)
    ensures AllTraced(ops, Run(env, ops).runs) && |Run(env, ops).runs| == |Begins(ops)|
    decreases |ops|
  {
    if ops == [] {
    } else {
      hide *;
      var before, op := ops[..|ops| - 1], ops[|ops| - 1];
      ManifestTraced(env, before);
      MergedIsLongestFinishedPrefix(env, before);
      RunNext(env, ops);
      BeginsNext(ops);
      var a := Run(env, before);
      if op.Begin? {
        BeginAppends(env, a, op);
        BeginTraced(env, ops, a.runs);
      } else {
        CompletionStamps(env, a, op);
        StampedTraced(ops, a, Apply(env, a, op).runs);
      }
    }
  }

  /** The block of an entry that an earlier operation stamped is written from what a scan finds. */
  lemma ScannedWritable(env: Env, ops: seq<Op>, e: Entry)
    requires Traced(ops, e) && e.status.Ended? && !e.merged
    ensures Writable(env, ops, Piece(e, env.found(e.runId)))
  {
    var b: nat :| b < |ops| && TracedTo(ops, e, b);
    var c: nat :| b < c < |ops| && ops[c].Complete? && Stamps(ops[c], e);
    assert WrittenBy(env, ops, Piece(e, env.found(e.runId)), b, c);
  }

  /** The block of the entry that the last operation stamped is written from what it delivered. */
  lemma DeliveredWritable(env: Env, ops: seq<Op>, e: Entry, f: Entry)
    requires ops != [] && !ops[|ops| - 1].Begin? && Traced(ops[..|ops| - 1], e)
    requires SameRun(f, e) && Stamps(ops[|ops| - 1], f) && !f.merged
    ensures Writable(env, ops, Piece(f, ops[|ops| - 1].delivered))
  {
    var before, c := ops[..|ops| - 1], |ops| - 1;
    var b: nat :| b < |before| && TracedTo(before, e, b);
    assert before[..b] == ops[..b] && before[b] == ops[b];
    assert WrittenBy(env, ops, Piece(f, ops[c].delivered), b, c);
  }

  // ---- histories ----

  /** Registrations have fresh ids of these, and every block that the history can write is allowed. */
  ghost predicate Legal(env: Env, ops: seq<Op>, ids: set<string>, allowed: Allowed) {
    && FreshIds(Begins(ops)) && AllIn(ops, ids)
    && forall p | Writable(env, ops, p) :: allowed(p)
  }

  lemma LegalBefore(env: Env, ops: seq<Op>, ids: set<string>, allowed: Allowed)
    requires Legal(env, ops, ids, allowed) && ops != []
    ensures Legal(env, ops[..|ops| - 1], ids, allowed)
    ensures ops[|ops| - 1].Begin? ==> ops[|ops| - 1].runId in ids
  {
    var before := Begins(ops[..|ops| - 1]);
    assert forall i | 0 <= i < |before| :: Begins(ops)[i] == before[i];
    hide Writable, Begins;
    forall p | Writable(env, ops[..|ops| - 1], p) ensures allowed(p) { WritableExtends(env, ops, p); }
    assert ops[|ops| - 1] in ops;
  }

  /** Every block that the last operation may write is allowed. */
  lemma LegalStep(env: Env, ops: seq<Op>, ids: set<string>, allowed: Allowed)
    requires Legal(env, ops, ids, allowed) && ops != [] && !ops[|ops| - 1].Begin?
    ensures StepAllowed(env, Run(env, ops[..|ops| - 1]), ops[|ops| - 1], allowed)
  {
    var before, op := ops[..|ops| - 1], ops[|ops| - 1];
    var a := Run(env, before);
    LegalBefore(env, ops, ids, allowed);
    ManifestTraced(env, before);
    IdsStayDistinct(env, before, ids);
    hide Run, Begins, Traced, Writable;
    var i := FindRun(a.runs, op.runId, 0);
    if i < |a.runs| && !a.runs[i].merged {
      var runs1 := Stamped(a.runs, i, op.outcome, op.at);
      forall r | 0 <= r < |runs1| && runs1[r].status.Ended? && !runs1[r].merged
        ensures allowed(Piece(runs1[r], Sources(env, runs1[r].runId, op.runId, op.delivered)))
      {
        if r == i {
          DeliveredWritable(env, ops, a.runs[i], runs1[i]);
        } else {
          ScannedWritable(env, before, runs1[r]);
          WritableExtends(env, ops, Piece(runs1[r], env.found(runs1[r].runId)));
        }
      }
    }
  }

  lemma FreshStart(env: Env, ops: seq<Op>, ids: set<string>, allowed: Allowed)
    requires Legal(env, ops, ids, allowed) && ops != [] && ops[|ops| - 1].Begin?
    ensures var a := Run(env, ops[..|ops| - 1]); forall r | 0 <= r < |a.runs| :: a.runs[r].runId != ops[|ops| - 1].runId
  {
    var before, op := ops[..|ops| - 1], ops[|ops| - 1];
    LegalBefore(env, ops, ids, allowed);
    IdsStayDistinct(env, before, ids);
    var begins := Begins(before);
    assert Begins(ops) == begins + [op];
    hide Run, Begins;
    assert forall r | 0 <= r < |begins| :: (begins + [op])[r] == begins[r];
    assert (begins + [op])[|begins|] == op;
  }

  /** The runs some operation delivered no logs for. */
  ghost function Empties(ops: seq<Op>): set<string> {
    if ops == [] then {} else Empties(ops[..|ops| - 1]) + Empty(ops[|ops| - 1])
  }

  lemma EmptiesLast(ops: seq<Op>)
    requires ops != []
    ensures Empties(ops) == Empties(ops[..|ops| - 1]) + Empty(ops[|ops| - 1])
  {}

  /** No step of the history delivers logs late. */
  ghost predicate NeverLate(env: Env, ops: seq<Op>) {
    forall n | 0 <= n < |ops| :: !LateLogs(Run(env, ops[..n]), ops[n])
  }

  /** Over every history, with manifest writes lost at any point, the log is blocks of distinct runs, and they stand in
      sequence order exactly when no step delivered logs late. */
  lemma {:induction false} HistoryBlocks(env: Env, ops: seq<Op>, ids: set<string>, allowed: Allowed)
    returns (w: seq<Piece>, k: nat)
    requires Identifies(env, ids, allowed) && Legal(env, ops, ids, allowed)
    ensures State(env, Run(env, ops), w, k, ids, allowed, Empties(ops))
    ensures Ordered(w, Run(env, ops).runs) <==> NeverLate(env, ops)
    decreases |ops|
  {
    if ops == [] {
      w, k := [], 0;
      EmptyState(env, ids, allowed);
      hide State, Ordered;
    } else {
      var before, op := ops[..|ops| - 1], ops[|ops| - 1];
      LegalBefore(env, ops, ids, allowed);
      if op.Begin? { FreshStart(env, ops, ids, allowed); } else { LegalStep(env, ops, ids, allowed); }
      LateNext(env, ops);
      RunLast(env, ops);
      EmptiesLast(ops);
      hide *;
      var v, j := HistoryBlocks(env, before, ids, allowed);
      w, k := StepBlocks(env, Run(env, before), v, op, j, ids, allowed, Empties(before));
    }
  }

  lemma RunLast(env: Env, ops: seq<Op>)
    requires ops != []
    ensures Run(env, ops) == Apply(env, Run(env, ops[..|ops| - 1]), ops[|ops| - 1])
  {}

  lemma EmptyState(env: Env, ids: set<string>, allowed: Allowed)
    ensures State(env, Run(env, []), [], 0, ids, allowed, {}) && Empties([]) == {}
            && Ordered([], Run(env, []).runs) && NeverLate(env, [])
  {}

  lemma LateNext(env: Env, ops: seq<Op>)
    requires ops != []
    ensures var before := ops[..|ops| - 1];
            NeverLate(env, ops) <==> NeverLate(env, before) && !LateLogs(Run(env, before), ops[|ops| - 1])
  {
    hide LateLogs, Run;
    var before := ops[..|ops| - 1];
    assert forall n | 0 <= n < |before| :: before[..n] == ops[..n] && before[n] == ops[n];
  }

  // ---- what a history's own blocks must show ----

  /** The ids a history registers. */
  ghost function Ids(ops: seq<Op>): set<string> {
    set b | b in Begins(ops) :: b.runId
  }

  ghost function Written(env: Env, ops: seq<Op>): Allowed {
    p => Writable(env, ops, p)
  }

  /** Registered ids are distinct single-line tokens, and each block that the history can write shows the id of its own
      run and of no other. */
  ghost predicate Identified(env: Env, ops: seq<Op>) {
    FreshIds(Begins(ops)) && Identifies(env, Ids(ops), Written(env, ops))
  }

  lemma {:induction false} BeginsAreRegistered(ops: seq<Op>, op: Op)
    requires op in ops && op.Begin?
    ensures op in Begins(ops)
    decreases |ops|
  {
    if op != ops[|ops| - 1] {
      assert op in ops[..|ops| - 1];
      BeginsAreRegistered(ops[..|ops| - 1], op);
    }
  }

  lemma IdentifiedIsLegal(env: Env, ops: seq<Op>)
    requires Identified(env, ops)
    ensures Legal(env, ops, Ids(ops), Written(env, ops)) && Identifies(env, Ids(ops), Written(env, ops))
  {
    hide Begins, Writable, Identifies;
    forall op | op in ops && op.Begin? ensures op.runId in Ids(ops) { BeginsAreRegistered(ops, op); }
  }

  /** The blocks stand in sequence order in the log if and only if no step delivered logs late. */
  lemma InOrderExactly(env: Env, ops: seq<Op>)
    requires Identified(env, ops)
    ensures InOrder(Run(env, ops)) <==> NeverLate(env, ops)
  {
    hide *;
    IdentifiedIsLegal(env, ops);
    var ids, allowed := Ids(ops), Written(env, ops);
    var w, k := HistoryBlocks(env, ops, ids, allowed);
    StateHolds(env, Run(env, ops), w, k, ids, allowed, Empties(ops));
    OrderedExactly(env, Run(env, ops), w, ids, allowed);
  }

  lemma StateHolds(env: Env, a: Archive, w: seq<Piece>, k: nat, ids: set<string>, allowed: Allowed,
                   empties: set<string>)
    requires State(env, a, w, k, ids, allowed, empties)
    ensures Holds(env, a, w, ids, allowed)
  {}

  // ---- no block twice ----

  /** Each block that the history can write shows the id of its own run. */
  ghost predicate ShowsItself(env: Env, ops: seq<Op>) {
    forall p | Writable(env, ops, p) && p.texts != [] && p.entry.status.Ended? ::
      Contains(Block(env, p.entry, p.texts), p.entry.runId)
  }

  /** The log is these blocks, each allowed, of distinct runs whose ids all show. */
  ghost predicate Once(env: Env, log: string, w: seq<Piece>, allowed: Allowed) {
    && AllEnded(w) && EachOnce(w) && log == Joined(env, w, |w|)
    && forall p | 0 <= p < |w| :: allowed(w[p]) && w[p].texts != [] && Contains(log, w[p].entry.runId)
  }

  lemma AppendShows(log: string, block: string, x: string)
    requires Contains(log, x) || Contains(block, x)
    ensures Contains(Append(log, block), x)
  {
    if Contains(block, x) {
      ContainsExtends(log + "\n", block, "", x);
      assert log + "\n" + block + "" == log + "\n" + block;
    }
    if Contains(log, x) { StillShows(log, block, x); }
    if log == "" && Contains(log, x) {
      ContainsExtends("", log, block, x);
      assert "" + log + block == block;
    }
  }

  lemma OnceTurn(env: Env, log: string, w: seq<Piece>, e: Entry, texts: seq<string>, allowed: Allowed)
    returns (v: seq<Piece>)
    requires Once(env, log, w, allowed) && e.status.Ended? && allowed(Piece(e, texts))
    requires texts != [] ==> Contains(Block(env, e, texts), e.runId)
    ensures Once(env, MergeOne(env, log, e, texts), v, allowed)
  {
    hide Block, Contains, Append;
    v := w;
    if texts != [] && !Contains(log, e.runId) {
      v := w + [Piece(e, texts)];
      assert v[..|w|] == w;
      JoinedPrefix(env, w, v, |w|);
      var block := Block(env, e, texts);
      AppendShows(log, block, e.runId);
      forall p | 0 <= p < |w| ensures Contains(Append(log, block), w[p].entry.runId) {
        AppendShows(log, block, w[p].entry.runId);
      }
    }
  }

  /** Every allowed block shows the id of its own run. */
  ghost predicate AllowedShows(env: Env, allowed: Allowed) {
    forall p: Piece | allowed(p) && p.texts != [] && p.entry.status.Ended? ::
      Contains(Block(env, p.entry, p.texts), p.entry.runId)
  }

  lemma {:induction false} OnceFold(env: Env, log: string, w: seq<Piece>, runs: seq<Entry>, lo: nat, hi: nat,
                                    current: string, delivered: seq<string>, allowed: Allowed)
    returns (v: seq<Piece>)
    requires Once(env, log, w, allowed) && AllowedShows(env, allowed) && Finished(runs, lo, hi)
    requires SourcesAllowed(env, allowed, runs, lo, hi, current, delivered)
    ensures Once(env, Fold(env, log, runs, lo, hi, current, delivered), v, allowed)
    decreases hi
  {
    v := w;
    if hi <= lo {
    } else {
      FewerAllowed(env, allowed, runs, lo, hi, current, delivered);
      hide Once, MergeOne, Sources;
      var u := OnceFold(env, log, w, runs, lo, hi - 1, current, delivered, allowed);
      var e := runs[hi - 1];
      v := OnceTurn(env, Fold(env, log, runs, lo, hi - 1, current, delivered), u, e,
                    Sources(env, e.runId, current, delivered), allowed);
    }
  }

  lemma OnceStep(env: Env, a: Archive, w: seq<Piece>, op: Op, allowed: Allowed) returns (v: seq<Piece>)
    requires Settled(a.runs) && Once(env, a.log, w, allowed) && AllowedShows(env, allowed)
    requires !op.Begin? ==> StepAllowed(env, a, op, allowed)
    ensures Once(env, Apply(env, a, op).log, v, allowed)
  {
    hide Once, AllowedShows, StepAllowed, Fold, FindRun;
    v := w;
    if !op.Begin? {
      var k: nat :| MergedUpTo(a.runs, k) && LongestFinished(a.runs, k);
      var i, f := OpEffect(env, a, op, k);
      hide Apply;
      if i < |a.runs| && !a.runs[i].merged {
        var runs1, m := Stamped(a.runs, i, op.outcome, op.at), Stretch(a, op, k, f);
        StretchAllowed(env, a, op, k, i, m, allowed);
        v := OnceFold(env, a.log, w, runs1, k, m, op.runId, op.delivered, allowed);
      }
    }
  }

  lemma OnceNothing(env: Env, allowed: Allowed)
    ensures Once(env, Run(env, []).log, [], allowed)
  {}

  lemma {:induction false} HistoryOnce(env: Env, ops: seq<Op>, ids: set<string>, allowed: Allowed)
    returns (w: seq<Piece>)
    requires Legal(env, ops, ids, allowed) && AllowedShows(env, allowed)
    ensures Once(env, Run(env, ops).log, w, allowed)
    decreases |ops|
  {
    hide *;
    if ops == [] {
      w := [];
      OnceNothing(env, allowed);
    } else {
      var before, op := ops[..|ops| - 1], ops[|ops| - 1];
      LegalBefore(env, ops, ids, allowed);
      var v := HistoryOnce(env, before, ids, allowed);
      MergedIsLongestFinishedPrefix(env, before);
      if !op.Begin? { LegalStep(env, ops, ids, allowed); }
      w := OnceStep(env, Run(env, before), v, op, allowed);
      RunLast(env, ops);
    }
  }

  /** The log of a history is blocks that it can write, no two of the same run. */
  ghost predicate BlocksOnce(env: Env, ops: seq<Op>, w: seq<Piece>) {
    && AllEnded(w) && EachOnce(w) && Run(env, ops).log == Joined(env, w, |w|)
    && forall p | 0 <= p < |w| :: Writable(env, ops, w[p]) && w[p].texts != []
  }

  /**
   No run's block is ever appended twice, whatever is lost and whatever each attempt delivers, as long as blocks show
   the ids of their own runs: the log is blocks of registered runs, from logs delivered for them or found by a scan.
   */
  lemma CrashesNeverDuplicate(env: Env, ops: seq<Op>) returns (w: seq<Piece>)
    requires FreshIds(Begins(ops)) && ShowsItself(env, ops)
    ensures BlocksOnce(env, ops, w)
  {
    hide Begins, Writable, Block, Contains, Run, Joined;
    forall op | op in ops && op.Begin? ensures op.runId in Ids(ops) { BeginsAreRegistered(ops, op); }
    w := HistoryOnce(env, ops, Ids(ops), Written(env, ops));
  }

  // ---- when every attempt agrees ----

  /** No run is delivered logs by one attempt and none by another. */
  ghost predicate DeliveriesAgree(ops: seq<Op>) {
    forall i, j | 0 <= i < |ops| && 0 <= j < |ops| && !ops[i].Begin? && !ops[j].Begin?
           && ops[i].runId == ops[j].runId ::
      ops[i].delivered == [] <==> ops[j].delivered == []
  }

  lemma {:induction false} EmptiesAre(ops: seq<Op>, id: string)
    requires id in Empties(ops)
    ensures exists i | 0 <= i < |ops| :: !ops[i].Begin? && ops[i].runId == id && ops[i].delivered == []
    decreases |ops|
  {
    var before := ops[..|ops| - 1];
    if id in Empties(before) {
      EmptiesAre(before, id);
      var i :| 0 <= i < |before| && !before[i].Begin? && before[i].runId == id && before[i].delivered == [];
      assert ops[i] == before[i];
    }
  }

  lemma LateWasEmpty(env: Env, a: Archive, w: seq<Piece>, op: Op, k: nat, ids: set<string>, allowed: Allowed,
                     empties: set<string>)
    requires Identifies(env, ids, allowed) && State(env, a, w, k, ids, allowed, empties) && LateLogs(a, op)
    ensures op.runId in empties
  {
    MaxSequenceIs(a.runs, k);
    RegisteredIn(env, a, w, k, ids, allowed);
    HoldsShows(env, a, w, ids, allowed, op.runId);
    var j :| k < j < |a.runs| && Contains(a.log, a.runs[j].runId);
    DistinctFrom(a.runs, ids);
    HoldsShows(env, a, w, ids, allowed, a.runs[j].runId);
    hide Contains, Has, Holds, Identifies, MaxSequence;
    assert a.runs[k].runId == op.runId;
  }

  /** Logs are late only for a run that an earlier attempt delivered none for. */
  lemma AgreeingIsNeverLate(env: Env, ops: seq<Op>, ids: set<string>, allowed: Allowed, n: nat)
    requires Identifies(env, ids, allowed) && Legal(env, ops, ids, allowed) && DeliveriesAgree(ops) && n < |ops|
    ensures !LateLogs(Run(env, ops[..n]), ops[n])
  {
    LegalPrefix(env, ops, ids, allowed, n);
    var w, k := HistoryBlocks(env, ops[..n], ids, allowed);
    hide Identifies, State, Legal, Run, Empties, LateLogs;
    assert forall i | 0 <= i < n :: ops[..n][i] == ops[i];
    if LateLogs(Run(env, ops[..n]), ops[n]) {
      LateWasEmpty(env, Run(env, ops[..n]), w, ops[n], k, ids, allowed, Empties(ops[..n]));
      EmptiesAre(ops[..n], ops[n].runId);
    }
  }

  lemma {:induction false} LegalPrefix(env: Env, ops: seq<Op>, ids: set<string>, allowed: Allowed, n: nat)
    requires Legal(env, ops, ids, allowed) && n <= |ops|
    ensures Legal(env, ops[..n], ids, allowed)
    decreases |ops|
  {
    if n == |ops| {
      assert ops[..n] == ops;
    } else {
      LegalBefore(env, ops, ids, allowed);
      LegalPrefix(env, ops[..|ops| - 1], ids, allowed, n);
      assert ops[..|ops| - 1][..n] == ops[..n];
    }
  }

  /** As long as the attempts to complete a run agree on whether it has logs, the blocks stand in sequence order. */
  lemma AgreeingStaysInOrder(env: Env, ops: seq<Op>)
    requires Identified(env, ops) && DeliveriesAgree(ops)
    ensures InOrder(Run(env, ops))
  {
    IdentifiedIsLegal(env, ops);
    hide Identified, Identifies, Legal, Run, LateLogs, DeliveriesAgree;
    forall n | 0 <= n < |ops| ensures !LateLogs(Run(env, ops[..n]), ops[n]) {
      AgreeingIsNeverLate(env, ops, Ids(ops), Written(env, ops), n);
    }
    InOrderExactly(env, ops);
  }

  // ---- repeating a completion ----

  lemma {:induction false} FoldNothing(env: Env, w: seq<Piece>, runs: seq<Entry>, lo: nat, hi: nat, current: string,
                                       delivered: seq<string>)
    requires hi <= |runs|
    requires forall r | lo <= r < hi :: Sources(env, runs[r].runId, current, delivered) == [] || Has(w, runs[r].runId)
    ensures PileFold(env, w, runs, lo, hi, current, delivered) == w
    decreases hi
  {
    hide Has, Sources;
    if hi <= lo {
    } else {
      FoldNothing(env, w, runs, lo, hi - 1, current, delivered);
    }
  }

  lemma BlockNotEmpty(env: Env, p: Piece, ids: set<string>, allowed: Allowed)
    requires Identifies(env, ids, allowed) && GoodPiece(p, ids, allowed)
    ensures Block(env, p.entry, p.texts) != ""
  {
    assert Contains(Block(env, p.entry, p.texts), p.entry.runId);
    hide Block;
  }

  lemma {:induction false} JoinedLonger(env: Env, w: seq<Piece>, m: nat, n: nat, ids: set<string>, allowed: Allowed)
    requires Identifies(env, ids, allowed) && GoodPieces(w, ids, allowed) && AllEnded(w) && m < n <= |w|
    ensures |Joined(env, w, m)| < |Joined(env, w, n)|
    decreases n
  {
    assert GoodPiece(w[n - 1], ids, allowed);
    BlockNotEmpty(env, w[n - 1], ids, allowed);
    hide Block, Identifies, GoodPieces, GoodPiece;
    if m < n - 1 { JoinedLonger(env, w, m, n - 1, ids, allowed); }
  }

  /** More blocks make a longer log. */
  lemma GrownLog(env: Env, w: seq<Piece>, v: seq<Piece>, ids: set<string>, allowed: Allowed)
    requires Identifies(env, ids, allowed) && GoodPieces(v, ids, allowed) && AllEnded(v) && AllEnded(w) && w <= v
    ensures Joined(env, v, |v|) == Joined(env, w, |w|) <==> v == w
  {
    hide *;
    if |w| < |v| {
      JoinedLonger(env, v, |w|, |v|, ids, allowed);
      JoinedPrefix(env, w, v, |w|);
    }
  }

  /** Draining the stretch k..f again, from a log that already holds it. */
  lemma ReplayStretch(env: Env, w: seq<Piece>, runs1: seq<Entry>, runs2: seq<Entry>, k: nat, f: nat, id: string,
                      first: seq<string>, second: seq<string>)
    requires DistinctRuns(runs1) && |runs1| == |runs2| && k < f <= |runs1| && runs1[k].runId == id
    requires forall r | 0 <= r < |runs1| :: runs1[r].runId == runs2[r].runId
    ensures var v := PileFold(env, w, runs1, k, f, id, first);
            PileFold(env, v, runs2, k, f, id, second) == v <==> second == [] || Has(v, id)
  {
    var v := PileFold(env, w, runs1, k, f, id, first);
    forall r | k < r < f ensures Sources(env, runs2[r].runId, id, second) == [] || Has(v, runs2[r].runId) {
      FoldHas(env, w, runs1, k, f, id, first, r);
    }
    if second == [] || Has(v, id) {
      FoldNothing(env, v, runs2, k, f, id, second);
    } else {
      FoldHas(env, v, runs2, k, f, id, second, k);
    }
  }

  lemma ReplayPending(env: Env, a: Archive, b: Archive, c: Archive, w: seq<Piece>, k: nat, f: nat, g: nat, lost: Op,
                      again: Op, ids: set<string>, allowed: Allowed, empties: set<string>)
    requires Identifies(env, ids, allowed) && State(env, a, w, k, ids, allowed, empties)
    requires lost.Lost? && again.Complete? && lost.runId == again.runId && |a.runs| <= lost.turns
    requires StepAllowed(env, a, lost, allowed) && StepAllowed(env, b, again, allowed)
    requires k < |a.runs| && !a.runs[k].merged && k == FindRun(a.runs, lost.runId, 0)
    requires Effect(env, a, lost, k, k, f, b) && Effect(env, b, again, k, k, g, c)
    ensures c.log == b.log <==> again.delivered == [] || Contains(b.log, again.runId)
  {
    var runs1, runs2 := Stamped(a.runs, k, lost.outcome, lost.at), Stamped(a.runs, k, again.outcome, again.at);
    assert b.runs == a.runs;
    SameLength(runs1, runs2, f, g);
    assert Stretch(a, lost, k, f) == f && Stretch(b, again, k, g) == f;
    var v := PileFold(env, w, runs1, k, f, lost.runId, lost.delivered);
    SameIds(a.runs, runs1, ids);
    DistinctFrom(runs1, ids);
    RegisteredIn(env, a, w, k, ids, allowed);
    StretchAllowed(env, a, lost, k, k, f, allowed);
    StretchAllowed(env, b, again, k, k, f, allowed);
    hide Identifies, GoodPieces, Joined, AllEnded, Fold, PileFold, Has, Stretch, Gap, SourcesAllowed, Contains,
         DistinctIds, StepAllowed;
    StretchHolds(env, a, w, runs1, k, f, b, lost.runId, lost.delivered, ids, allowed);
    StretchHolds(env, b, v, runs2, k, f, Archive(b.runs, c.log), again.runId, again.delivered, ids, allowed);
    ReplayStretch(env, w, runs1, runs2, k, f, lost.runId, lost.delivered, again.delivered);
    var u := PileFold(env, v, runs2, k, f, again.runId, again.delivered);
    GrownLog(env, v, u, ids, allowed);
    HoldsShows(env, b, v, ids, allowed, again.runId);
  }

  lemma SameLength(runs1: seq<Entry>, runs2: seq<Entry>, f: nat, g: nat)
    requires |runs1| == |runs2| && forall r | 0 <= r < |runs1| :: runs1[r].status.Ended? <==> runs2[r].status.Ended?
    requires LongestFinished(runs1, f) && LongestFinished(runs2, g)
    ensures f == g
  {}

  lemma ReplayState(env: Env, a: Archive, w: seq<Piece>, k: nat, lost: Op, again: Op, ids: set<string>,
                    allowed: Allowed, empties: set<string>)
    requires Identifies(env, ids, allowed) && State(env, a, w, k, ids, allowed, empties)
    requires lost.Lost? && again.Complete? && lost.runId == again.runId && |a.runs| <= lost.turns
    requires StepAllowed(env, a, lost, allowed) && StepAllowed(env, Apply(env, a, lost), again, allowed)
    ensures var b := Apply(env, a, lost);
            Apply(env, b, again).log == b.log <==>
            || FindRun(b.runs, again.runId, 0) != MaxSequence(b.runs, true)
            || FindRun(b.runs, again.runId, 0) == |b.runs|
            || again.delivered == []
            || Contains(b.log, again.runId)
  {
    var b := Apply(env, a, lost);
    var c := Apply(env, b, again);
    var i, f := OpEffect(env, a, lost, k);
    assert b.runs == a.runs;
    var j, g := OpEffect(env, b, again, k);
    MaxSequenceIs(a.runs, k);
    hide Identifies, Holds, Gap, Apply, MaxSequence, FindRun, StepAllowed, Contains;
    if i == k && i < |a.runs| {
      ReplayPending(env, a, b, c, w, k, f, g, lost, again, ids, allowed, empties);
    }
  }

  /**
   Repeating a completion whose log reached the disk but whose manifest write was lost leaves the log as it is, if
   and only if the run is not the next one pending, or it delivers no logs, or its id already shows.
   */
  lemma ReplayExactly(env: Env, ops: seq<Op>, lost: Op, again: Op)
    requires Identified(env, ops + [lost] + [again])
    requires lost.Lost? && again.Complete? && lost.runId == again.runId && |Run(env, ops).runs| <= lost.turns
    ensures var b := Run(env, ops + [lost]);
            Run(env, ops + [lost] + [again]).log == b.log <==>
            || FindRun(b.runs, again.runId, 0) != MaxSequence(b.runs, true)
            || FindRun(b.runs, again.runId, 0) == |b.runs|
            || again.delivered == []
            || Contains(b.log, again.runId)
  {
    assert (ops + [lost] + [again])[..|ops + [lost]|] == ops + [lost] && (ops + [lost])[..|ops|] == ops;
    var ids, allowed := Ids(ops + [lost] + [again]), Written(env, ops + [lost] + [again]);
    IdentifiedIsLegal(env, ops + [lost] + [again]);
    hide Ids, Written, Identified;
    LegalBefore(env, ops + [lost] + [again], ids, allowed);
    LegalBefore(env, ops + [lost], ids, allowed);
    LegalStep(env, ops + [lost] + [again], ids, allowed);
    LegalStep(env, ops + [lost], ids, allowed);
    RunLast(env, ops + [lost] + [again]);
    RunLast(env, ops + [lost]);
    hide Identifies, Legal, Run, Apply;
    var w, k := HistoryBlocks(env, ops, ids, allowed);
    ReplayState(env, Run(env, ops), w, k, lost, again, ids, allowed, Empties(ops));
  }

  // ---- logs that turn up late ----

  /** Two runs, registered in the order x, y. */
  ghost function Registered(x: Op, y: Op): seq<Entry>
    requires x.Begin? && y.Begin?
  {
    [Entry(1, x.runId, x.operation, Running, x.at, None, false),
     Entry(2, y.runId, y.operation, Running, y.at, None, false)]
  }

  lemma TwoRegistered(x: Op, y: Op)
    requires x.Begin? && y.Begin? && x.runId != y.runId
    ensures var runs := Registered(x, y);
            Numbered(runs) && MergedUpTo(runs, 0) && LongestFinished(runs, 0) && LogMergeSources.Distinct(runs)
  {}

  lemma RunTwo(env: Env, x: Op, y: Op)
    requires x.Begin? && y.Begin?
    ensures Run(env, [x, y]) == Archive(Registered(x, y), "") && Begins([x, y]) == [x, y]
  {
    assert [x, y][..1] == [x] && [x][..0] == [];
    assert Run(env, [x]).runs == [Entry(1, x.runId, x.operation, Running, x.at, None, false)];
    assert Begins([x]) == [x];
    TwoSequences(Run(env, [x]).runs);
  }

  lemma TwoSequences(runs: seq<Entry>)
    requires |runs| == 1 && runs[0].sequence == 1
    ensures MaxSequence(runs, false) == 1
  {
    assert runs[..0] == [];
  }

  /** x is registered, then y; y completes; a completion of x is lost, and x is completed again. */
  ghost predicate LateHistory(env: Env, x: Op, y: Op, early: Op, lost: Op, again: Op) {
    && x.Begin? && y.Begin? && early.Complete? && lost.Lost? && again.Complete?
    && early.runId == y.runId && lost.runId == again.runId == x.runId && x.runId != y.runId
    && lost.turns == 2 && lost.delivered == [] && again.delivered != [] && env.found(y.runId) != []
  }

  lemma EarlyWaits(env: Env, x: Op, y: Op, early: Op)
    requires x.Begin? && y.Begin? && early.Complete? && early.runId == y.runId && x.runId != y.runId
    ensures Run(env, [x, y, early]) == Archive(Stamped(Registered(x, y), 1, early.outcome, early.at), "")
  {
    var ops := [x, y, early];
    assert ops[..2] == [x, y];
    RunTwo(env, x, y);
    RunLast(env, ops);
    TwoRegistered(x, y);
    hide Apply, Run;
    LogMergeSources.CompleteEarly(env, Archive(Registered(x, y), ""), early, 0);
  }

  /** A lost completion of the first of two runs, the second of which has ended. */
  lemma LostWrites(env: Env, held: seq<Entry>, lost: Op)
    requires |held| == 2 && Numbered(held) && MergedUpTo(held, 0) && LongestFinished(held, 0)
    requires LogMergeSources.Distinct(held) && held[1].status.Ended? && held[1].runId != ""
    requires lost.Lost? && lost.turns == 2 && lost.delivered == [] && lost.runId == held[0].runId
    requires env.found(held[1].runId) != []
    ensures Apply(env, Archive(held, ""), lost) == Archive(held, Block(env, held[1], env.found(held[1].runId)))
  {
    hide Block, Contains, Apply;
    var full := Complete(lost.runId, [], lost.outcome, lost.at);
    LostLog(env, Archive(held, ""), lost, full);
    LogMergeSources.MergeTwoRuns(env, Archive(held, ""), full, 0);
    NoneShows(held[1].runId);
  }

  lemma HeldForm(x: Op, y: Op, early: Op)
    requires x.Begin? && y.Begin? && early.Complete? && x.runId != y.runId
    ensures var held := Stamped(Registered(x, y), 1, early.outcome, early.at);
            && |held| == 2 && Numbered(held) && MergedUpTo(held, 0) && LongestFinished(held, 0)
            && LogMergeSources.Distinct(held) && held[1].status.Ended?
            && held[0].runId == x.runId && held[1].runId == y.runId
  {}

  /** The archive up to the lost completion: the second run's block is in the file, the manifest has no run merged. */
  lemma LostAppends(env: Env, x: Op, y: Op, early: Op, lost: Op, again: Op)
    requires LateHistory(env, x, y, early, lost, again) && y.runId != ""
    ensures var held := Stamped(Registered(x, y), 1, early.outcome, early.at);
            && |held| == 2 && held[1].status.Ended?
            && Run(env, [x, y, early, lost]) == Archive(held, Block(env, held[1], env.found(y.runId)))
  {
    var ops := [x, y, early, lost];
    assert ops[..3] == [x, y, early];
    hide Run, Apply, Block, Registered, Stamped, Numbered, MergedUpTo, LongestFinished, LogMergeSources.Distinct;
    EarlyWaits(env, x, y, early);
    HeldForm(x, y, early);
    RunLast(env, ops);
    LostWrites(env, Stamped(Registered(x, y), 1, early.outcome, early.at), lost);
  }

  /** The completion again, from there. */
  lemma AgainAppends(env: Env, x: Op, y: Op, early: Op, lost: Op, again: Op, block: string)
    requires LateHistory(env, x, y, early, lost, again)
    requires block != "" && Contains(block, y.runId) && !Contains(block, x.runId)
    ensures var held := Stamped(Registered(x, y), 1, early.outcome, early.at);
            Apply(env, Archive(held, block), again).log ==
            block + "\n" + Block(env, Stamped(held, 0, again.outcome, again.at)[0], again.delivered)
  {
    var held := Stamped(Registered(x, y), 1, early.outcome, early.at);
    assert Numbered(held) && MergedUpTo(held, 0) && LongestFinished(held, 0) && LogMergeSources.Distinct(held);
    hide Block, Contains, Apply;
    LogMergeSources.MergeTwoRuns(env, Archive(held, block), again, 0);
    StillShows(block, Block(env, Stamped(held, 0, again.outcome, again.at)[0], again.delivered), y.runId);
  }

  /** The second run's block is one that the history can write. */
  lemma SecondWritable(env: Env, x: Op, y: Op, early: Op, lost: Op, again: Op)
    requires LateHistory(env, x, y, early, lost, again)
    ensures var ops, e := [x, y, early, lost, again], Stamped(Registered(x, y), 1, early.outcome, early.at)[1];
            && Writable(env, ops, Piece(e, env.found(y.runId))) && x.runId in Ids(ops) && y.runId in Ids(ops)
  {
    var ops, e := [x, y, early, lost, again], Stamped(Registered(x, y), 1, early.outcome, early.at)[1];
    assert ops[..1] == [x] && [x][..0] == [] && Begins([]) == [] && Begins([x]) == [x];
    assert WrittenBy(env, ops, Piece(e, env.found(y.runId)), 1, 2);
    BeginsAreRegistered(ops, x);
    BeginsAreRegistered(ops, y);
  }

  lemma SecondShows(env: Env, x: Op, y: Op, early: Op, lost: Op, again: Op)
    requires LateHistory(env, x, y, early, lost, again) && Identified(env, [x, y, early, lost, again])
    ensures var held := Stamped(Registered(x, y), 1, early.outcome, early.at);
            var block := Block(env, held[1], env.found(y.runId));
            block != "" && Contains(block, y.runId) && !Contains(block, x.runId) && y.runId != "" && x.runId != ""
  {
    SecondWritable(env, x, y, early, lost, again);
    hide Writable, Block, Begins, Contains, Ids;
    var ops, e := [x, y, early, lost, again], Stamped(Registered(x, y), 1, early.outcome, early.at)[1];
    assert GoodPiece(Piece(e, env.found(y.runId)), Ids(ops), Written(env, ops));
    NoneShows(y.runId);
  }

  lemma AgainIsLate(env: Env, x: Op, y: Op, early: Op, lost: Op, again: Op, block: string)
    requires LateHistory(env, x, y, early, lost, again)
    requires Contains(block, y.runId) && !Contains(block, x.runId)
    ensures LateLogs(Archive(Stamped(Registered(x, y), 1, early.outcome, early.at), block), again)
  {
    var held := Stamped(Registered(x, y), 1, early.outcome, early.at);
    assert Numbered(held) && MergedUpTo(held, 0);
    MaxSequenceIs(held, 0);
    hide Contains, MaxSequence;
    assert held[0].runId == x.runId && held[1].runId == y.runId;
    assert FindRun(held, again.runId, 0) == 0;
  }

  /**
   y completes first; x is completed without logs and the manifest write is lost after y's block was appended; x is
   completed again, now with logs.  The file has the second run's block before the first's.
   */
  lemma LateLogsReverseBlocks(env: Env, x: Op, y: Op, early: Op, lost: Op, again: Op)
    requires LateHistory(env, x, y, early, lost, again) && Identified(env, [x, y, early, lost, again])
    ensures var ops := [x, y, early, lost, again];
            var runs := Stamped(Stamped(Registered(x, y), 1, early.outcome, early.at), 0, again.outcome, again.at);
            && Run(env, ops).log ==
               Block(env, runs[1], env.found(y.runId)) + "\n" + Block(env, runs[0], again.delivered)
            && !NeverLate(env, ops) && !InOrder(Run(env, ops))
  {
    var ops := [x, y, early, lost, again];
    assert ops[..4] == [x, y, early, lost] && ops[4] == again;
    hide *;
    SecondShows(env, x, y, early, lost, again);
    LostAppends(env, x, y, early, lost, again);
    var held := Stamped(Registered(x, y), 1, early.outcome, early.at);
    var block := Block(env, held[1], env.found(y.runId));
    AgainAppends(env, x, y, early, lost, again, block);
    AgainIsLate(env, x, y, early, lost, again, block);
    RunLast(env, ops);
    LateNext(env, ops);
    InOrderExactly(env, ops);
    SecondStays(x, y, early, again);
  }

  lemma SecondStays(x: Op, y: Op, early: Op, again: Op)
    requires x.Begin? && y.Begin? && !early.Begin? && !again.Begin?
    ensures var held := Stamped(Registered(x, y), 1, early.outcome, early.at);
            |held| == 2 && held[1].status.Ended? && Stamped(held, 0, again.outcome, again.at)[1] == held[1]
            && Stamped(held, 0, again.outcome, again.at)[0].status.Ended?
  {}

  lemma LostLog(env: Env, a: Archive, lost: Op, full: Op)
    requires lost.Lost? && full == Complete(lost.runId, lost.delivered, lost.outcome, lost.at) && lost.turns == |a.runs|
    ensures Apply(env, a, lost) == a.(log := Apply(env, a, full).log)
  {
    hide Completed;
  }

  lemma NoneShows(x: string)
    requires x != ""
    ensures !Contains("", x)
  {
    assert !HasAt("", x, 0);
  }

  lemma StillShows(log: string, block: string, x: string)
    requires Contains(log, x)
    ensures Contains(log + "\n" + block, x)
  {
    ContainsExtends("", log, "\n" + block, x);
    assert "" + log + ("\n" + block) == log + "\n" + block;
  }
}
