/**
 When the blocks of a history can be told apart by their run ids: a condition on the texts that a history is made of,
 and a history with two runs, logs and a lost manifest write that meets it.
 */
module LogMergeIds {
  import opened Text
  import opened LogMerge
  import opened LogMergeProofs
  import opened LogMergeCrash

  // ---- containment in a text made of parts ----

  lemma ShowsInParts(left: string, sep: char, right: string, x: string)
    requires sep !in x
    ensures Contains(left + [sep] + right, x) <==> Contains(left, x) || Contains(right, x)
  {
    var whole := left + [sep] + right;
    if Contains(whole, x) { ContainsSplits(left, sep, right, x); }
    if Contains(left, x) {
      ContainsExtends("", left, [sep] + right, x);
      assert "" + left + ([sep] + right) == whole;
    }
    if Contains(right, x) {
      ContainsExtends(left + [sep], right, "", x);
      assert left + [sep] + right + "" == whole;
    }
  }

  /** A text without one of a token's characters does not show the token. */
  lemma CharMissing(text: string, x: string, c: char)
    requires c in x && c !in text
    ensures !Contains(text, x)
  {
    var k :| 0 <= k < |x| && x[k] == c;
    forall i: nat | i + |x| <= |text| ensures !HasAt(text, x, i) {
      assert text[i..i + |x|][k] == text[i + k];
    }
  }

  /** Run ids as they are generated: digits and letters around dashes, without white space. */
  predicate Token(x: string) {
    '-' in x && (exists c | c in x :: c != '-') && ' ' !in x && '\n' !in x
  }

  lemma FixedWords(x: string)
    requires Token(x)
    ensures !Contains("|", x) && !Contains("---", x) && !Contains("cvekit", x) && !Contains("", x)
    ensures !Contains("--- task run", x)
  {
    CharMissing("|", x, '-');
    CharMissing("cvekit", x, '-');
    CharMissing("", x, '-');
    var c :| c in x && c != '-';
    CharMissing("---", x, c);
    assert "--- task run" == "---" + [' '] + "task run";
    ShowsInParts("---", ' ', "task run", x);
    CharMissing("task run", x, '-');
  }

  lemma {:induction false} DecimalHasNoDash(n: nat)
    ensures '-' !in Decimal(n)
    decreases n
  {
    if n < 10 {
    } else {
      DecimalHasNoDash(n / 10);
    }
  }

  /** Two fields of a header. */
  lemma BarShows(left: string, right: string, x: string)
    requires Token(x)
    ensures Contains(left + " | " + right, x) <==> Contains(left, x) || Contains(right, x)
  {
    assert left + " | " + right == left + [' '] + ("|" + [' '] + right);
    FixedWords(x);
    ShowsInParts(left, ' ', "|" + [' '] + right, x);
    ShowsInParts("|", ' ', right, x);
    hide Contains;
  }

  lemma HeadShows(n: nat, x: string)
    requires Token(x)
    ensures !Contains("--- task run " + Decimal(n), x)
  {
    assert "--- task run " + Decimal(n) == "--- task run" + [' '] + Decimal(n);
    FixedWords(x);
    DecimalHasNoDash(n);
    CharMissing(Decimal(n), x, '-');
    ShowsInParts("--- task run", ' ', Decimal(n), x);
    hide Contains, Decimal;
  }

  lemma TailShows(left: string, x: string)
    requires Token(x)
    ensures Contains(left + " ---\n", x) <==> Contains(left, x)
  {
    assert left + " ---\n" == left + [' '] + ("---" + ['\n'] + "");
    FixedWords(x);
    ShowsInParts(left, ' ', "---" + ['\n'] + "", x);
    ShowsInParts("---", '\n', "", x);
    hide Contains;
  }

  function OperationOf(e: Entry): string {
    if e.operation == "" then "cvekit" else e.operation
  }

  /** The header, field by field. */
  lemma HeaderIs(env: Env, e: Entry)
    requires e.status.Ended?
    ensures Header(env, e) ==
            "--- task run " + Decimal(e.sequence) + " | " + e.runId + " | " + env.taskId + " | " + OperationOf(e)
            + " | " + e.status.outcome + " | " + ("started=" + e.startedAt)
            + " | " + ("ended=" + if e.endedAt.Some? then e.endedAt.value else "None") + " ---\n"
  {
    var h := "--- task run " + Decimal(e.sequence) + " | " + e.runId + " | " + env.taskId + " | " + OperationOf(e)
             + " | " + e.status.outcome;
    hide Decimal;
    FieldIs(h, "started=", e.startedAt);
    assert " | started=" == " | " + "started=" && " | ended=" == " | " + "ended=";
    FieldIs(h + " | " + ("started=" + e.startedAt), "ended=", Rendered(e.endedAt));
  }

  lemma EndIs(endedAt: Option<string>)
    ensures Rendered(endedAt) == if endedAt.Some? then endedAt.value else "None"
  {}

  lemma FieldIs(left: string, name: string, value: string)
    ensures left + (" | " + name) + value == left + " | " + (name + value)
  {}

  /** A header shows a token exactly when one of its fields does. */
  lemma HeaderShows(env: Env, e: Entry, x: string)
    requires e.status.Ended? && Token(x)
    ensures Contains(Header(env, e), x) <==>
            || Contains(e.runId, x) || Contains(env.taskId, x) || Contains(OperationOf(e), x)
            || Contains(e.status.outcome, x) || Contains("started=" + e.startedAt, x)
            || Contains("ended=" + Rendered(e.endedAt), x)
  {
    hide *;
    HeaderIs(env, e);
    EndIs(e.endedAt);
    var h0 := "--- task run " + Decimal(e.sequence);
    var h1 := h0 + " | " + e.runId;
    var h2 := h1 + " | " + env.taskId;
    var h3 := h2 + " | " + OperationOf(e);
    var h4 := h3 + " | " + e.status.outcome;
    var h5 := h4 + " | " + ("started=" + e.startedAt);
    var h6 := h5 + " | " + ("ended=" + Rendered(e.endedAt));
    HeadShows(e.sequence, x);
    BarShows(h0, e.runId, x);
    BarShows(h1, env.taskId, x);
    BarShows(h2, OperationOf(e), x);
    BarShows(h3, e.status.outcome, x);
    BarShows(h4, "started=" + e.startedAt, x);
    BarShows(h5, "ended=" + Rendered(e.endedAt), x);
    TailShows(h6, x);
  }

  /** The texts of a block show a token exactly when its header or one of its logs does. */
  lemma {:induction false} ChunksShow(env: Env, e: Entry, texts: seq<string>, x: string)
    requires e.status.Ended? && Token(x) && texts != []
    ensures Contains(JoinChunks(env, e, texts), x) <==>
            Contains(Header(env, e), x) || exists t | t in texts :: Contains(t, x)
    decreases |texts|
  {
    hide Header, Contains;
    var h := Header(env, e);
    ShowsInParts(h, '\n', texts[0], x);
    if |texts| == 1 {
      assert h + "\n" + texts[0] == h + ['\n'] + texts[0];
    } else {
      var rest := JoinChunks(env, e, texts[1..]);
      ChunksShow(env, e, texts[1..], x);
      ShowsInParts(h + ['\n'] + texts[0], '\n', rest, x);
      assert h + "\n" + texts[0] + "\n" + rest == h + ['\n'] + texts[0] + ['\n'] + rest;
      assert forall t :: t in texts <==> t == texts[0] || t in texts[1..];
    }
  }

  // ---- a condition on what a history is made of ----

  ghost predicate Silent(text: string, ids: set<string>) {
    forall x | x in ids :: !Contains(text, x)
  }

  /** Logs of run id: they show no other run's id. */
  ghost predicate SilentBut(texts: seq<string>, id: string, ids: set<string>) {
    forall t, x | t in texts && x in ids && x != id :: !Contains(t, x)
  }

  ghost predicate SilentOp(op: Op, ids: set<string>) {
    match op
    case Begin(_, operation, at) => Silent(operation, ids) && Silent("started=" + at, ids)
    case _ => Silent(op.outcome, ids) && Silent("ended=" + op.at, ids) && SilentBut(op.delivered, op.runId, ids)
  }

  ghost predicate SilentParts(env: Env, ops: seq<Op>, ids: set<string>) {
    && Silent(env.taskId, ids)
    && (forall op | op in ops :: SilentOp(op, ids))
    && forall id | id in ids :: SilentBut(env.found(id), id, ids)
  }

  ghost predicate KeepsIds(env: Env, ids: set<string>) {
    forall text: string, x | x in ids :: Contains(env.redact(text), x) <==> Contains(text, x)
  }

  ghost predicate GoodIds(ids: set<string>) {
    (forall x | x in ids :: Token(x)) && forall x, y | x in ids && y in ids && Contains(y, x) :: x == y
  }

  /**
   No id shows in another, in the task id, in an operation, outcome or time stamp, or in another run's logs, and
   redaction hides and invents no id.
   */
  ghost predicate Plain(env: Env, ops: seq<Op>) {
    FreshIds(Begins(ops)) && GoodIds(Ids(ops)) && KeepsIds(env, Ids(ops)) && SilentParts(env, ops, Ids(ops))
  }

  lemma {:induction false} IdsAreBegun(ops: seq<Op>, b: nat)
    requires b < |ops| && ops[b].Begin?
    ensures ops[b].runId in Ids(ops)
  {
    BeginsAreRegistered(ops, ops[b]);
    hide Begins;
  }

  /** The header of a block shows its own run's id and no other. */
  lemma HeaderIdentifies(env: Env, ops: seq<Op>, p: Piece, b: nat, c: nat, x: string)
    requires b < c < |ops| && WrittenBy(env, ops, p, b, c) && x in Ids(ops) && p.entry.status.Ended?
    requires GoodIds(Ids(ops)) && SilentParts(env, ops, Ids(ops))
    ensures Contains(Header(env, p.entry), x) <==> x == p.entry.runId
  {
    IdsAreBegun(ops, b);
    assert ops[b] in ops && ops[c] in ops && SilentOp(ops[b], Ids(ops)) && SilentOp(ops[c], Ids(ops));
    hide Ids, Begins;
    var ids := Ids(ops);
    HeaderShows(env, p.entry, x);
    FixedWords(x);
    ShowsItself(x);
    hide Header, Contains, Token;
  }

  lemma ShowsItself(x: string)
    ensures Contains(x, x)
  {
    assert HasAt(x, x, 0);
  }

  /** The logs a block is written from show no other run's id. */
  lemma LogsSilent(env: Env, ops: seq<Op>, p: Piece, b: nat, c: nat)
    requires b < c < |ops| && WrittenBy(env, ops, p, b, c) && SilentParts(env, ops, Ids(ops))
    ensures SilentBut(p.texts, p.entry.runId, Ids(ops))
  {
    IdsAreBegun(ops, b);
    assert ops[c] in ops && SilentOp(ops[c], Ids(ops));
    hide Ids, Begins, SilentBut, Silent;
  }

  lemma BlockIdentifies(env: Env, ops: seq<Op>, p: Piece, x: string)
    requires Plain(env, ops) && Writable(env, ops, p) && p.texts != [] && p.entry.status.Ended? && x in Ids(ops)
    ensures Contains(Block(env, p.entry, p.texts), x) <==> x == p.entry.runId
  {
    var b: nat, c: nat :| b < c < |ops| && WrittenBy(env, ops, p, b, c);
    hide WrittenBy, SilentParts, Begins, Ids, Header, Contains, JoinChunks, FreshIds;
    HeaderIdentifies(env, ops, p, b, c, x);
    LogsSilent(env, ops, p, b, c);
    ChunksShow(env, p.entry, p.texts, x);
  }

  /** A history made of such texts can be told apart by its run ids. */
  lemma PlainIsIdentified(env: Env, ops: seq<Op>)
    requires Plain(env, ops)
    ensures Identified(env, ops)
  {
    hide Writable, Contains, Block, Ids, Begins, FreshIds, KeepsIds, SilentParts;
    var ids, allowed := Ids(ops), Written(env, ops);
    forall p: Piece, x: string | GoodPiece(p, ids, allowed) && x in ids
      ensures Contains(Block(env, p.entry, p.texts), x) <==> x == p.entry.runId
    {
      BlockIdentifies(env, ops, p, x);
    }
  }

  // ---- a history that meets it ----

  /** Two runs with logs and nothing to redact: a completion of the second, a lost and a repeated one of the first. */
  const PLAIN_ENV := Env("task", id => ["log"], text => text)

  function TwoRuns(lost: seq<string>): seq<Op> {
    [Begin("1-a", "", ""), Begin("1-b", "", ""), Complete("1-b", ["log"], "ok", ""), Lost("1-a", lost, "ok", "", 2),
     Complete("1-a", ["log"], "ok", "")]
  }

  lemma BeginsOfFive(x: Op, y: Op, a: Op, b: Op, c: Op)
    requires x.Begin? && y.Begin? && !a.Begin? && !b.Begin? && !c.Begin?
    ensures Begins([x, y, a, b, c]) == [x, y]
  {
    hide *;
    NoBegins();
    NextOp([], x);
    assert [] + [x] == [x];
    NextOp([x], y);
    assert [x] + [y] == [x, y];
    NextOp([x, y], a);
    assert [x, y] + [a] == [x, y, a] && [x, y] + [] == [x, y];
    NextOp([x, y, a], b);
    assert [x, y, a] + [b] == [x, y, a, b];
    NextOp([x, y, a, b], c);
    assert [x, y, a, b] + [c] == [x, y, a, b, c];
  }

  lemma NoBegins()
    ensures Begins([]) == []
  {}

  lemma TwoIds(lost: seq<string>)
    ensures Begins(TwoRuns(lost)) == TwoRuns(lost)[..2] && Ids(TwoRuns(lost)) == {"1-a", "1-b"}
  {
    var ops := TwoRuns(lost);
    BeginsOfFive(ops[0], ops[1], ops[2], ops[3], ops[4]);
    hide Begins;
    assert ops[..2] == [ops[0], ops[1]];
  }

  lemma NoDashIsSilent(text: string)
    requires '-' !in text
    ensures Silent(text, {"1-a", "1-b"})
  {
    assert "1-a"[1] == '-' && "1-b"[1] == '-';
    CharMissing(text, "1-a", '-');
    CharMissing(text, "1-b", '-');
    hide Contains;
  }

  lemma IdsAreGood()
    ensures GoodIds({"1-a", "1-b"})
  {
    var x, y := "1-a", "1-b";
    assert x[0] == '1' && x[1] == '-' && x[2] == 'a' && y[0] == '1' && y[1] == '-' && y[2] == 'b';
    assert '1' in x && '1' in y && x[0] != '-' && y[0] != '-';
    assert Token(x) && Token(y);
    CharMissing(x, y, 'b');
    CharMissing(y, x, 'a');
    hide Contains, Token;
  }

  /**
   The hypotheses of the results about crashes are met by two runs that both have logs, whatever harmless logs the
   lost completion delivers.
   */
  lemma TwoRunsAreIdentified(lost: seq<string>)
    requires forall t | t in lost :: '-' !in t
    ensures Identified(PLAIN_ENV, TwoRuns(lost))
  {
    var ids := {"1-a", "1-b"};
    TwoIds(lost);
    IdsAreGood();
    PlainParts(lost);
    hide *;
    NothingRedacted(ids);
    TwoFresh(lost);
    PlainFrom(PLAIN_ENV, TwoRuns(lost), ids);
    PlainIsIdentified(PLAIN_ENV, TwoRuns(lost));
  }

  lemma PlainFrom(env: Env, ops: seq<Op>, ids: set<string>)
    requires FreshIds(Begins(ops)) && ids == Ids(ops)
    requires GoodIds(ids) && KeepsIds(env, ids) && SilentParts(env, ops, ids)
    ensures Plain(env, ops)
  {}

  lemma TwoFresh(lost: seq<string>)
    ensures FreshIds(Begins(TwoRuns(lost)))
  {
    TwoIds(lost);
    hide Begins;
    assert "1-a"[2] != "1-b"[2];
  }

  lemma NothingRedacted(ids: set<string>)
    ensures KeepsIds(PLAIN_ENV, ids)
  {
    hide Contains;
  }

  lemma SilentLogs(texts: seq<string>, id: string, ids: set<string>)
    requires forall t | t in texts :: Silent(t, ids)
    ensures SilentBut(texts, id, ids)
  {
    hide Contains;
  }

  lemma PlainParts(lost: seq<string>)
    requires forall t | t in lost :: '-' !in t
    ensures SilentParts(PLAIN_ENV, TwoRuns(lost), {"1-a", "1-b"})
  {
    var ids := {"1-a", "1-b"};
    NoDashIsSilent("task");
    NoDashIsSilent("");
    NoDashIsSilent("ok");
    NoDashIsSilent("started=");
    NoDashIsSilent("ended=");
    NoDashIsSilent("log");
    assert "started=" + "" == "started=" && "ended=" + "" == "ended=";
    forall t | t in lost ensures Silent(t, ids) { NoDashIsSilent(t); }
    hide Contains, Silent;
    forall id: string, texts | texts == ["log"] || texts == lost ensures SilentBut(texts, id, ids) {
      SilentLogs(texts, id, ids);
    }
    hide SilentBut;
    var ops := TwoRuns(lost);
    assert SilentOp(ops[0], ids) && SilentOp(ops[1], ids) && SilentOp(ops[2], ids);
    assert SilentOp(ops[3], ids) && SilentOp(ops[4], ids);
  }

  /**
   Two runs with logs, and both sides of what decides the order of their blocks: when the lost completion delivered
   the same log the file has them in sequence order, when it delivered none it has the second one first.
   */
  lemma BothOrdersHappen()
    ensures InOrder(Run(PLAIN_ENV, TwoRuns(["log"]))) && !InOrder(Run(PLAIN_ENV, TwoRuns([])))
  {
    TwoRunsAreIdentified(["log"]);
    TwoRunsAreIdentified([]);
    TwoRunsAgree();
    TwoRunsAreLate();
    hide *;
    AgreeingStaysInOrder(PLAIN_ENV, TwoRuns(["log"]));
    var ops := TwoRuns([]);
    LateLogsReverseBlocks(PLAIN_ENV, ops[0], ops[1], ops[2], ops[3], ops[4]);
  }

  lemma TwoRunsAgree()
    ensures DeliveriesAgree(TwoRuns(["log"]))
  {}

  lemma TwoRunsAreLate()
    ensures var ops := TwoRuns([]);
            |ops| == 5 && ops == [ops[0], ops[1], ops[2], ops[3], ops[4]]
            && LateHistory(PLAIN_ENV, ops[0], ops[1], ops[2], ops[3], ops[4])
  {
    assert "1-a"[2] != "1-b"[2];
  }
}
