/** Text conservation in the OpenClaw hook: thinking deltas against whole blocks, and the message accumulator. */
module OpenClawProofs {
  import opened Text
  import opened Usage
  import opened TurnEvents
  import opened RunTurn
  import RunTurnProofs
  import ArtifactTrace
  import opened Messages
  import opened OpenClaw

  // ---- thinking deltas ----

  /** The text a consumer of the thinking deltas assembles. */
  function ThinkingText(events: seq<Event>): string {
    if events == [] then ""
    else
      var last := events[|events| - 1];
      ThinkingText(events[..|events| - 1]) + if last.ThinkingDelta? then Or(last.part) else ""
  }

  /** A hook state together with everything emitted as thinking text so far. */
  datatype Trace = Trace(turn: Turn, emitted: string)

  function Take(tr: Trace, e: Event): Trace {
    var r := OnMapped(tr.turn, e);
    Trace(r.0, tr.emitted + ThinkingText(r.1))
  }

  /** Non-empty delta chunks arrive, each carrying the block's text up to and including itself. */
  function TakeChunks(tr: Trace, received: string, chunks: seq<string>): Trace {
    if chunks == [] then tr
    else
      var before := chunks[..|chunks| - 1];
      var chunk := chunks[|chunks| - 1];
      Take(TakeChunks(tr, received, before),
           ThinkingDelta(Some(chunk), Some(received + Concat(before) + chunk)))
  }

  predicate NonEmpty(chunks: seq<string>) {
    forall i | 0 <= i < |chunks| :: chunks[i] != ""
  }

  predicate Comparable(a: string, b: string) {
    a <= b || b <= a
  }

  lemma ThinkingTextOne(e: Event)
    ensures ThinkingText([e]) == if e.ThinkingDelta? then Or(e.part) else ""
    ensures ThinkingText([]) == ""
  {
    assert [e][..0] == [];
  }

  lemma TakeDelta(tr: Trace, delta: string, running: string)
    requires delta != "" && running != ""
    ensures var suppress := if SameBlock(tr.turn, Some(running)) then tr.turn.suppress else "";
            var offset := Offset(suppress, delta);
            Take(tr, ThinkingDelta(Some(delta), Some(running)))
            == Trace(Turn(tr.turn.text, if offset.0 == "" then tr.turn.thinking else running, offset.1),
                     tr.emitted + offset.0)
  {
    var suppress := if SameBlock(tr.turn, Some(running)) then tr.turn.suppress else "";
    ThinkingTextOne(ThinkingDelta(Some(Offset(suppress, delta).0), Some(running)));
  }

  /** A chunk that arrives with nothing pending goes out as it is. */
  lemma TakeFreely(tr: Trace, delta: string, running: string)
    requires delta != "" && running != "" && tr.turn.suppress == ""
    ensures Take(tr, ThinkingDelta(Some(delta), Some(running)))
         == Trace(Turn(tr.turn.text, running, ""), tr.emitted + delta)
  {
    TakeDelta(tr, delta, running);
  }

  lemma TakeBlock(tr: Trace, block: string)
    requires block != ""
    ensures var acc := tr.turn.thinking;
            var missing := if acc != "" && acc < block then block[|acc|..] else "";
            Take(tr, Thinking(Some(block))) == Trace(Turn(tr.turn.text, block, missing), tr.emitted + missing)
  {
    var acc := tr.turn.thinking;
    var e := Thinking(Some(block));
    ThinkingTextOne(e);
    if acc != "" && acc < block {
      var d := ThinkingDelta(Some(block[|acc|..]), Some(block));
      ThinkingTextOne(d);
      assert [d, e][..1] == [d];
      assert ThinkingText([d, e]) == block[|acc|..] + "";
    } else {
      assert tr.emitted + "" == tr.emitted;
    }
  }

  lemma AppendText(a: string, b: string, c: string)
    ensures a + b + c == a + (b + c)
  {}

  /** Before the block arrives every chunk goes out unchanged. */
  lemma {:induction false} EarlyChunks(tr: Trace, chunks: seq<string>)
    requires tr.turn.suppress == "" && NonEmpty(chunks) && chunks != []
    ensures TakeChunks(tr, "", chunks)
         == Trace(Turn(tr.turn.text, Concat(chunks), ""), tr.emitted + Concat(chunks)) && Concat(chunks) != ""
  {
    hide Take;
    var before, chunk := chunks[..|chunks| - 1], chunks[|chunks| - 1];
    assert "" + Concat(before) + chunk == Concat(chunks);
    var mid := TakeChunks(tr, "", before);
    if before == [] {
      assert Concat(before) == "" && "" + chunk == chunk;
    } else {
      EarlyChunks(tr, before);
    }
    TakeFreely(mid, chunk, Concat(chunks));
    AppendText(tr.emitted, Concat(before), chunk);
  }

  /** Late chunks with nothing pending: all of them go out. */
  lemma {:induction false} FreeChunks(tr: Trace, received: string, chunks: seq<string>)
    requires tr.turn.suppress == "" && NonEmpty(chunks)
    ensures var end := TakeChunks(tr, received, chunks);
            end.turn.suppress == "" && end.emitted == tr.emitted + Concat(chunks)
  {
    hide Take;
    if chunks == [] {
      assert tr.emitted + "" == tr.emitted;
    } else {
      var before, chunk := chunks[..|chunks| - 1], chunks[|chunks| - 1];
      FreeChunks(tr, received, before);
      TakeFreely(TakeChunks(tr, received, before), chunk, received + Concat(before) + chunk);
      AppendText(tr.emitted, Concat(before), chunk);
    }
  }

  /** State after late chunks of a block whose tail was sent ahead: still inside the block, or past its end. */
  predicate Reconciled(tr: Trace, start: string, block: string, received: string) {
    if received <= block
    then tr.turn.suppress == block[|received|..] && tr.turn.thinking == block && tr.emitted == start + block
    else block <= received && tr.turn.suppress == "" && tr.emitted == start + received
  }

  lemma OffsetInside(pending: string, delta: string)
    requires Comparable(pending, delta)
    ensures delta <= pending ==> Offset(pending, delta) == ("", pending[|delta|..])
    ensures !(delta <= pending) ==> Offset(pending, delta) == (delta[|pending|..], "")
  {
    var n := if delta <= pending then |delta| else |pending|;
    CommonIs(pending, delta, n);
    hide Common;
    assert delta[|delta|..] == "" && pending[|pending|..] == "" && pending[0..] == pending && delta[0..] == delta;
  }

  lemma SuffixOrder(received: string, chunk: string, block: string)
    requires received <= block
    ensures Comparable(received + chunk, block) <==> Comparable(chunk, block[|received|..])
    ensures received + chunk <= block <==> chunk <= block[|received|..]
    ensures received + chunk <= block ==> block[|received|..][|chunk|..] == block[|received + chunk|..]
    ensures block <= received + chunk ==> block + chunk[|block| - |received|..] == received + chunk
  {
    var rest := block[|received|..];
    assert block == received + rest;
    if chunk <= rest { assert block == received + chunk + rest[|chunk|..]; }
    if received + chunk <= block {
      assert block == received + chunk + block[|received + chunk|..];
      assert rest == chunk + block[|received + chunk|..];
    }
    if rest <= chunk {
      assert chunk == rest + chunk[|block| - |received|..];
      assert received + chunk == block + chunk[|block| - |received|..];
    }
    if block <= received + chunk {
      assert received + chunk == block + (received + chunk)[|block|..];
      assert chunk == (received + chunk)[|received|..] == rest + (received + chunk)[|block|..];
    }
  }

  lemma LateChunk(tr: Trace, start: string, block: string, received: string, chunk: string)
    requires Reconciled(tr, start, block, received) && chunk != "" && Comparable(received + chunk, block)
    ensures Reconciled(Take(tr, ThinkingDelta(Some(chunk), Some(received + chunk))), start, block, received + chunk)
  {
    hide Take, Offset;
    var running := received + chunk;
    if received <= block {
      SuffixOrder(received, chunk, block);
      TakeDelta(tr, chunk, running);
      OffsetInside(block[|received|..], chunk);
      hide Comparable;
      if running <= block {
        assert start + block + "" == start + block;
      } else {
        AppendText(start, block, chunk[|block| - |received|..]);
      }
    } else {
      TakeFreely(tr, chunk, running);
      LongerIsNoPrefix(received, chunk, block);
      AppendText(start, received, chunk);
    }
  }

  lemma LongerIsNoPrefix(received: string, chunk: string, block: string)
    requires block <= received && !(received <= block)
    ensures block <= received + chunk && !(received + chunk <= block)
  {}

  lemma PrefixComparable(a: string, b: string, block: string)
    requires Comparable(a + b, block)
    ensures Comparable(a, block)
  {
    if a + b <= block {
      assert block == a + (b + block[|a + b|..]);
    } else if |a| <= |block| {
      assert block == (a + b)[..|block|];
      assert a == block[..|a|];
    } else {
      assert block == (a + b)[..|block|] == a[..|block|];
    }
  }

  lemma {:induction false} LateChunks(tr: Trace, start: string, block: string, received: string, chunks: seq<string>)
    requires Reconciled(tr, start, block, received) && NonEmpty(chunks)
    requires Comparable(received + Concat(chunks), block)
    ensures Reconciled(TakeChunks(tr, received, chunks), start, block, received + Concat(chunks))
  {
    if chunks == [] {
      assert received + "" == received;
    } else {
      var before, chunk := chunks[..|chunks| - 1], chunks[|chunks| - 1];
      assert received + Concat(chunks) == received + Concat(before) + chunk;
      PrefixComparable(received + Concat(before), chunk, block);
      LateChunks(tr, start, block, received, before);
      LateChunk(TakeChunks(tr, received, before), start, block, received + Concat(before), chunk);
    }
  }

  /** Nothing emitted is ever taken back. */
  lemma {:induction false} EmittedGrows(tr: Trace, received: string, chunks: seq<string>)
    ensures tr.emitted <= TakeChunks(tr, received, chunks).emitted
  {
    if chunks == [] {
    } else {
      EmittedGrows(tr, received, chunks[..|chunks| - 1]);
    }
  }

  lemma Balance(received: string, start: string, tr: Trace, block: string)
    requires Reconciled(tr, start, block, received)
    ensures tr.emitted == start + received + tr.turn.suppress
  {
    if received <= block {
      assert block == received + block[|received|..];
      assert start + block == start + received + block[|received|..];
    } else {
      assert start + received + "" == start + received;
    }
  }

  /**
   One thinking block: chunks, then the whole block, then late chunks cut differently or running past it.
   What was emitted is what was received plus the pending tail, exactly when the late text agrees with
   the block as far as both go (there is nothing to agree on when no tail had to be sent ahead).
   */
  lemma BlockReconciledExactly(begin: Trace, early: seq<string>, block: string, late: seq<string>)
    requires begin.turn.suppress == "" && early != [] && NonEmpty(early) && NonEmpty(late) && block != ""
    ensures var received := Concat(early) + Concat(late);
            var end := TakeChunks(Take(TakeChunks(begin, "", early), Thinking(Some(block))), Concat(early), late);
            (end.emitted == begin.emitted + received + end.turn.suppress
             <==> (Concat(early) < block ==> Comparable(received, block)))
            && (Concat(early) < block && block <= received ==> end.emitted == begin.emitted + received)
  {
    var a := TakeChunks(begin, "", early);
    EarlyChunks(begin, early);
    var b := Take(a, Thinking(Some(block)));
    TakeBlock(a, block);
    var first := Concat(early);
    hide Take;
    if first < block {
      AppendText(begin.emitted, first, block[|first|..]);
      assert first + block[|first|..] == block;
      BlockAhead(begin, b, first, block, late);
    } else {
      assert begin.emitted + first + "" == begin.emitted + first;
      FreeChunks(b, first, late);
      AppendText(begin.emitted, first, Concat(late));
      assert begin.emitted + (first + Concat(late)) + "" == begin.emitted + (first + Concat(late));
    }
  }

  lemma BlockAhead(begin: Trace, b: Trace, first: string, block: string, late: seq<string>)
    requires Reconciled(b, begin.emitted, block, first) && first <= block && NonEmpty(late)
    ensures var received := first + Concat(late);
            var end := TakeChunks(b, first, late);
            (end.emitted == begin.emitted + received + end.turn.suppress <==> Comparable(received, block))
            && (block <= received ==> end.emitted == begin.emitted + received)
  {
    var received := first + Concat(late);
    var end := TakeChunks(b, first, late);
    hide Take, TakeChunks, Concat;
    if Comparable(received, block) {
      LateChunks(b, begin.emitted, block, first, late);
      Balance(received, begin.emitted, end, block);
      assert block <= received && received <= block ==> block == received;
    } else {
      EmittedGrows(b, first, late);
      if end.emitted == begin.emitted + received + end.turn.suppress {
        BothPrefixes(begin.emitted, block, received, end.turn.suppress, end.emitted);
      }
    }
  }

  lemma BothPrefixes(start: string, block: string, received: string, rest: string, whole: string)
    requires start + block <= whole && whole == start + received + rest
    ensures Comparable(block, received)
  {
    assert whole == start + (received + rest);
    assert received + rest == whole[|start|..];
    assert block == whole[|start|..][..|block|] by { assert whole[..|start + block|] == start + block; }
    PrefixComparable(received, rest, received + rest);
    if |block| <= |received| {
      assert block == (received + rest)[..|block|] == received[..|block|];
    } else {
      assert received == (received + rest)[..|received|] == block[..|received|];
    }
  }

  /** A second whole block keeps the balance exactly when no tail is pending: it forgets the pending one. */
  lemma RepeatedBlockExactly(tr: Trace, received: string, block: string)
    requires tr.emitted == received + tr.turn.suppress && block != ""
    ensures var after := Take(tr, Thinking(Some(block)));
            after.emitted == received + after.turn.suppress <==> tr.turn.suppress == ""
  {
    TakeBlock(tr, block);
  }

  /** One chunk, the whole block twice, and the rest of the block late: the consumer gets the rest twice. */
  lemma RepeatedBlockRepeatsTail(chunk: string, rest: string)
    requires chunk != "" && rest != ""
    ensures var a := TakeChunks(Trace(Turn("", "", ""), ""), "", [chunk]);
            var b := Take(Take(a, Thinking(Some(chunk + rest))), Thinking(Some(chunk + rest)));
            TakeChunks(b, chunk, [rest]).emitted == chunk + rest + rest
  {
    var begin := Trace(Turn("", "", ""), "");
    EarlyChunks(begin, [chunk]);
    ConcatOne(chunk);
    ConcatOne(rest);
    hide Take, TakeChunks, Concat;
    var a := TakeChunks(begin, "", [chunk]);
    assert "" + chunk == chunk;
    TakeBlock(a, chunk + rest);
    var one := Take(a, Thinking(Some(chunk + rest)));
    assert (chunk + rest)[|chunk|..] == rest;
    TakeBlock(one, chunk + rest);
    var two := Take(one, Thinking(Some(chunk + rest)));
    assert chunk + rest + "" == chunk + rest;
    FreeChunks(two, chunk, [rest]);
  }

  lemma ConcatOne(chunk: string)
    ensures Concat([chunk]) == chunk
  {
    assert [chunk][..0] == [];
    assert "" + chunk == chunk;
  }

  /** Chunk "a", block "ab" twice, late chunk "b": the consumer assembles "abb". */
  lemma RepeatedBlockDuplicatesText()
    ensures var a := TakeChunks(Trace(Turn("", "", ""), ""), "", ["a"]);
            var b := Take(Take(a, Thinking(Some("ab"))), Thinking(Some("ab")));
            TakeChunks(b, "a", ["b"]).emitted == "abb"
  {
    hide Take, TakeChunks;
    assert "a" + "b" == "ab" && "ab" + "b" == "abb";
    RepeatedBlockRepeatsTail("a", "b");
  }

  // ---- the block after a stale tail ----

  /** A stale tail looks like the continuation that this chunk, the first of a block, begins. */
  predicate Mistaken(t: Turn, chunk: string) {
    t.suppress != "" && SameBlock(t, Some(chunk)) && chunk != "" && t.suppress[0] == chunk[0]
  }

  lemma ConcatAppend(a: seq<string>, chunk: string)
    ensures Concat(a + [chunk]) == Concat(a) + chunk
  {
    assert (a + [chunk])[..|a|] == a;
  }

  lemma TakeLastChunk(tr: Trace, received: string, a: seq<string>, chunk: string)
    ensures TakeChunks(tr, received, a + [chunk]) ==
            Take(TakeChunks(tr, received, a), ThinkingDelta(Some(chunk), Some(received + Concat(a) + chunk)))
  {
    assert (a + [chunk])[..|a|] == a;
    hide Take;
  }

  /** Chunks in two goes. */
  lemma {:induction false} TakeChunksSplit(tr: Trace, received: string, a: seq<string>, b: seq<string>)
    ensures TakeChunks(tr, received, a + b) == TakeChunks(TakeChunks(tr, received, a), received + Concat(a), b)
    ensures Concat(a + b) == Concat(a) + Concat(b)
    decreases |b|
  {
    hide Take;
    if b == [] {
      assert a + b == a && Concat(a) + "" == Concat(a);
    } else {
      var before, chunk := b[..|b| - 1], b[|b| - 1];
      hide TakeChunks, Concat;
      TakeChunksSplit(tr, received, a, before);
      assert a + b == a + before + [chunk] && b == before + [chunk];
      ConcatAppend(a + before, chunk);
      ConcatAppend(before, chunk);
      TakeLastChunk(tr, received, a + before, chunk);
      TakeLastChunk(TakeChunks(tr, received, a), received + Concat(a), before, chunk);
      AppendText(Concat(a), Concat(before), chunk);
      AppendText(received, Concat(a), Concat(before));
    }
  }

  lemma TakeFirst(tr: Trace, chunk: string)
    requires chunk != ""
    ensures var one := TakeChunks(tr, "", [chunk]);
            && (!Mistaken(tr.turn, chunk) ==> one == Trace(Turn(tr.turn.text, chunk, ""), tr.emitted + chunk))
            && (Mistaken(tr.turn, chunk) ==> |one.emitted| < |tr.emitted| + |chunk|)
  {
    assert [chunk][..0] == [] && Concat([]) == "" && "" + "" + chunk == chunk;
    TakeDelta(tr, chunk, chunk);
    hide Take, SameBlock;
  }

  /** Chunks add at most their own length. */
  lemma {:induction false} ChunksAtMost(tr: Trace, received: string, chunks: seq<string>)
    requires NonEmpty(chunks)
    ensures |TakeChunks(tr, received, chunks).emitted| <= |tr.emitted| + |Concat(chunks)|
    decreases |chunks|
  {
    if chunks == [] {
    } else {
      var before, chunk := chunks[..|chunks| - 1], chunks[|chunks| - 1];
      ChunksAtMost(tr, received, before);
      TakeDelta(TakeChunks(tr, received, before), chunk, received + Concat(before) + chunk);
      hide Take, SameBlock, Concat;
    }
  }

  /** The state as the next block should find it: no tail pending. */
  function Cleared(tr: Trace): Trace {
    Trace(tr.turn.(suppress := ""), tr.emitted)
  }

  /**
   All the chunks of a following block go out, and the hook goes on as if no tail had been pending, if and only if the
   block's first chunk is not mistaken for the continuation of a stale tail.
   */
  lemma NextBlockIntactExactly(tr: Trace, chunks: seq<string>)
    requires chunks != [] && NonEmpty(chunks)
    ensures TakeChunks(tr, "", chunks).emitted == tr.emitted + Concat(chunks) <==> !Mistaken(tr.turn, chunks[0])
    ensures !Mistaken(tr.turn, chunks[0]) ==> TakeChunks(tr, "", chunks) == TakeChunks(Cleared(tr), "", chunks)
  {
    var first, rest := chunks[0], chunks[1..];
    assert chunks == [first] + rest;
    TakeFirst(tr, first);
    TakeChunksSplit(tr, "", [first], rest);
    ConcatOne(first);
    assert NonEmpty([first]) && NonEmpty(rest);
    if Mistaken(tr.turn, first) {
      ChunksAtMost(TakeChunks(tr, "", [first]), "" + first, rest);
      hide Take, TakeChunks, Concat, Mistaken;
    } else {
      TakeFirst(Cleared(tr), first);
      TakeChunksSplit(Cleared(tr), "", [first], rest);
      hide Take, TakeChunks, Concat, NonEmpty;
      FreeChunks(TakeChunks(tr, "", [first]), "" + first, rest);
      AppendText(tr.emitted, first, Concat(rest));
    }
  }

  /** A whole block after a stale tail: its chunks, the block, late chunks. It is reconciled like any other block,
      unless its first chunk is mistaken for the tail. */
  lemma NextBlockReconciled(tr: Trace, early: seq<string>, block: string, late: seq<string>)
    requires early != [] && NonEmpty(early) && NonEmpty(late) && block != "" && !Mistaken(tr.turn, early[0])
    ensures var received := Concat(early) + Concat(late);
            var end := TakeChunks(Take(TakeChunks(tr, "", early), Thinking(Some(block))), Concat(early), late);
            end.emitted == tr.emitted + received + end.turn.suppress
            <==> (Concat(early) < block ==> Comparable(received, block))
  {
    hide *;
    NextBlockIntactExactly(tr, early);
    assert Cleared(tr).turn.suppress == "" && Cleared(tr).emitted == tr.emitted by { ClearedIs(tr); }
    BlockReconciledExactly(Cleared(tr), early, block, late);
  }

  lemma ClearedIs(tr: Trace)
    ensures Cleared(tr).turn.suppress == "" && Cleared(tr).emitted == tr.emitted
  {}

  /** A turn that really gets there: a chunk, its whole block, and nothing late; then a block that begins with the text
      of the tail, whose first chunk is swallowed whole. */
  lemma NextBlockSwallowed(chunk: string, rest: string)
    requires chunk != "" && rest != "" && rest <= chunk + rest
    ensures var a := TakeChunks(Trace(Turn("", "", ""), ""), "", [chunk]);
            var b := Take(a, Thinking(Some(chunk + rest)));
            Mistaken(b.turn, rest) && b.emitted == chunk + rest
            && TakeChunks(b, "", [rest]).emitted == chunk + rest
  {
    var begin := Trace(Turn("", "", ""), "");
    EarlyChunks(begin, [chunk]);
    ConcatOne(chunk);
    hide Take, TakeChunks, Concat;
    assert "" + chunk == chunk;
    TakeBlock(TakeChunks(begin, "", [chunk]), chunk + rest);
    assert (chunk + rest)[|chunk|..] == rest;
    SwallowsAll(Trace(Turn("", chunk + rest, rest), chunk + rest), rest);
  }

  lemma SwallowsAll(tr: Trace, chunk: string)
    requires chunk != "" && tr.turn.suppress == chunk && chunk <= tr.turn.thinking
    ensures TakeChunks(tr, "", [chunk]).emitted == tr.emitted
  {
    assert [chunk][..0] == [] && Concat([]) == "" && "" + "" + chunk == chunk;
    TakeDelta(tr, chunk, chunk);
    OffsetInside(chunk, chunk);
    hide Take, Offset;
    assert tr.emitted + "" == tr.emitted;
  }

  /** Chunk "a", block "aa", then a new block's chunk "a": the consumer has "aa" of the two blocks' "aaa". */
  lemma NextBlockLosesItsStart()
    ensures var a := TakeChunks(Trace(Turn("", "", ""), ""), "", ["a"]);
            TakeChunks(Take(a, Thinking(Some("aa"))), "", ["a"]).emitted == "aa"
  {
    hide Take, TakeChunks;
    assert "a" + "a" == "aa" && "a" <= "aa";
    NextBlockSwallowed("a", "a");
  }

  // ---- message text ----

  predicate Silent(e: Event) {
    !e.MessageDelta?
  }

  lemma SilentText(events: seq<Event>)
    requires forall i | 0 <= i < |events| :: Silent(events[i])
    ensures SentText(events) == ""
  {
    if events != [] {
      SilentText(events[..|events| - 1]);
    }
  }

  lemma DeltaText(e: Event, rest: seq<Event>)
    requires e.MessageDelta? && forall i | 0 <= i < |rest| :: Silent(rest[i])
    ensures SentText([e] + rest) == Or(e.delta)
  {
    SilentText(rest);
    SentTextConcat([e], rest);
    assert [e][..0] == [];
    assert "" + Or(e.delta) == Or(e.delta) == Or(e.delta) + "";
  }

  lemma CompletionText(t: Turn, e: Event)
    requires e.MessageCompleted?
    ensures OnMapped(t, e).0.text == t.text + SentText(OnMapped(t, e).1)
  {
    var out := OnMapped(t, e).1;
    assert t.text + "" == t.text;
    if e.text.Some? && t.text < e.text.value {
      DeltaText(out[0], [e]);
      assert out == [out[0]] + [e];
    } else {
      SilentText(out);
    }
    hide SentText;
  }

  lemma HookText(t: Turn, e: Event)
    ensures OnMapped(t, e).0.text == t.text + SentText(OnMapped(t, e).1)
  {
    assert t.text + "" == t.text;
    if e.MessageDelta? {
      DeltaText(e, []);
      assert [e] + [] == [e];
    } else if e.MessageCompleted? {
      CompletionText(t, e);
    } else {
      SilentText(OnMapped(t, e).1);
    }
    hide SentText, Offset;
  }

  /** The accumulator is the concatenation of the message deltas that went out. */
  lemma {:induction false} AccumulatorIsSentText(d: Detector, events: seq<Event>)
    ensures var p := Pipeline(d, OnMapped, Turn("", "", ""), events); p.state.text == SentText(p.mid)
  {
    if events == [] {
    } else {
      var p, e := Pipeline(d, OnMapped, Turn("", "", ""), events[..|events| - 1]), events[|events| - 1];
      AccumulatorIsSentText(d, events[..|events| - 1]);
      HookText(p.state, e);
      ArtifactsAreSilent(d, p.cache, e);
      var hooked, artifacts := OnMapped(p.state, e), OnArtifact(d, p.cache, e);
      hide OnMapped, OnArtifact, SentText;
      SentTextConcat(p.mid, hooked.1 + artifacts.1);
      SentTextConcat(hooked.1, artifacts.1);
      assert SentText(hooked.1) + "" == SentText(hooked.1);
    }
  }

  /** Apart from thinking, the hook makes up nothing but the missing end of a completed message. */
  lemma HookMakes(t: Turn, e: Event)
    requires !e.Thinking? && !e.ThinkingDelta?
    ensures OnMapped(t, e).1 ==
            (if e.MessageCompleted? && e.text.Some? && t.text < e.text.value
             then [MessageDelta(Some(e.text.value[|t.text|..]))] else []) + [e]
  {
    assert [] + [e] == [e];
  }

  /** What each event that is no thinking adds to a turn: itself and the report of its write, behind the text by which
      a completed message extends what was sent. */
  lemma EventExactly(d: Detector, events: seq<Event>, e: Event)
    requires !e.Thinking? && !e.ThinkingDelta?
    ensures var p := Pipeline(d, OnMapped, Turn("", "", ""), events);
            var sent := SentText(p.mid);
            Pipeline(d, OnMapped, Turn("", "", ""), events + [e]).mid ==
            p.mid
            + (if e.MessageCompleted? && e.text.Some? && sent < e.text.value
               then [MessageDelta(Some(e.text.value[|sent|..]))] else [])
            + [e] + OnArtifact(d, p.cache, e).1
  {
    AccumulatorIsSentText(d, events);
    var p := Pipeline(d, OnMapped, Turn("", "", ""), events);
    FeedStep(d, OnMapped, Turn("", "", ""), events, e);
    HookMakes(p.state, e);
    hide Pipeline, SentText, OnMapped, OnArtifact;
    Regrouped(p.mid, OnMapped(p.state, e).1[..|OnMapped(p.state, e).1| - 1], e, OnArtifact(d, p.cache, e).1);
  }

  lemma Regrouped(mid: seq<Event>, made: seq<Event>, e: Event, rest: seq<Event>)
    ensures mid + (made + [e] + rest) == mid + made + [e] + rest
  {}

  /** A thinking block always goes out, and only its missing tail ahead of it; one without text changes nothing. */
  lemma BlockForwarded(t: Turn, e: Event)
    requires e.Thinking?
    ensures var (after, out) := OnMapped(t, e);
            if e.thinking.None? || e.thinking.value == "" then after == t && out == [e]
            else
              var block := e.thinking.value;
              && after.text == t.text && after.thinking == block
              && (if t.thinking != "" && t.thinking < block then
                    after.suppress == block[|t.thinking|..]
                    && out == [ThinkingDelta(Some(block[|t.thinking|..]), Some(block)), e]
                  else after.suppress == "" && out == [e])
  {}

  /** The longest common prefix is left out: n characters of the part and of the pending tail agree, and no more. */
  predicate Agrees(a: string, b: string, n: nat) {
    n <= |a| && n <= |b| && a[..n] == b[..n] && (n < |a| && n < |b| ==> a[n] != b[n])
  }

  /** Whether a delta belongs to the block whose tail is pending. */
  predicate Belongs(t: Turn, running: Option<string>) {
    running.Some? && (running.value <= t.thinking || t.thinking <= running.value)
  }

  /**
   A thinking delta without text is dropped.  Otherwise what it shares with the pending tail of its own block is cut
   off both, a tail of which it shares nothing, or of another block, is given up, and what is left of the delta, if
   anything, goes out with the same running text and is added to the thinking.
   */
  lemma DeltaForwarded(t: Turn, e: Event) returns (n: nat, pending: string)
    requires e.ThinkingDelta?
    ensures var (after, out) := OnMapped(t, e);
            after.text == t.text
            && (e.part.None? || e.part.value == "" ==> after == t && out == [])
    ensures e.part.Some? && e.part.value != "" ==>
              var (after, out), part := OnMapped(t, e), e.part.value;
              && pending == (if Belongs(t, e.running) then t.suppress else "") && Agrees(pending, part, n)
              && after.suppress == (if n == 0 then "" else pending[n..])
              && (if n == |part| then out == [] && after.thinking == t.thinking
                  else out == [ThinkingDelta(Some(part[n..]), e.running)]
                       && after.thinking == if e.running.Some? && e.running.value != "" then e.running.value
                                            else t.thinking + part[n..])
  {
    pending := if Belongs(t, e.running) then t.suppress else "";
    n := if e.part.Some? then Common(pending, e.part.value) else 0;
  }

  lemma CompletionFed(d: Detector, mapped: seq<Event>, full: string)
    ensures var e := MessageCompleted(Some(full));
            Dedup(mapped + [e]) == Dedup(mapped) + [e]
            && Pipeline(d, OnMapped, Turn("", "", ""), Dedup(mapped + [e])).state
               == OnMapped(Pipeline(d, OnMapped, Turn("", "", ""), Dedup(mapped)).state, e).0
  {
    var e := MessageCompleted(Some(full));
    assert mapped + [e] == (mapped + [e])[..|mapped| + 1] && (mapped + [e])[..|mapped|] == mapped;
    DedupStep(mapped + [e], |mapped|);
    assert !StartedEarlier(mapped, e);
    FeedStep(d, OnMapped, Turn("", "", ""), Dedup(mapped), e);
    hide Dedup, Pipeline, OnMapped, OnArtifact;
  }

  /** Once a completed message extends what was streamed, `send_message` over the output so far is that message. */
  lemma CompletionRepairsTail(d: Detector, mapped: seq<Event>, full: string)
    requires var p := Pipeline(d, OnMapped, Turn("", "", ""), Dedup(mapped)); SentText(p.mid) <= full
    ensures var q := Pipeline(d, OnMapped, Turn("", "", ""), Dedup(mapped + [MessageCompleted(Some(full))]));
            SentText(TurnOutput(q.mid, true)) == full
  {
    var e := MessageCompleted(Some(full));
    CompletionFed(d, mapped, full);
    hide Pipeline, Dedup;
    AccumulatorIsSentText(d, Dedup(mapped));
    AccumulatorIsSentText(d, Dedup(mapped + [e]));
    var p := Pipeline(d, OnMapped, Turn("", "", ""), Dedup(mapped));
    var q := Pipeline(d, OnMapped, Turn("", "", ""), Dedup(mapped + [e]));
    hide SentText, TurnOutput;
    OutputText(q.mid, true);
    assert OnMapped(p.state, e).0.text == full;
  }

  /** The hook satisfies what the turn-level results ask of a hook. */
  lemma HookIsPassive()
    ensures RunTurnProofs.Passive(OnMapped)
  {
    forall t: Turn, e: Event, o: Event | o in OnMapped(t, e).1
      ensures o.ArtifactStarted? || o.ArtifactCompleted? || o.ToolStarted? ==> o == e
    {
      hide Offset;
    }
  }

  lemma TraceBehind(x: Event, e: Event)
    requires !ArtifactTrace.OfTools(x)
    ensures ArtifactTrace.Trace([x, e]) == ArtifactTrace.Trace([e]) && ArtifactTrace.Trace([x]) == []
  {
    ArtifactTrace.TraceOne(x);
    ArtifactTrace.TraceConcat([x], [e]);
    hide ArtifactTrace.Trace;
    assert [x] + [e] == [x, e];
    assert [] + ArtifactTrace.Trace([e]) == ArtifactTrace.Trace([e]);
  }

  lemma HookShape(t: Turn, e: Event)
    ensures var out := OnMapped(t, e).1;
            || out == [e] || (out == [] && e.ThinkingDelta?)
            || (|out| == 1 && e.ThinkingDelta? && out[0].ThinkingDelta?)
            || (|out| == 2 && out[1] == e && (out[0].MessageDelta? || out[0].ThinkingDelta?))
  {
    hide Offset;
  }

  lemma HookTrace(t: Turn, e: Event)
    ensures ArtifactTrace.Trace(OnMapped(t, e).1) == ArtifactTrace.Trace([e])
  {
    HookShape(t, e);
    ArtifactTrace.TraceOne(e);
    hide OnMapped, ArtifactTrace.Trace;
    var out := OnMapped(t, e).1;
    if |out| == 2 {
      TraceBehind(out[0], e);
      assert out == [out[0], e];
    } else if |out| == 1 {
      ArtifactTrace.TraceOne(out[0]);
      assert out == [out[0]];
    }
  }

  /** It leaves tool events alone, so its turns are traced as ArtifactTrace.OutputTraced says. */
  lemma HookIsTransparent()
    ensures ArtifactTrace.Transparent(OnMapped)
  {
    forall t: Turn, e: Event ensures ArtifactTrace.Trace(OnMapped(t, e).1) == ArtifactTrace.Trace([e]) {
      HookTrace(t, e);
    }
  }
}
