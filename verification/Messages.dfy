/** The two plain-text consumers of a turn: the whole reply at once, or chunk by chunk. */
module Messages {
  import opened Text
  import opened Usage
  import opened TurnEvents
  import opened RunTurn
  import RunTurnProofs

  function Concat(chunks: seq<string>): string {
    if chunks == [] then "" else Concat(chunks[..|chunks| - 1]) + chunks[|chunks| - 1]
  }

  /** The text of all message deltas, in order. */
  function SentText(events: seq<Event>): string {
    if events == [] then ""
    else
      var last := events[|events| - 1];
      SentText(events[..|events| - 1]) + if last.MessageDelta? then Or(last.delta) else ""
  }

  method SendMessage(events: seq<Event>) returns (text: string)
    ensures text == SentText(events)
  {
    text := "";
    for i := 0 to |events|
      invariant text == SentText(events[..i])
    {
      assert events[..i + 1][..i] == events[..i];
      if events[i].MessageDelta? && events[i].delta.Some? {
        text := text + events[i].delta.value;
      }
    }
    assert events[..|events|] == events;
  }

  predicate EndsStream(e: Event) {
    e.MessageCompleted? || e.TurnCompleted?
  }

  datatype Chunk = Delta(text: string) | Done

  /** Index of the first event that ends the stream, or |events|. */
  function EndIndex(events: seq<Event>): (i: nat)
    ensures i <= |events|
    ensures i < |events| ==> EndsStream(events[i])
    ensures forall j | 0 <= j < i :: !EndsStream(events[j])
  {
    if events == [] || EndsStream(events[0]) then 0 else 1 + EndIndex(events[1..])
  }

  function ChunkText(chunks: seq<Chunk>): string {
    if chunks == [] then ""
    else
      var last := chunks[|chunks| - 1];
      ChunkText(chunks[..|chunks| - 1]) + if last.Delta? then last.text else ""
  }

  lemma SentNothing()
    ensures SentText([]) == "" && ChunkText([]) == ""
  {}

  lemma SentNext(events: seq<Event>, i: nat)
    requires i < |events|
    ensures SentText(events[..i + 1]) ==
            if events[i].MessageDelta? && Or(events[i].delta) != "" then SentText(events[..i]) + Or(events[i].delta)
            else SentText(events[..i])
  {
    assert events[..i + 1][..i] == events[..i];
    assert SentText(events[..i]) + "" == SentText(events[..i]);
  }

  lemma ChunkNext(chunks: seq<Chunk>, c: Chunk)
    ensures ChunkText(chunks + [c]) == if c.Delta? then ChunkText(chunks) + c.text else ChunkText(chunks)
  {
    assert (chunks + [c])[..|chunks|] == chunks;
    assert ChunkText(chunks) + "" == ChunkText(chunks);
  }

  predicate Sends(e: Event) {
    e.MessageDelta? && e.delta.Some? && e.delta.value != ""
  }

  /** One chunk for each delta with text among the first n events, in order. */
  ghost predicate ChunksOf(events: seq<Event>, n: nat, at: seq<nat>, chunks: seq<Chunk>) {
    && |chunks| == |at| && Rising(at)
    && (forall k: nat :: k in at <==> k < n && k < |events| && Sends(events[k]))
    && forall k | 0 <= k < |at| :: at[k] < |events| && events[at[k]].MessageDelta?
                                    && chunks[k] == Delta(Or(events[at[k]].delta))
  }

  lemma ChunksNext(events: seq<Event>, n: nat, at: seq<nat>, chunks: seq<Chunk>)
    requires n < |events| && ChunksOf(events, n, at, chunks)
    ensures !Sends(events[n]) ==> ChunksOf(events, n + 1, at, chunks)
    ensures Sends(events[n]) ==> ChunksOf(events, n + 1, at + [n], chunks + [Delta(Or(events[n].delta))])
  {
    hide Rising;
    RisingMore(at, n);
  }

  /** One chunk for each delta with text up to the first end, and `done` last if there is one; the chunks' text is that
      of those events. */
  method StreamMessage(events: seq<Event>) returns (chunks: seq<Chunk>)
    ensures var end := EndIndex(events);
            exists at, sent :: ChunksOf(events, end, at, sent)
                               && chunks == if end < |events| then sent + [Done] else sent
    ensures ChunkText(chunks) == SentText(events[..EndIndex(events)])
  {
    chunks := [];
    ghost var at: seq<nat> := [];
    hide SentText, ChunkText, ChunksOf, Sends;
    SentNothing();
    assert ChunksOf(events, 0, at, chunks) by { NoChunks(events); }
    for i := 0 to |events|
      invariant i <= EndIndex(events)
      invariant ChunkText(chunks) == SentText(events[..i])
      invariant ChunksOf(events, i, at, chunks)
    {
      SentNext(events, i);
      ChunksNext(events, i, at, chunks);
      var e := events[i];
      assert Sends(e) <==> e.MessageDelta? && Or(e.delta) != "" by { SendsIs(e); }
      if e.MessageDelta? {
        if e.delta.Some? && e.delta.value != "" {
          ChunkNext(chunks, Delta(e.delta.value));
          chunks, at := chunks + [Delta(e.delta.value)], at + [i];
        }
      } else if EndsStream(e) {
        assert EndIndex(events) == i;
        ChunkNext(chunks, Done);
        return chunks + [Done];
      }
    }
    assert EndIndex(events) == |events| && events[..|events|] == events;
  }

  lemma SendsIs(e: Event)
    ensures Sends(e) <==> e.MessageDelta? && Or(e.delta) != ""
  {}

  lemma NoChunks(events: seq<Event>)
    ensures ChunksOf(events, 0, [], [])
  {}

  /** The text of one event; that of more events is their texts joined (SentTextConcat). */
  lemma SentOne(e: Event)
    ensures SentText([e]) == if e.MessageDelta? && e.delta.Some? then e.delta.value else ""
    ensures SentText([]) == ""
  {
    assert [e][..0] == [];
  }

  lemma {:induction false} SentTextConcat(a: seq<Event>, b: seq<Event>)
    ensures SentText(a + b) == SentText(a) + SentText(b)
  {
    if b == [] {
      assert a + b == a;
    } else {
      assert (a + b)[..|a + b| - 1] == a + b[..|b| - 1];
      SentTextConcat(a, b[..|b| - 1]);
    }
  }

  /** Streaming yields a prefix of the reply, and all of it exactly when no text follows the first end. */
  lemma StreamIsPrefixOfReply(events: seq<Event>)
    ensures var streamed := SentText(events[..EndIndex(events)]);
            streamed <= SentText(events)
            && (streamed == SentText(events) <==> SentText(events[EndIndex(events)..]) == "")
  {
    var i := EndIndex(events);
    assert events == events[..i] + events[i..];
    SentTextConcat(events[..i], events[i..]);
  }

  lemma {:induction false} EraseKeepsText(events: seq<Event>)
    ensures SentText(Erase(events)) == SentText(events)
  {
    if events == [] {
    } else {
      var before, last := events[..|events| - 1], events[|events| - 1];
      EraseKeepsText(before);
      EraseStep(before, last);
      assert events == before + [last];
      SentTextConcat(Erase(before), Kept(last));
      SentTextConcat(before, [last]);
      assert [last][..0] == [];
    }
  }

  /** Usage placement does not touch the reply. */
  lemma OutputText(mid: seq<Event>, failed: bool)
    ensures SentText(TurnOutput(mid, failed)) == SentText(mid)
  {
    EraseKeepsText(mid);
    EraseKeepsText(TurnOutput(mid, failed));
    RunTurnProofs.ErasedOutput(mid, failed);
  }

  lemma ArtifactsAreSilent(d: Detector, cache: ArgumentCache, e: Event)
    ensures SentText(OnArtifact(d, cache, e).1) == ""
  {
    hide BuildArtifact, ExtractWriteArguments;
    var out := OnArtifact(d, cache, e).1;
    if out != [] { assert out[..0] == []; }
  }
}
