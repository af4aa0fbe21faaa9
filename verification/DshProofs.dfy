/** The shape every dsh turn has, however the upstream stream is malformed and wherever the client fails. */
module DshProofs {
  import opened Text
  import opened Usage
  import opened TurnEvents
  import opened RunTurn
  import RunTurnProofs
  import ArtifactTrace
  import opened Messages
  import opened Dsh

  ghost predicate CompletedIn(events: seq<Event>) {
    exists e | e in events :: e.MessageCompleted?
  }

  /** Every `turn.completed` with a non-error reason has a `message.completed` before it. */
  ghost predicate Closed(events: seq<Event>) {
    forall i | 0 <= i < |events| && events[i].TurnCompleted? && events[i].reason != "error" :: CompletedIn(events[..i])
  }

  lemma ClosedSnoc(before: seq<Event>, last: Event)
    ensures Closed(before + [last]) <==>
            Closed(before) && (last.TurnCompleted? && last.reason != "error" ==> CompletedIn(before))
    ensures CompletedIn(before + [last]) <==> CompletedIn(before) || last.MessageCompleted?
  {
    var all := before + [last];
    assert forall i | 0 <= i <= |before| :: all[..i] == before[..i];
    assert all[..|before|] == before && last in all;
    assert forall i | 0 <= i < |before| :: all[i] == before[i];
    assert forall e | e in before :: e in all;
  }

  /** The hook's state in terms of what it has let out. */
  ghost predicate Tracks(t: Turn, mid: seq<Event>) {
    && (t.started <==> mid != []) && (mid != [] ==> mid[0] == MessageStarted)
    && (t.completed <==> CompletedIn(mid)) && Closed(mid) && t.text == SentText(mid)
  }

  lemma TextOne(e: Event)
    ensures SentText([e]) == if e.MessageDelta? then Or(e.delta) else ""
  {
    assert [e][..0] == [];
  }

  lemma SnocTracks(t: Turn, mid: seq<Event>, e: Event, t': Turn)
    requires Tracks(t, mid) && (mid == [] ==> e == MessageStarted)
    requires e.TurnCompleted? && e.reason != "error" ==> t.completed
    requires t' == Turn(true, t.completed || e.MessageCompleted?, t.text + if e.MessageDelta? then Or(e.delta) else "")
    ensures Tracks(t', mid + [e])
  {
    ClosedSnoc(mid, e);
    SentTextConcat(mid, [e]);
    TextOne(e);
  }

  /** The `message.started` made up when nothing came before. */
  function Lead(t: Turn, e: Event): seq<Event> {
    if e.MessageStarted? || t.started then [] else [MessageStarted]
  }

  lemma LeadTracks(t: Turn, mid: seq<Event>, e: Event)
    requires Tracks(t, mid)
    ensures Tracks(if e.MessageStarted? then t else t.(started := true), mid + Lead(t, e))
    ensures !e.MessageStarted? ==> mid + Lead(t, e) != []
  {
    if Lead(t, e) == [] {
      assert mid + [] == mid;
    } else {
      assert t.text + "" == t.text;
      SnocTracks(t, mid, MessageStarted, t.(started := true));
    }
  }

  lemma CloseTracks(t: Turn, mid: seq<Event>, e: Event)
    requires Tracks(t, mid) && t.started && !t.completed && e.TurnCompleted?
    ensures Tracks(t.(completed := true), mid + [MessageCompleted(Some(t.text)), e])
  {
    var synthesized := MessageCompleted(Some(t.text));
    assert t.text + "" == t.text;
    SnocTracks(t, mid, synthesized, t.(completed := true));
    SnocTracks(t.(completed := true), mid + [synthesized], e, t.(completed := true));
    assert mid + [synthesized, e] == mid + [synthesized] + [e];
  }

  lemma HookTracks(t: Turn, mid: seq<Event>, e: Event)
    requires Tracks(t, mid)
    ensures var r := OnMapped(t, e); Tracks(r.0, mid + r.1)
  {
    hide Tracks;
    LeadTracks(t, mid, e);
    var led := mid + Lead(t, e);
    if e.MessageStarted? {
      assert t.text + "" == t.text;
      SnocTracks(t, led, e, t.(started := true));
      assert mid + [e] == led + [e];
    } else if e.TurnCompleted? && !t.completed && e.reason != "error" {
      CloseTracks(t.(started := true), led, e);
      assert mid + (Lead(t, e) + [MessageCompleted(Some(t.text)), e]) == led + [MessageCompleted(Some(t.text)), e];
    } else {
      PlainTracks(t.(started := true), led, e);
      assert mid + (Lead(t, e) + [e]) == led + [e];
    }
  }

  lemma PlainTracks(t: Turn, mid: seq<Event>, e: Event)
    requires Tracks(t, mid) && t.started && (e.TurnCompleted? && e.reason != "error" ==> t.completed)
    ensures Tracks(Turn(true, t.completed || e.MessageCompleted?,
                        t.text + if e.MessageDelta? then Or(e.delta) else ""), mid + [e])
    ensures t.text + "" == t.text
  {
    var text := t.text + if e.MessageDelta? then Or(e.delta) else "";
    SnocTracks(t, mid, e, Turn(true, t.completed || e.MessageCompleted?, text));
  }

  lemma ArtifactTracks(t: Turn, mid: seq<Event>, batch: seq<Event>)
    requires Tracks(t, mid) && mid != [] && |batch| <= 1
    requires forall e | e in batch :: e.ArtifactStarted? || e.ArtifactCompleted?
    ensures Tracks(t, mid + batch)
  {
    if batch == [] {
      assert mid + batch == mid;
    } else {
      assert batch == [batch[0]] && batch[0] in batch;
      assert t.text + "" == t.text;
      SnocTracks(t, mid, batch[0], t);
    }
  }

  lemma {:induction false} PipelineTracks(d: Detector, events: seq<Event>)
    ensures var p := Pipeline(d, OnMapped, FRESH, events); Tracks(p.state, p.mid)
  {
    if events == [] {
    } else {
      var p, e := Pipeline(d, OnMapped, FRESH, events[..|events| - 1]), events[|events| - 1];
      PipelineTracks(d, events[..|events| - 1]);
      hide Pipeline;
      FeedTracks(d, p, e);
    }
  }

  lemma FeedTracks(d: Detector, p: Pipe<Turn>, e: Event)
    requires Tracks(p.state, p.mid)
    ensures var q := Feed(d, OnMapped, p, e); Tracks(q.state, q.mid)
  {
    HookTracks(p.state, p.mid, e);
    var hooked, artifacts := OnMapped(p.state, e), OnArtifact(d, p.cache, e);
    assert hooked.1 != [];
    OnlyArtifacts(d, p.cache, e);
    hide OnMapped, OnArtifact;
    ArtifactTracks(hooked.0, p.mid + hooked.1, artifacts.1);
    hide Tracks;
    assert p.mid + hooked.1 + artifacts.1 == p.mid + (hooked.1 + artifacts.1);
  }

  lemma OnlyArtifacts(d: Detector, cache: ArgumentCache, e: Event)
    ensures var out := OnArtifact(d, cache, e).1;
            |out| <= 1 && forall o | o in out :: o.ArtifactStarted? || o.ArtifactCompleted?
  {
    hide BuildArtifact;
  }

  // ---- the output ----

  lemma {:induction false} ClosedSurvivesErase(events: seq<Event>)
    ensures Closed(events) <==> Closed(Erase(events))
    ensures CompletedIn(events) <==> CompletedIn(Erase(events))
  {
    if events == [] {
    } else {
      var before, last := events[..|events| - 1], events[|events| - 1];
      ClosedSurvivesErase(before);
      assert events == before + [last];
      ClosedSnoc(before, last);
      ClosedSnoc(Erase(before), last);
      hide Closed, CompletedIn;
      assert Erase(before) + [] == Erase(before);
    }
  }

  lemma EraseHead(events: seq<Event>)
    requires events != [] && !events[0].SessionUsage?
    ensures Erase(events) != [] && Erase(events)[0] == events[0]
  {
    assert events == [events[0]] + events[1..];
    EraseConcat([events[0]], events[1..]);
    assert [events[0]][..0] == [];
  }

  lemma OutputHead(mid: seq<Event>, failed: bool)
    requires mid != [] && mid[0] == MessageStarted
    ensures TurnOutput(mid, failed) != [] && TurnOutput(mid, failed)[0] == MessageStarted
  {
    EraseHead(mid);
    RunTurnProofs.FirstTerminalIsFirst(mid);
    var i := FirstTerminal(mid);
    if i < |mid| {
      assert i > 0;
      EraseHead(mid[..i]);
    }
    hide Erase, UsageOf, FirstTerminal;
  }

  /** Every non-empty turn output starts with `message.started`. */
  lemma OutputStarts(d: Detector, mapped: seq<Event>, failed: bool)
    requires DshOutput(d, mapped, failed) != []
    ensures DshOutput(d, mapped, failed)[0] == MessageStarted
  {
    PipelineTracks(d, Dedup(mapped));
    var p := Pipeline(d, OnMapped, FRESH, Dedup(mapped));
    assert p.mid == [] ==> TurnOutput(p.mid, failed) == [] && (failed ==> Failure(p.state)[0] == MessageStarted);
    if p.mid != [] {
      hide TurnOutput, Pipeline, Closed;
      OutputHead(p.mid, failed);
    }
  }

  lemma {:induction false} ClosedConcat(events: seq<Event>, more: seq<Event>)
    requires Closed(events) && forall e | e in more :: e.TurnCompleted? ==> e.reason == "error"
    ensures Closed(events + more)
  {
    if more == [] {
      assert events + more == events;
    } else {
      var n := |more| - 1;
      ClosedConcat(events, more[..n]);
      ClosedSnoc(events + more[..n], more[n]);
      assert events + more == events + more[..n] + [more[n]];
    }
  }

  /** Every `turn.completed` that is not an error has a `message.completed` before it in the output. */
  lemma OutputCloses(d: Detector, mapped: seq<Event>, failed: bool)
    ensures Closed(DshOutput(d, mapped, failed))
  {
    PipelineTracks(d, Dedup(mapped));
    var p := Pipeline(d, OnMapped, FRESH, Dedup(mapped));
    ClosedSurvivesErase(p.mid);
    RunTurnProofs.ErasedOutput(p.mid, failed);
    var out := TurnOutput(p.mid, failed);
    ClosedSurvivesErase(out);
    hide Closed, Erase, Pipeline, TurnOutput;
    var more := if failed then Failure(p.state) else [];
    ClosedConcat(out, more);
  }

  /** What the hook makes up before an event: a start, and a completion for a turn end that is not an error. */
  lemma HookMakes(t: Turn, e: Event)
    ensures OnMapped(t, e).1 ==
            Lead(t, e)
            + (if e.TurnCompleted? && e.reason != "error" && !t.completed then [MessageCompleted(Some(t.text))] else [])
            + [e]
  {
    var lead := Lead(t, e);
    if e.TurnCompleted? && e.reason != "error" && !t.completed {
      assert lead + [MessageCompleted(Some(t.text))] + [e] == lead + [MessageCompleted(Some(t.text)), e];
    } else {
      assert lead + [] + [e] == lead + [e];
      assert [] + [e] == [e];
    }
  }

  lemma Regrouped(mid: seq<Event>, lead: seq<Event>, made: seq<Event>, e: Event, rest: seq<Event>)
    ensures mid + (lead + made + [e] + rest) == mid + lead + made + [e] + rest
  {}

  /**
   What each event of a turn adds: itself and the report of its write, behind a `message.started` if it is the first
   and none itself, and, for a turn end that is no error before any message was completed, behind a completion that
   carries the whole text sent so far.
   */
  lemma EventExactly(d: Detector, events: seq<Event>, e: Event)
    ensures var p := Pipeline(d, OnMapped, FRESH, events);
            Pipeline(d, OnMapped, FRESH, events + [e]).mid ==
            p.mid
            + (if p.mid == [] && !e.MessageStarted? then [MessageStarted] else [])
            + (if e.TurnCompleted? && e.reason != "error" && !CompletedIn(p.mid)
               then [MessageCompleted(Some(SentText(p.mid)))] else [])
            + [e] + OnArtifact(d, p.cache, e).1
  {
    PipelineTracks(d, events);
    var p := Pipeline(d, OnMapped, FRESH, events);
    FeedStep(d, OnMapped, FRESH, events, e);
    HookMakes(p.state, e);
    hide Pipeline, SentText, CompletedIn, Closed, OnMapped, OnArtifact;
    Regrouped(p.mid, if p.mid == [] && !e.MessageStarted? then [MessageStarted] else [],
              if e.TurnCompleted? && e.reason != "error" && !CompletedIn(p.mid)
              then [MessageCompleted(Some(SentText(p.mid)))] else [], e, OnArtifact(d, p.cache, e).1);
  }

  lemma ErrorPasses(t: Turn, e: Event)
    requires t.started && (e.StreamError? || (e.TurnCompleted? && e.reason == "error"))
    ensures OnMapped(t, e) == (t, [e])
  {
    assert [] + [e] == [e];
  }

  lemma FailureShape(t: Turn)
    ensures Failure(t) == (if t.started then [] else [MessageStarted]) + [StreamError, TurnCompleted("error")]
    ensures Failure(t)[|Failure(t)| - 2..] == [StreamError, TurnCompleted("error")]
  {
    var begun := t.(started := true);
    var lead := if t.started then [] else [MessageStarted];
    assert OnMapped(t, StreamError) == (begun, lead + [StreamError]);
    ErrorPasses(begun, TurnCompleted("error"));
    hide OnMapped;
    assert Failure(t)[|lead|..] == [StreamError, TurnCompleted("error")];
  }

  /** A client failure at any point makes the output end with `stream.error`, then `turn.completed`. */
  lemma FailureEndsTurn(d: Detector, mapped: seq<Event>)
    ensures var out := DshOutput(d, mapped, true);
            |out| >= 3 && out[|out| - 2..] == [StreamError, TurnCompleted("error")]
  {
    PipelineTracks(d, Dedup(mapped));
    var p := Pipeline(d, OnMapped, FRESH, Dedup(mapped));
    if p.mid != [] { OutputHead(p.mid, true); }
    FailureShape(p.state);
    hide TurnOutput, Pipeline, Failure, Closed, SentText, CompletedIn, Dedup;
    var out, tail := TurnOutput(p.mid, true), Failure(p.state);
    assert (out + tail)[|out + tail| - 2..] == tail[|tail| - 2..];
  }

  /** What the hook makes of a whole mapped turn end. */
  function HookedEnd(t: Turn, kind: string): seq<Event> {
    var events := MapTurnEnd(kind);
    var first := OnMapped(t, events[0]);
    if |events| == 1 then first.1 else first.1 + OnMapped(first.0, events[1]).1
  }

  lemma EndOfStarted(t: Turn, kind: string)
    requires t.started
    ensures var faulty := kind == "error" || kind == "max-tokens";
            HookedEnd(t, kind) ==
            (if faulty then [StreamError] else [])
            + (if kind == "error" || t.completed then [] else [MessageCompleted(Some(t.text))]) + [TurnCompleted(kind)]
  {
    var e := TurnCompleted(kind);
    if kind == "error" {
      ErrorPasses(t, e);
    } else {
      HookMakes(t, e);
      assert [] + (if t.completed then [] else [MessageCompleted(Some(t.text))]) + [e]
          == (if t.completed then [] else [MessageCompleted(Some(t.text))]) + [e];
    }
    ErrorPasses(t, StreamError);
    hide OnMapped;
  }

  lemma EndIsLed(t: Turn, kind: string)
    requires !t.started
    ensures HookedEnd(t, kind) == [MessageStarted] + HookedEnd(t.(started := true), kind)
  {
    var events := MapTurnEnd(kind);
    assert !events[0].MessageStarted?;
    LedByStart(t, events[0]);
    hide OnMapped;
    var first := OnMapped(t.(started := true), events[0]);
    if |events| == 2 {
      assert [MessageStarted] + first.1 + OnMapped(first.0, events[1]).1
          == [MessageStarted] + (first.1 + OnMapped(first.0, events[1]).1);
    }
  }

  /** Before anything was started, an event other than a start is led by one and otherwise taken as if after one. */
  lemma LedByStart(t: Turn, e: Event)
    requires !t.started && !e.MessageStarted?
    ensures var begun := OnMapped(t.(started := true), e);
            OnMapped(t, e) == (begun.0, [MessageStarted] + begun.1)
  {
    var rest := OnMapped(t.(started := true), e).1;
    assert [] + [e] == [e];
    if e.TurnCompleted? && !t.completed && e.reason != "error" {
      assert [] + [MessageCompleted(Some(t.text)), e] == [MessageCompleted(Some(t.text)), e];
    }
  }

  /** A turn end, whatever came before it, closes with `turn.completed`, right after the whole text if none was
      completed before, and reports `stream.error` ahead of that exactly for an error or a truncation; only an error
      makes up no message. A start leads it if there was none. */
  lemma TurnEndCloses(t: Turn, kind: string)
    ensures var faulty := kind == "error" || kind == "max-tokens";
            HookedEnd(t, kind) ==
            (if t.started then [] else [MessageStarted])
            + ((if faulty then [StreamError] else [])
               + (if kind == "error" || t.completed then [] else [MessageCompleted(Some(t.text))])
               + [TurnCompleted(kind)])
  {
    EndOfStarted(t.(started := true), kind);
    if !t.started {
      EndIsLed(t, kind);
    } else {
      assert t.(started := true) == t;
    }
    hide HookedEnd;
  }

  lemma HookIsPassive()
    ensures RunTurnProofs.Passive(OnMapped)
  {
  }

  lemma HookTrace(t: Turn, e: Event)
    ensures ArtifactTrace.Trace(OnMapped(t, e).1) == ArtifactTrace.Trace([e])
  {
    var lead := if t.started || e.MessageStarted? then [] else [MessageStarted];
    ArtifactTrace.TraceOne(MessageStarted);
    ArtifactTrace.TraceOne(e);
    ArtifactTrace.TraceConcat(lead, [e]);
    hide ArtifactTrace.Trace;
    assert [] + [e] == [e];
    if e.TurnCompleted? {
      var close := MessageCompleted(Some(t.text));
      ArtifactTrace.TraceOne(close);
      ArtifactTrace.TraceConcat([close], [e]);
      ArtifactTrace.TraceConcat(lead, [close, e]);
      assert [close] + [e] == [close, e] && [] + [close, e] == [close, e];
    }
  }

  /** It leaves tool events alone, so its turns are traced as ArtifactTrace.OutputTraced says. */
  lemma HookIsTransparent()
    ensures ArtifactTrace.Transparent(OnMapped)
  {
    forall t: Turn, e: Event ensures ArtifactTrace.Trace(OnMapped(t, e).1) == ArtifactTrace.Trace([e]) {
      HookTrace(t, e);
    }
  }
}
