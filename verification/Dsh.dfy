/**
 The dsh runtime's event hook: it makes up for a missing `message.started` and `message.completed`, and turns
 a transport failure of the client into `stream.error` followed by `turn.completed`.
 */
module Dsh {
  import opened Text
  import opened Usage
  import opened TurnEvents
  import opened RunTurn

  datatype Turn = Turn(started: bool, completed: bool, text: string)

  const FRESH := Turn(false, false, "")

  function OnMapped(t: Turn, e: Event): (Turn, seq<Event>) {
    if e.MessageStarted? then (t.(started := true), [e])
    else
      var lead := if t.started then [] else [MessageStarted];
      var t1 := t.(started := true);
      match e
      case MessageDelta(delta) => (if delta.Some? then t1.(text := t.text + delta.value) else t1, lead + [e])
      case MessageCompleted(_) => (t1.(completed := true), lead + [e])
      case TurnCompleted(reason) =>
        if t.completed || reason == "error" then (t1, lead + [e])
        else (t1.(completed := true), lead + [MessageCompleted(Some(t.text)), e])
      case _ => (t1, lead + [e])
  }

  class Runtime {
    var startedEmitted: bool
    var completedEmitted: bool
    var accumulatedText: string

    function View(): Turn
      reads this
    {
      Turn(startedEmitted, completedEmitted, accumulatedText)
    }

    method OnTurnBegin()
      modifies this
      ensures View() == FRESH
    {
      accumulatedText, startedEmitted, completedEmitted := "", false, false;
    }

    method OnMappedEvent(e: Event) returns (out: seq<Event>)
      modifies this
      ensures (View(), out) == OnMapped(old(View()), e)
    {
      out := [];
      if e.MessageStarted? {
        startedEmitted := true;
        return [e];
      }
      if !startedEmitted {
        startedEmitted := true;
        out := [MessageStarted];
      }
      if e.MessageDelta? {
        if e.delta.Some? {
          accumulatedText := accumulatedText + e.delta.value;
        }
      } else if e.MessageCompleted? {
        completedEmitted := true;
      } else if e.TurnCompleted? {
        if !completedEmitted && e.reason != "error" {
          completedEmitted := true;
          out := out + [MessageCompleted(Some(accumulatedText)), e];
          return;
        }
      }
      out := out + [e];
    }
  }

  /** What a failure of the client adds: both events pass the hook again. */
  function Failure(t: Turn): seq<Event> {
    var first := OnMapped(t, StreamError);
    first.1 + OnMapped(first.0, TurnCompleted("error")).1
  }

  function DshOutput(d: Detector, mapped: seq<Event>, failed: bool): seq<Event> {
    var p := Pipeline(d, OnMapped, FRESH, Dedup(mapped));
    TurnOutput(p.mid, failed) + if failed then Failure(p.state) else []
  }

  method RunDshTurn(d: Detector, mapped: seq<Event>, failed: bool) returns (out: seq<Event>)
    ensures out == DshOutput(d, mapped, failed)
  {
    var state: Turn;
    out, state := RunTurnEvents(d, OnMapped, FRESH, mapped, failed);
    if failed {
      var first := OnMapped(state, StreamError);
      var second := OnMapped(first.0, TurnCompleted("error"));
      out := out + (first.1 + second.1);
    }
  }

  /** The end of a dsh turn: a failed or truncated turn reports `stream.error` before it closes. */
  function MapTurnEnd(kind: string): seq<Event> {
    if kind == "error" || kind == "max-tokens" then [StreamError, TurnCompleted(kind)] else [TurnCompleted(kind)]
  }
}
