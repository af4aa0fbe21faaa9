/**
 The OpenClaw gateway's event hook: it repairs a missing text tail when the completed message arrives,
 and reconciles late thinking deltas with a thinking block that already arrived whole.
 */
module OpenClaw {
  import opened Text
  import opened TurnEvents

  /** Per-turn state: text seen so far, current thinking text, tail sent ahead of its late deltas. */
  datatype Turn = Turn(text: string, thinking: string, suppress: string)

  /** Length of the longest common prefix. */
  function Common(a: string, b: string): (n: nat)
    ensures n <= |a| && n <= |b| && a[..n] == b[..n]
    ensures n < |a| && n < |b| ==> a[n] != b[n]
  {
    if a == [] || b == [] || a[0] != b[0] then 0
    else
      var n := 1 + Common(a[1..], b[1..]);
      assert a[..n] == [a[0]] + a[1..][..n - 1] && b[..n] == [b[0]] + b[1..][..n - 1];
      n
  }

  predicate SameBlock(t: Turn, running: Option<string>) {
    running.Some? && (running.value <= t.thinking || t.thinking <= running.value)
  }

  function OnThinking(t: Turn, e: Event): (Turn, seq<Event>)
    requires e.Thinking?
  {
    if e.thinking.None? || e.thinking.value == "" then (t, [e])
    else
      var block, acc := e.thinking.value, t.thinking;
      if acc != "" && acc < block then
        var missing := block[|acc|..];
        (t.(thinking := block, suppress := missing), [ThinkingDelta(Some(missing), Some(block)), e])
      else (t.(thinking := block, suppress := ""), [e])
  }

  /** What a late delta leaves to send and to suppress, once a tail has been sent ahead. */
  function Offset(suppress: string, delta: string): (string, string) {
    var n := Common(suppress, delta);
    if n == 0 then (delta, if suppress == "" || delta == "" then suppress else "")
    else (delta[n..], suppress[n..])
  }

  function OnThinkingDelta(t: Turn, e: Event): (Turn, seq<Event>)
    requires e.ThinkingDelta?
  {
    if e.part.None? || e.part.value == "" then (t, [])
    else
      var suppress := if SameBlock(t, e.running) then t.suppress else "";
      var offset := Offset(suppress, e.part.value);
      if offset.0 == "" then (t.(suppress := offset.1), [])
      else
        var thinking := if e.running.Some? && e.running.value != "" then e.running.value else t.thinking + offset.0;
        (t.(thinking := thinking, suppress := offset.1), [e.(part := Some(offset.0))])
  }

  function OnMapped(t: Turn, e: Event): (Turn, seq<Event>) {
    match e
    case Thinking(_) => OnThinking(t, e)
    case ThinkingDelta(_, _) => OnThinkingDelta(t, e)
    case MessageDelta(delta) => (if delta.Some? then t.(text := t.text + delta.value) else t, [e])
    case MessageCompleted(full) =>
      if full.Some? && t.text < full.value
      then (t.(text := full.value), [MessageDelta(Some(full.value[|t.text|..])), e])
      else (t, [e])
    case _ => (t, [e])
  }

  class Runtime {
    var accDelta: string
    var accThinking: string
    var thinkingSuppress: string

    function View(): Turn
      reads this
    {
      Turn(accDelta, accThinking, thinkingSuppress)
    }

    method OnTurnBegin()
      modifies this
      ensures View() == Turn("", "", "")
    {
      accDelta, accThinking, thinkingSuppress := "", "", "";
    }

    method OnMappedEvent(e: Event) returns (out: seq<Event>)
      modifies this
      ensures (View(), out) == OnMapped(old(View()), e)
    {
      match e {
        case Thinking(_) =>
          out := OnThinkingEvent(e);
          return;
        case ThinkingDelta(_, _) =>
          out := OnThinkingDeltaEvent(e);
          return;
        case MessageDelta(delta) =>
          assert accDelta + "" == accDelta;
          if delta.Some? && delta.value != "" {
            accDelta := accDelta + delta.value;
          }
        case MessageCompleted(full) =>
          if full.Some? && |full.value| > |accDelta| && accDelta <= full.value {
            var missing := full.value[|accDelta|..];
            accDelta := full.value;
            return [MessageDelta(Some(missing)), e];
          }
        case _ =>
      }
      out := [e];
    }

    method OnThinkingEvent(e: Event) returns (out: seq<Event>)
      requires e.Thinking?
      modifies this
      ensures (View(), out) == OnThinking(old(View()), e)
    {
      if e.thinking.None? || e.thinking.value == "" {
        return [e];
      }
      var thinking, acc := e.thinking.value, accThinking;
      out := [];
      thinkingSuppress := "";
      if acc != "" && acc <= thinking && |thinking| > |acc| {
        var missing := thinking[|acc|..];
        thinkingSuppress := thinkingSuppress + missing;
        assert "" + missing == missing;
        out := [ThinkingDelta(Some(missing), Some(thinking))];
        assert out + [e] == [ThinkingDelta(Some(missing), Some(thinking)), e];
      }
      accThinking := thinking;
      assert [] + [e] == [e];
      out := out + [e];
    }

    method OnThinkingDeltaEvent(e: Event) returns (out: seq<Event>)
      requires e.ThinkingDelta?
      modifies this
      ensures (View(), out) == OnThinkingDelta(old(View()), e)
    {
      if e.part.None? || e.part.value == "" {
        return [];
      }
      var delta, acc, suppress := e.part.value, accThinking, thinkingSuppress;
      if suppress != "" && !SameBlock(View(), e.running) {
        thinkingSuppress := "";
        suppress := "";
      }
      if suppress != "" {
        var common := 0;
        var limit := if |suppress| < |delta| then |suppress| else |delta|;
        while common < limit && suppress[common] == delta[common]
          invariant 0 <= common <= limit && suppress[..common] == delta[..common]
        {
          common := common + 1;
        }
        CommonIs(suppress, delta, common);
        if common == |delta| {
          thinkingSuppress := suppress[common..];
          return [];
        }
        if common != 0 {
          thinkingSuppress := suppress[common..];
          delta := delta[common..];
        } else {
          thinkingSuppress := "";
        }
      }
      accThinking := if e.running.Some? && e.running.value != "" then e.running.value else acc + delta;
      out := [e.(part := Some(delta))];
    }
  }

  lemma CommonIs(a: string, b: string, n: nat)
    requires n <= |a| && n <= |b| && a[..n] == b[..n] && (n < |a| && n < |b| ==> a[n] != b[n])
    ensures Common(a, b) == n
  {
    var m := Common(a, b);
    assert forall i | 0 <= i < n :: a[i] == a[..n][i] == b[..n][i] == b[i];
    assert forall i | 0 <= i < m :: a[i] == a[..m][i] == b[..m][i] == b[i];
  }
}
