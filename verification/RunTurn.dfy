/**
 One turn of a runtime: duplicate tool starts are dropped, every remaining event passes through the
 runtime's own hook and the artifact hook, and the per-step usage events are swallowed and replaced
 by one total placed before the first terminal event that follows any usage.
 */
module RunTurn {
  import opened Text
  import opened Usage
  import opened TurnEvents

  type Hook<!S> = (S, Event) -> (S, seq<Event>)

  // ---- duplicate tool starts ----

  predicate HasCallId(e: Event) {
    e.ToolStarted? && e.callId.Some? && e.callId.value != ""
  }

  predicate StartedEarlier(events: seq<Event>, e: Event) {
    HasCallId(e) && exists j | 0 <= j < |events| :: events[j].ToolStarted? && events[j].callId == e.callId
  }

  /** Only the first start of a non-empty call id survives. */
  function Dedup(events: seq<Event>): seq<Event> {
    if events == [] then []
    else
      var before := events[..|events| - 1];
      var last := events[|events| - 1];
      Dedup(before) + if StartedEarlier(before, last) then [] else [last]
  }

  // ---- the hooks ----

  datatype Pipe<S> = Pipe(state: S, cache: ArgumentCache, mid: seq<Event>)

  function Feed<S>(d: Detector, hook: Hook<S>, p: Pipe<S>, e: Event): Pipe<S> {
    var hooked := hook(p.state, e);
    var artifacts := OnArtifact(d, p.cache, e);
    Pipe(hooked.0, artifacts.0, p.mid + (hooked.1 + artifacts.1))
  }

  function Pipeline<S>(d: Detector, hook: Hook<S>, begin: S, events: seq<Event>): Pipe<S> {
    if events == [] then Pipe(begin, map[], [])
    else Feed(d, hook, Pipeline(d, hook, begin, events[..|events| - 1]), events[|events| - 1])
  }

  // ---- usage placement ----

  function Payloads(mid: seq<Event>): seq<Json> {
    if mid == [] then []
    else
      var last := mid[|mid| - 1];
      Payloads(mid[..|mid| - 1]) + if last.SessionUsage? then [last.payload] else []
  }

  function Erase(events: seq<Event>): seq<Event> {
    if events == [] then []
    else
      var last := events[|events| - 1];
      Erase(events[..|events| - 1]) + if last.SessionUsage? then [] else [last]
  }

  function UsageOf(mid: seq<Event>): Totals {
    Sum(Payloads(mid))
  }

  function UsageTotal(mid: seq<Event>): Event {
    SessionUsage(AsPayload(UsageOf(mid)))
  }

  /** Position of the first terminal event with usage before it, or |mid|. */
  function FirstTerminal(mid: seq<Event>): (i: nat)
    ensures i <= |mid|
  {
    if mid == [] then 0
    else
      var before := mid[..|mid| - 1];
      if FirstTerminal(before) < |before| then FirstTerminal(before)
      else if Terminal(mid[|mid| - 1]) && UsageOf(before) != map[] then |before|
      else |mid|
  }

  /** What has been yielded once the whole of mid went by. */
  function Yielded(mid: seq<Event>): seq<Event> {
    var i := FirstTerminal(mid);
    if i < |mid| then Erase(mid[..i]) + [UsageTotal(mid[..i])] + Erase(mid[i..]) else Erase(mid)
  }

  /** The turn's output: a client failure ends it where it stands, the end of the stream flushes the total. */
  function TurnOutput(mid: seq<Event>, failed: bool): seq<Event> {
    Yielded(mid) + if !failed && FirstTerminal(mid) == |mid| && UsageOf(mid) != map[] then [UsageTotal(mid)] else []
  }

  lemma {:induction false} EraseConcat(a: seq<Event>, b: seq<Event>)
    ensures Erase(a + b) == Erase(a) + Erase(b)
  {
    if b == [] {
      assert a + b == a;
    } else {
      assert (a + b)[..|a + b| - 1] == a + b[..|b| - 1];
      EraseConcat(a, b[..|b| - 1]);
    }
  }

  lemma UsageStep(mid: seq<Event>, e: Event)
    ensures UsageOf(mid + [e]) == if e.SessionUsage? then Merge(UsageOf(mid), Normalize(e.payload)) else UsageOf(mid)
  {
    hide Normalize, Merge;
    assert (mid + [e])[..|mid|] == mid;
    if e.SessionUsage? {
      assert Payloads(mid + [e])[..|Payloads(mid)|] == Payloads(mid);
    } else {
      assert Payloads(mid + [e]) == Payloads(mid);
    }
  }

  lemma FirstTerminalStep(mid: seq<Event>, e: Event)
    ensures FirstTerminal(mid + [e]) ==
            if FirstTerminal(mid) < |mid| then FirstTerminal(mid)
            else if Terminal(e) && UsageOf(mid) != map[] then |mid|
            else |mid| + 1
  {
    hide UsageOf;
    assert (mid + [e])[..|mid|] == mid;
  }

  function Kept(e: Event): seq<Event> {
    if e.SessionUsage? then [] else [e]
  }

  lemma EraseStep(mid: seq<Event>, e: Event)
    ensures Erase(mid + [e]) == Erase(mid) + Kept(e)
  {
    assert (mid + [e])[..|mid|] == mid;
  }

  /** What a further event adds to the output. */
  function Added(mid: seq<Event>, e: Event): seq<Event> {
    (if FirstTerminal(mid) == |mid| && Terminal(e) && UsageOf(mid) != map[] then [UsageTotal(mid)] else []) + Kept(e)
  }

  lemma Assoc<T>(a: seq<T>, b: seq<T>, c: seq<T>)
    ensures a + (b + c) == a + b + c
  {}

  /** One more event: the total goes out first when a terminal event meets unreported usage. */
  lemma YieldedStep(mid: seq<Event>, e: Event)
    ensures Yielded(mid + [e]) == Yielded(mid) + Added(mid, e)
    ensures FirstTerminal(mid + [e]) < |mid| + 1 <==>
            FirstTerminal(mid) < |mid| || (Terminal(e) && UsageOf(mid) != map[])
  {
    FirstTerminalStep(mid, e);
    hide UsageTotal, UsageOf, Erase, Kept;
    var i := FirstTerminal(mid);
    hide FirstTerminal;
    if i < |mid| {
      YieldedLater(mid, e, i);
      assert [] + Kept(e) == Kept(e);
    } else if Terminal(e) && UsageOf(mid) != map[] {
      YieldedNow(mid, e);
    } else {
      EraseStep(mid, e);
      assert [] + Kept(e) == Kept(e);
    }
  }

  lemma YieldedLater(mid: seq<Event>, e: Event, i: nat)
    requires i == FirstTerminal(mid) == FirstTerminal(mid + [e]) && i < |mid|
    ensures Yielded(mid + [e]) == Yielded(mid) + Kept(e)
  {
    hide UsageTotal, FirstTerminal, Erase, Kept;
    assert (mid + [e])[..i] == mid[..i] && (mid + [e])[i..] == mid[i..] + [e];
    EraseStep(mid[i..], e);
    Assoc(Erase(mid[..i]) + [UsageTotal(mid[..i])], Erase(mid[i..]), Kept(e));
  }

  lemma YieldedNow(mid: seq<Event>, e: Event)
    requires FirstTerminal(mid) == FirstTerminal(mid + [e]) == |mid|
    ensures Yielded(mid + [e]) == Yielded(mid) + ([UsageTotal(mid)] + Kept(e))
  {
    hide UsageTotal, FirstTerminal, Erase, Kept;
    assert (mid + [e])[..|mid|] == mid && (mid + [e])[|mid|..] == [] + [e];
    EraseStep([], e);
    NothingErased();
    assert [] + Kept(e) == Kept(e);
    Assoc(Erase(mid), [UsageTotal(mid)], Kept(e));
  }

  lemma NothingErased()
    ensures Erase([]) == []
  {}

  /** `total` with one more usage payload folded in, field by field. */
  method SyncUsage(total: Totals, payload: Json) returns (r: Totals)
    ensures r == Merge(total, Normalize(payload))
  {
    var normalized := NormalizeUsagePayload(payload);
    hide Normalize;
    r := total;
    for i := 0 to |FIELDS|
      invariant forall f | f !in FIELDS[..i] :: (f in r <==> f in total) && (f in total ==> r[f] == total[f])
      invariant forall f | f in FIELDS[..i] ::
        (f in r <==> f in total || f in normalized) && (f in r ==> r[f] == Merge(total, normalized)[f])
    {
      var f := FIELDS[i];
      FieldsDiffer(i);
      assert FIELDS[..i + 1] == FIELDS[..i] + [f];
      if f in normalized {
        r := r[f := if f in r then r[f] + normalized[f] else normalized[f]];
      }
    }
    assert FIELDS[..|FIELDS|] == FIELDS;
    forall f: Field ensures f in FIELDS { AllFields(f); }
  }

  lemma FieldsDiffer(i: nat)
    requires i < |FIELDS|
    ensures FIELDS[i] !in FIELDS[..i]
  {}

  method Emit(total: Totals, emitted: bool, out: seq<Event>, batch: seq<Event>, ghost mid: seq<Event>)
    returns (total': Totals, emitted': bool, out': seq<Event>)
    requires total == UsageOf(mid) && out == Yielded(mid) && (emitted <==> FirstTerminal(mid) < |mid|)
    ensures var after := mid + batch;
            total' == UsageOf(after) && out' == Yielded(after) && (emitted' <==> FirstTerminal(after) < |after|)
  {
    hide UsageOf, Yielded, FirstTerminal, AsPayload, Merge, Normalize;
    total', emitted', out' := total, emitted, out;
    assert mid + batch[..0] == mid;
    for i := 0 to |batch|
      invariant var sofar := mid + batch[..i];
                total' == UsageOf(sofar) && out' == Yielded(sofar) && (emitted' <==> FirstTerminal(sofar) < |sofar|)
    {
      var e := batch[i];
      ghost var sofar := mid + batch[..i];
      YieldedStep(sofar, e);
      UsageStep(sofar, e);
      assert mid + batch[..i + 1] == sofar + [e];
      if e.SessionUsage? {
        total' := SyncUsage(total', e.payload);
        continue;
      }
      if total' != map[] && !emitted' && Terminal(e) {
        emitted' := true;
        out' := out' + [SessionUsage(AsPayload(total'))];
      }
      out' := out' + [e];
    }
    assert batch[..|batch|] == batch;
  }

  method RunTurnEvents<S>(d: Detector, hook: Hook<S>, begin: S, mapped: seq<Event>, failed: bool)
    returns (out: seq<Event>, state: S)
    ensures var end := Pipeline(d, hook, begin, Dedup(mapped));
            state == end.state && out == TurnOutput(end.mid, failed)
  {
    hide UsageOf, Yielded, FirstTerminal, OnArtifact, Pipeline, Dedup, AsPayload;
    var seen: set<string> := {};
    var total: Totals, emitted := map[], false;
    var cache: ArgumentCache := map[];
    state, out := begin, [];
    NothingYet(d, hook, begin);
    ghost var mid: seq<Event> := [];
    for i := 0 to |mapped|
      invariant forall id :: id in seen <==>
                id != "" && exists j | 0 <= j < i :: mapped[j].ToolStarted? && mapped[j].callId == Some(id)
      invariant Pipeline(d, hook, begin, Dedup(mapped[..i])) == Pipe(state, cache, mid)
      invariant total == UsageOf(mid) && out == Yielded(mid) && (emitted <==> FirstTerminal(mid) < |mid|)
    {
      var event := mapped[i];
      DedupStep(mapped, i);
      var skip := false;
      if HasCallId(event) {
        skip := event.callId.value in seen;
        seen := seen + {event.callId.value};
      }
      assert skip <==> StartedEarlier(mapped[..i], event);
      if !skip {
        FeedStep(d, hook, begin, Dedup(mapped[..i]), event);
        var hooked := hook(state, event);
        var artifacts := OnArtifact(d, cache, event);
        var batch := hooked.1 + artifacts.1;
        total, emitted, out := Emit(total, emitted, out, batch, mid);
        state, cache, mid := hooked.0, artifacts.0, mid + batch;
      }
    }
    assert mapped[..|mapped|] == mapped;
    if !failed && total != map[] && !emitted {
      out := out + [SessionUsage(AsPayload(total))];
    }
  }

  lemma NothingYet<S>(d: Detector, hook: Hook<S>, begin: S)
    ensures Pipeline(d, hook, begin, Dedup([])) == Pipe(begin, map[], [])
    ensures UsageOf([]) == map[] && Yielded([]) == [] && FirstTerminal([]) == 0
  {}

  lemma DedupStep(events: seq<Event>, i: nat)
    requires i < |events|
    ensures Dedup(events[..i + 1]) ==
            if StartedEarlier(events[..i], events[i]) then Dedup(events[..i]) else Dedup(events[..i]) + [events[i]]
  {
    assert events[..i + 1][..i] == events[..i];
  }

  lemma FeedStep<S>(d: Detector, hook: Hook<S>, begin: S, ds: seq<Event>, e: Event)
    ensures Pipeline(d, hook, begin, ds + [e]) == Feed(d, hook, Pipeline(d, hook, begin, ds), e)
  {
    assert (ds + [e])[..|ds|] == ds;
  }
}
