/** What a consumer of a turn's output may rely on, whatever the runtime's hook does. */
module RunTurnProofs {
  import opened Text
  import opened Usage
  import opened TurnEvents
  import opened RunTurn

  // ---- one usage event, in the right place, carrying the right sum ----

  lemma {:induction false} ErasedHasNoUsage(events: seq<Event>)
    ensures forall e | e in Erase(events) :: e in events && !e.SessionUsage?
    ensures forall e | e in events && !e.SessionUsage? :: e in Erase(events)
  {
    if events == [] {
    } else {
      ErasedHasNoUsage(events[..|events| - 1]);
    }
  }

  lemma {:induction false} FirstTerminalIsFirst(mid: seq<Event>)
    ensures var i := FirstTerminal(mid);
            (i < |mid| ==> Terminal(mid[i]) && UsageOf(mid[..i]) != map[])
            && forall j | 0 <= j < i :: Terminal(mid[j]) ==> UsageOf(mid[..j]) == map[]
  {
    hide UsageOf;
    if mid == [] {
    } else {
      var before := mid[..|mid| - 1];
      FirstTerminalIsFirst(before);
      assert forall j | 0 <= j <= |before| :: before[..j] == mid[..j];
    }
  }

  /** Where the total sits: i events of the hooked stream went before it. */
  ghost predicate UsageAt(mid: seq<Event>, out: seq<Event>, p: nat, i: nat) {
    && p < |out| && i <= |mid|
    && out[p] == SessionUsage(AsPayload(Sum(Payloads(mid[..i])))) && Payloads(mid[..i]) != []
    && out[..p] == Erase(mid[..i])
    && out[p + 1..] == Erase(mid[i..])
    && (i < |mid| ==> Terminal(mid[i]) && p + 1 < |out| && out[p + 1] == mid[i])
    && forall j | 0 <= j < i && Terminal(mid[j]) :: Sum(Payloads(mid[..j])) == map[]
  }

  lemma TerminalLeads(mid: seq<Event>, i: nat)
    requires i < |mid| && Terminal(mid[i])
    ensures Erase(mid[i..]) != [] && Erase(mid[i..])[0] == mid[i]
  {
    assert mid[i..] == [mid[i]] + mid[i + 1..];
    EraseConcat([mid[i]], mid[i + 1..]);
    assert [mid[i]][..0] == [];
  }

  /** A usage event in the output is the total, between the two erased halves of the stream. */
  lemma OutputShape(mid: seq<Event>, failed: bool, p: nat)
    requires p < |TurnOutput(mid, failed)| && TurnOutput(mid, failed)[p].SessionUsage?
    ensures var i := FirstTerminal(mid);
            TurnOutput(mid, failed) == Erase(mid[..i]) + [UsageTotal(mid[..i])] + Erase(mid[i..])
            && UsageOf(mid[..i]) != map[]
  {
    var out, i := TurnOutput(mid, failed), FirstTerminal(mid);
    FirstTerminalIsFirst(mid);
    ErasedHasNoUsage(mid);
    hide UsageTotal, UsageOf, Erase, FirstTerminal;
    if i == |mid| {
      assert mid[..i] == mid && mid[i..] == [];
      NothingErased();
      assert out[p] !in Erase(mid);
      assert Erase(mid) + [UsageTotal(mid)] + [] == Erase(mid) + [UsageTotal(mid)];
    } else {
      assert out == Yielded(mid);
    }
  }

  /**
   The output has at most one usage event.  It carries the sum of all usage before it and stands right before
   the first terminal event that follows any usage, or at the end of the stream.
   */
  lemma UsageOnceAndPlaced(mid: seq<Event>, failed: bool, p: nat)
    requires p < |TurnOutput(mid, failed)| && TurnOutput(mid, failed)[p].SessionUsage?
    ensures exists i :: UsageAt(mid, TurnOutput(mid, failed), p, i)
    ensures forall q | 0 <= q < |TurnOutput(mid, failed)| && TurnOutput(mid, failed)[q].SessionUsage? :: q == p
  {
    var out, i := TurnOutput(mid, failed), FirstTerminal(mid);
    OutputShape(mid, failed, p);
    FirstTerminalIsFirst(mid);
    ErasedHasNoUsage(mid[..i]);
    ErasedHasNoUsage(mid[i..]);
    NoPayloadsNoUsage(mid[..i]);
    if i < |mid| { TerminalLeads(mid, i); }
    hide AsPayload, Sum, Payloads, Erase, FirstTerminal, TurnOutput;
    OnlyOneBetween(Erase(mid[..i]), UsageTotal(mid[..i]), Erase(mid[i..]), p);
    assert UsageAt(mid, out, p, i);
  }

  lemma OnlyOneBetween(a: seq<Event>, total: Event, b: seq<Event>, p: nat)
    requires (forall e | e in a || e in b :: !e.SessionUsage?) && p < |a| + 1 + |b|
             && (a + [total] + b)[p].SessionUsage?
    ensures p == |a| && (a + [total] + b)[..p] == a && (a + [total] + b)[p + 1..] == b
    ensures forall q | 0 <= q < |a| + 1 + |b| && (a + [total] + b)[q].SessionUsage? :: q == p
  {
    var whole := a + [total] + b;
    assert forall q | 0 <= q < |whole| :: q < |a| ==> whole[q] in a;
    assert forall q | 0 <= q < |whole| :: q > |a| ==> whole[q] in b;
  }

  lemma NoPayloadsNoUsage(mid: seq<Event>)
    ensures Payloads(mid) == [] ==> UsageOf(mid) == map[]
  {}

  /** The total is missing exactly when there was no usage, or a client failure came before any terminal event could
      show it. */
  lemma UsageReportedExactly(mid: seq<Event>, failed: bool)
    ensures (exists p | 0 <= p < |TurnOutput(mid, failed)| :: TurnOutput(mid, failed)[p].SessionUsage?)
       <==> FirstTerminal(mid) < |mid| || (!failed && UsageOf(mid) != map[])
  {
    var out, i := TurnOutput(mid, failed), FirstTerminal(mid);
    ErasedHasNoUsage(mid);
    hide AsPayload, UsageOf, Erase, FirstTerminal;
    if i < |mid| {
      assert out[|Erase(mid[..i])|].SessionUsage?;
    } else if !failed && UsageOf(mid) != map[] {
      assert out[|Erase(mid)|].SessionUsage?;
    } else {
      assert forall p | 0 <= p < |out| :: out[p] in Erase(mid);
    }
  }

  lemma EraseOne(total: Event)
    requires total.SessionUsage?
    ensures Erase([total]) == []
  {
    assert [total][..0] == [];
  }

  /** A usage event put between two cleaned halves goes away again. */
  lemma ErasePlaced(a: seq<Event>, total: Event, b: seq<Event>)
    requires total.SessionUsage?
    ensures Erase(Erase(a) + [total] + Erase(b)) == Erase(a + b)
  {
    EraseTwice(a);
    EraseTwice(b);
    EraseOne(total);
    hide Erase;
    EraseConcat(Erase(a) + [total], Erase(b));
    EraseConcat(Erase(a), [total]);
    EraseConcat(a, b);
    assert Erase(a) + [] == Erase(a);
  }

  lemma EraseYielded(mid: seq<Event>)
    ensures Erase(Yielded(mid)) == Erase(mid)
  {
    var i := FirstTerminal(mid);
    if i < |mid| {
      assert mid == mid[..i] + mid[i..];
      hide UsageTotal, Erase, FirstTerminal;
      ErasePlaced(mid[..i], UsageTotal(mid[..i]), mid[i..]);
    } else {
      EraseTwice(mid);
    }
  }

  /** Apart from usage the output is the hooked stream, in order, nothing lost or added. */
  lemma ErasedOutput(mid: seq<Event>, failed: bool)
    ensures Erase(TurnOutput(mid, failed)) == Erase(mid)
  {
    var total := UsageTotal(mid);
    EraseYielded(mid);
    EraseOne(total);
    hide UsageTotal, Erase, FirstTerminal, UsageOf, Yielded;
    EraseConcat(Yielded(mid), [total]);
    assert Erase(mid) + [] == Erase(mid);
    assert Yielded(mid) + [] == Yielded(mid);
  }

  lemma {:induction false} EraseTwice(events: seq<Event>)
    ensures Erase(Erase(events)) == Erase(events)
  {
    if events == [] {
    } else {
      var before, last := events[..|events| - 1], events[|events| - 1];
      EraseTwice(before);
      EraseStep(Erase(before), last);
      assert Erase(before) + [] == Erase(before);
    }
  }

  // ---- duplicate starts ----

  ghost predicate StartsDistinct(events: seq<Event>) {
    forall i, j | 0 <= i < j < |events| && HasCallId(events[i])
           && HasCallId(events[j]) :: events[i].callId != events[j].callId
  }

  ghost predicate StartedIn(events: seq<Event>, callId: Option<string>) {
    exists e | e in events :: e.ToolStarted? && e.callId == callId
  }

  /** The event at i starts a tool call whose id was started before. */
  ghost predicate Repeats(events: seq<Event>, i: nat) {
    && i < |events| && events[i].ToolStarted? && events[i].callId.Some? && events[i].callId.value != ""
    && exists j | 0 <= j < i :: events[j].ToolStarted? && events[j].callId == events[i].callId
  }

  /** These places of the list, in order, hold exactly these events. */
  ghost predicate HeldAt(events: seq<Event>, at: seq<nat>, held: seq<Event>) {
    && |held| == |at| && Rising(at)
    && forall k | 0 <= k < |at| :: at[k] < |events| && held[k] == events[at[k]]
  }

  ghost predicate AreKept(events: seq<Event>, at: seq<nat>) {
    forall i: nat :: i in at <==> i < |events| && !Repeats(events, i)
  }

  /** What is dropped is exactly the repeated starts; the other events stay as they are, in order. */
  lemma {:induction false} DedupExactly(events: seq<Event>) returns (at: seq<nat>)
    ensures HeldAt(events, at, Dedup(events)) && AreKept(events, at)
    decreases |events|
  {
    hide *;
    if events == [] {
      at := [];
      NothingHeld();
    } else {
      var n := |events| - 1;
      var before := DedupExactly(events[..n]);
      assert events == events[..n] + [events[n]] && events[..|events|] == events;
      DedupStep(events, n);
      KeptNext(events[..n], events[n], before, Dedup(events[..n]));
      at := if StartedEarlier(events[..n], events[n]) then before else before + [n];
    }
  }

  lemma NothingHeld()
    ensures HeldAt([], [], Dedup([])) && AreKept([], [])
  {}

  lemma KeptNext(before: seq<Event>, e: Event, at: seq<nat>, held: seq<Event>)
    requires HeldAt(before, at, held) && AreKept(before, at)
    ensures var all, more := before + [e], if StartedEarlier(before, e) then at else at + [|before|];
            HeldAt(all, more, if StartedEarlier(before, e) then held else held + [e]) && AreKept(all, more)
  {
    hide *;
    HeldNext(before, e, at, held);
    PlacesNext(before, e, at);
  }

  lemma HeldNext(before: seq<Event>, e: Event, at: seq<nat>, held: seq<Event>)
    requires HeldAt(before, at, held)
    ensures HeldAt(before + [e], at, held) && HeldAt(before + [e], at + [|before|], held + [e])
  {
    var all, n, more, holds := before + [e], |before|, at + [|before|], held + [e];
    assert all[n] == e && forall i | 0 <= i < n :: all[i] == before[i];
    forall k | 0 <= k < |more| ensures more[k] < |all| && holds[k] == all[more[k]] {
      if k < |at| { assert more[k] == at[k] && holds[k] == held[k]; }
    }
  }

  lemma PlacesNext(before: seq<Event>, e: Event, at: seq<nat>)
    requires AreKept(before, at)
    ensures AreKept(before + [e], if StartedEarlier(before, e) then at else at + [|before|])
  {
    RepeatsLast(before, e);
    var all, n, more := before + [e], |before|, if StartedEarlier(before, e) then at else at + [|before|];
    hide Repeats, StartedEarlier;
    forall i: nat ensures i in more <==> i < |all| && !Repeats(all, i) {
      if i < n { RepeatsBefore(before, e, i); }
      assert i in at + [n] <==> i in at || i == n;
    }
  }

  lemma RepeatsBefore(before: seq<Event>, e: Event, i: nat)
    requires i < |before|
    ensures Repeats(before + [e], i) <==> Repeats(before, i)
  {
    assert forall j | 0 <= j <= i :: (before + [e])[j] == before[j];
  }

  lemma RepeatsLast(before: seq<Event>, e: Event)
    ensures Repeats(before + [e], |before|) <==> StartedEarlier(before, e)
  {
    assert forall j | 0 <= j < |before| :: (before + [e])[j] == before[j];
  }

  lemma MembersOne(before: seq<Event>, last: Event, kept: seq<Event>)
    requires forall e | e in before && HasCallId(e) :: StartedIn(kept, e.callId)
    requires StartedEarlier(before, last)
    ensures StartedIn(kept, last.callId)
  {
    var j :| 0 <= j < |before| && before[j].ToolStarted? && before[j].callId == last.callId;
    assert before[j] in before && HasCallId(before[j]);
  }

  lemma StartedInMore(kept: seq<Event>, last: Event, callId: Option<string>)
    requires StartedIn(kept, callId) || (last.ToolStarted? && last.callId == callId)
    ensures StartedIn(kept + [last], callId)
  {
    if StartedIn(kept, callId) {
      var s :| s in kept && s.ToolStarted? && s.callId == callId;
      assert s in kept + [last];
    } else {
      assert last in kept + [last];
    }
  }

  lemma {:induction false} DedupMembers(events: seq<Event>)
    ensures forall e | e in Dedup(events) :: e in events
    ensures forall e | e in events && !HasCallId(e) :: e in Dedup(events)
    ensures forall e | e in events && HasCallId(e) :: StartedIn(Dedup(events), e.callId)
    decreases |events|
  {
    if events == [] {
    } else {
      var before, last := events[..|events| - 1], events[|events| - 1];
      DedupMembers(before);
      var kept := Dedup(before);
      assert Dedup(events) == kept + if StartedEarlier(before, last) then [] else [last];
      hide Dedup, StartedIn;
      assert events == before + [last];
      if StartedEarlier(before, last) {
        MembersOne(before, last, kept);
        assert kept + [] == kept;
      } else {
        hide StartedEarlier;
        forall e | e in events && HasCallId(e) ensures StartedIn(kept + [last], e.callId) {
          StartedInMore(kept, last, e.callId);
        }
      }
    }
  }

  lemma StartsSnoc(before: seq<Event>, last: Event)
    ensures StartsDistinct(before + [last]) <==>
            StartsDistinct(before) && (HasCallId(last) ==> !StartedIn(before, last.callId))
  {
    var all := before + [last];
    assert forall i | 0 <= i < |before| :: all[i] == before[i];
    assert all[|before|] == last;
    if HasCallId(last) && StartedIn(before, last.callId) {
      var e :| e in before && e.ToolStarted? && e.callId == last.callId;
      var i :| 0 <= i < |before| && before[i] == e;
      assert HasCallId(all[i]) && HasCallId(all[|before|]);
    }
  }

  lemma EarlierIsStarted(before: seq<Event>, last: Event)
    ensures StartedEarlier(before, last) <==> HasCallId(last) && StartedIn(before, last.callId)
    ensures HasCallId(last) ==> (StartedIn(Dedup(before), last.callId) <==> StartedIn(before, last.callId))
  {
    DedupMembers(before);
    if HasCallId(last) && StartedIn(before, last.callId) {
      var e :| e in before && e.ToolStarted? && e.callId == last.callId;
    }
  }

  /** No non-empty call id is started twice, and something is dropped only when the input starts one twice. */
  lemma {:induction false} DedupKeepsFirstStarts(events: seq<Event>)
    ensures StartsDistinct(Dedup(events))
    ensures |Dedup(events)| <= |events| && (|Dedup(events)| == |events| <==> StartsDistinct(events))
  {
    if events == [] {
    } else {
      var before, last := events[..|events| - 1], events[|events| - 1];
      DedupKeepsFirstStarts(before);
      EarlierIsStarted(before, last);
      assert events == before + [last];
      StartsSnoc(before, last);
      StartsSnoc(Dedup(before), last);
      hide StartsDistinct, StartedIn, StartedEarlier, HasCallId;
      assert Dedup(before) + [] == Dedup(before);
    }
  }

  // ---- artifact pairing ----

  predicate SameArtifact(a: Artifact, b: Artifact) {
    a.id == b.id && a.name == b.name && a.kind == b.kind && a.relativePath == b.relativePath
  }

  ghost predicate StartedBefore(events: seq<Event>, a: Artifact) {
    exists e | e in events :: e.ArtifactStarted? && SameArtifact(e.artifact, a)
  }

  /** Every completed artifact was started before. */
  ghost predicate Paired(events: seq<Event>) {
    forall i | 0 <= i < |events| && events[i].ArtifactCompleted? :: StartedBefore(events[..i], events[i].artifact)
  }

  predicate AtMostOneStart(batch: seq<Event>) {
    forall i, j | 0 <= i < j < |batch| :: !(batch[i].ToolStarted? && batch[j].ToolStarted?)
  }

  /** A hook that invents neither artifact events nor tool starts, and repeats no tool start. */
  ghost predicate Passive<S(!new)>(hook: Hook<S>) {
    && (forall s: S, e: Event, o: Event | o in hook(s, e).1 ::
         o.ArtifactStarted? || o.ArtifactCompleted? || o.ToolStarted? ==> o == e)
    && forall s: S, e: Event :: AtMostOneStart(hook(s, e).1)
  }

  ghost predicate CacheAnnounced(d: Detector, cache: ArgumentCache, mid: seq<Event>) {
    forall key | key in cache ::
      var built := BuildArtifact(d, cache[key], "creating", false);
      built.Some? ==> ArtifactStarted(built.value) in mid
  }

  lemma NothingDetectedInNothing(d: Detector, status: string, inline: bool)
    ensures PickFirst(map[], PATH_KEYS) == None
  {}

  lemma PairedAppend(mid: seq<Event>, batch: seq<Event>)
    requires Paired(mid)
    requires forall i | 0 <= i < |batch| && batch[i].ArtifactCompleted? :: StartedBefore(mid, batch[i].artifact)
    ensures Paired(mid + batch)
  {
    var all := mid + batch;
    forall i | 0 <= i < |all| && all[i].ArtifactCompleted? ensures StartedBefore(all[..i], all[i].artifact) {
      if i < |mid| {
        assert all[..i] == mid[..i];
      } else {
        assert all[i] == batch[i - |mid|] && all[..i] == mid + batch[..i - |mid|];
        var e :| e in mid && e.ArtifactStarted? && SameArtifact(e.artifact, all[i].artifact);
        assert e in all[..i];
      }
    }
  }

  /** A start and a completion built from the same arguments name the same artifact. */
  lemma BuildAgrees(d: Detector, args: Arguments, status: string, inline: bool)
    ensures var started, done := BuildArtifact(d, args, "creating", false), BuildArtifact(d, args, status, inline);
            (started.Some? <==> done.Some?) && (done.Some? ==> SameArtifact(started.value, done.value))
  {}

  lemma PairedStep<S(!new)>(d: Detector, hook: Hook<S>, p: Pipe<S>, e: Event)
    requires Passive(hook) && !e.ArtifactStarted? && !e.ArtifactCompleted?
    requires Paired(p.mid) && CacheAnnounced(d, p.cache, p.mid)
    ensures var q := Feed(d, hook, p, e); Paired(q.mid) && CacheAnnounced(d, q.cache, q.mid)
  {
    hide BuildArtifact, PATH_KEYS, CONTENT_KEYS;
    var hooked, artifacts := hook(p.state, e), OnArtifact(d, p.cache, e);
    var batch := hooked.1 + artifacts.1;
    if e.ToolResponse? && e.tool == "write" {
      var key := CallKey(e.callId);
      if key in p.cache {
        BuildAgrees(d, p.cache[key], if e.isError then "error" else "ready", !e.isError);
      } else {
        assert BuildArtifact(d, map[], if e.isError then "error" else "ready", !e.isError).None? by {
          NothingBuilt(d, if e.isError then "error" else "ready", !e.isError);
        }
      }
    }
    forall i | 0 <= i < |batch| && batch[i].ArtifactCompleted? ensures StartedBefore(p.mid, batch[i].artifact) {
      assert batch[i] in hooked.1 || batch[i] in artifacts.1;
    }
    PairedAppend(p.mid, batch);
    assert forall o | o in artifacts.1 :: o in p.mid + batch;
  }

  lemma NothingBuilt(d: Detector, status: string, inline: bool)
    ensures BuildArtifact(d, map[], status, inline).None?
  {
    NothingDetectedInNothing(d, status, inline);
  }

  lemma {:induction false} PipelinePaired<S(!new)>(d: Detector, hook: Hook<S>, begin: S, events: seq<Event>)
    requires Passive(hook)
    requires forall e | e in events :: !e.ArtifactStarted? && !e.ArtifactCompleted?
    ensures var p := Pipeline(d, hook, begin, events); Paired(p.mid) && CacheAnnounced(d, p.cache, p.mid)
  {
    if events == [] {
    } else {
      PipelinePaired(d, hook, begin, events[..|events| - 1]);
      PairedStep(d, hook, Pipeline(d, hook, begin, events[..|events| - 1]), events[|events| - 1]);
    }
  }

  lemma {:induction false} PairedSurvivesErase(events: seq<Event>)
    ensures Paired(events) <==> Paired(Erase(events))
  {
    if events == [] {
    } else {
      var before, last := events[..|events| - 1], events[|events| - 1];
      PairedSurvivesErase(before);
      PairedSnoc(before, last);
      assert events == before + [last];
      if last.SessionUsage? {
        assert Erase(before) + [] == Erase(before);
      } else {
        PairedSnoc(Erase(before), last);
        ErasedHasNoUsage(before);
      }
    }
  }

  lemma PairedSnoc(before: seq<Event>, last: Event)
    ensures Paired(before + [last]) <==>
            Paired(before) && (last.ArtifactCompleted? ==> StartedBefore(before, last.artifact))
  {
    var all := before + [last];
    assert forall i | 0 <= i <= |before| :: all[..i] == before[..i];
    assert all[..|before|] == before;
    assert forall i | 0 <= i < |before| :: all[i] == before[i];
  }

  /** In a turn's output every completed artifact follows a start with the same id, name, kind and path. */
  lemma ArtifactsPaired<S(!new)>(d: Detector, hook: Hook<S>, begin: S, mapped: seq<Event>, failed: bool)
    requires Passive(hook)
    requires forall e | e in mapped :: !e.ArtifactStarted? && !e.ArtifactCompleted?
    ensures Paired(TurnOutput(Pipeline(d, hook, begin, Dedup(mapped)).mid, failed))
  {
    DedupMembers(mapped);
    PipelinePaired(d, hook, begin, Dedup(mapped));
    hide Paired, TurnOutput, Pipeline;
    var mid := Pipeline(d, hook, begin, Dedup(mapped)).mid;
    PairedSurvivesErase(mid);
    ErasedOutput(mid, failed);
    PairedSurvivesErase(TurnOutput(mid, failed));
  }

  // ---- tool starts in the output ----

  lemma StartsStep<S(!new)>(d: Detector, hook: Hook<S>, p: Pipe<S>, e: Event)
    requires Passive(hook) && StartsDistinct(p.mid) && (HasCallId(e) ==> !StartedIn(p.mid, e.callId))
    ensures var q := Feed(d, hook, p, e);
            StartsDistinct(q.mid)
            && forall id | StartedIn(q.mid, id) :: StartedIn(p.mid, id) || (e.ToolStarted? && e.callId == id)
  {
    var hooked, artifacts := hook(p.state, e), OnArtifact(d, p.cache, e);
    hide BuildArtifact, PATH_KEYS, CONTENT_KEYS;
    var batch := hooked.1 + artifacts.1;
    assert forall o | o in artifacts.1 :: !o.ToolStarted?;
    assert forall o | o in batch :: o in hooked.1 || o in artifacts.1;
    assert forall o | o in batch && o.ToolStarted? :: o == e;
    assert AtMostOneStart(hooked.1);
    assert forall i | |hooked.1| <= i < |batch| :: batch[i] in artifacts.1;
    StartsAppend(p.mid, batch, e);
  }

  lemma StartsAppend(mid: seq<Event>, batch: seq<Event>, e: Event)
    requires StartsDistinct(mid) && (HasCallId(e) ==> !StartedIn(mid, e.callId))
    requires forall o | o in batch && o.ToolStarted? :: o == e
    requires AtMostOneStart(batch)
    ensures StartsDistinct(mid + batch)
    ensures forall id | StartedIn(mid + batch, id) :: StartedIn(mid, id) || (e.ToolStarted? && e.callId == id)
  {
    var all := mid + batch;
    forall i, j | 0 <= i < j < |all| && HasCallId(all[i]) && HasCallId(all[j]) ensures all[i].callId != all[j].callId {
      if j >= |mid| {
        assert all[j] == batch[j - |mid|] && all[j] in batch;
        if i < |mid| {
          assert all[i] == mid[i] && mid[i] in mid;
        }
      }
    }
    forall id | StartedIn(all, id) ensures StartedIn(mid, id) || (e.ToolStarted? && e.callId == id) {
      var o :| o in all && o.ToolStarted? && o.callId == id;
      assert o in mid || o in batch;
    }
  }

  lemma {:induction false} PipelineStarts<S(!new)>(d: Detector, hook: Hook<S>, begin: S, events: seq<Event>)
    requires Passive(hook) && StartsDistinct(events)
    ensures var mid := Pipeline(d, hook, begin, events).mid;
            StartsDistinct(mid) && forall id | StartedIn(mid, id) :: StartedIn(events, id)
  {
    if events == [] {
    } else {
      var before, last := events[..|events| - 1], events[|events| - 1];
      assert events == before + [last];
      StartsSnoc(before, last);
      PipelineStarts(d, hook, begin, before);
      StartsStep(d, hook, Pipeline(d, hook, begin, before), last);
      hide StartsDistinct;
      assert last in events && forall e | e in before :: e in events;
    }
  }

  lemma {:induction false} StartsSurviveErase(events: seq<Event>)
    ensures StartsDistinct(events) <==> StartsDistinct(Erase(events))
  {
    if events == [] {
    } else {
      var before, last := events[..|events| - 1], events[|events| - 1];
      StartsSurviveErase(before);
      assert events == before + [last];
      StartsSnoc(before, last);
      StartsSnoc(Erase(before), last);
      ErasedHasNoUsage(before);
      hide StartsDistinct;
      assert Erase(before) + [] == Erase(before);
    }
  }

  /** In a turn's output no non-empty tool call id is started twice. */
  lemma OutputStartsDistinct<S(!new)>(d: Detector, hook: Hook<S>, begin: S, mapped: seq<Event>, failed: bool)
    requires Passive(hook)
    ensures StartsDistinct(TurnOutput(Pipeline(d, hook, begin, Dedup(mapped)).mid, failed))
  {
    DedupKeepsFirstStarts(mapped);
    PipelineStarts(d, hook, begin, Dedup(mapped));
    hide StartsDistinct, TurnOutput, Pipeline;
    var mid := Pipeline(d, hook, begin, Dedup(mapped)).mid;
    StartsSurviveErase(mid);
    ErasedOutput(mid, failed);
    StartsSurviveErase(TurnOutput(mid, failed));
  }
}
