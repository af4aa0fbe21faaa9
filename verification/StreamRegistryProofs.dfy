/** What subscribers receive over whole runs of the registry, across sessions, restarts and generations. */
module StreamRegistryProofs {
  import opened Text
  import opened StreamRegistry

  datatype Op =
    | Start(sid: string)
    | TryStart(sid: string)
    | Push(sid: string, event: Event, gen: nat)
    | End(sid: string)
    | Release(sid: string, gen: nat)
    | Sub(sid: string, q: nat)
    | Unsub(sid: string, q: nat)
    | Clean(sid: string)

  function Apply(r: Registry, op: Op): Registry {
    match op
    case Start(sid) => AfterStart(r, sid)
    case TryStart(sid) => if IsActive(r, sid) then r else AfterStart(r, sid)
    case Push(sid, event, gen) => AfterPush(r, sid, event, gen)
    case End(sid) => AfterEnd(r, sid)
    case Release(sid, gen) => AfterRelease(r, sid, gen)
    case Sub(sid, q) => AfterSubscribe(r, sid, q)
    case Unsub(sid, q) => AfterUnsubscribe(r, sid, q)
    case Clean(sid) => AfterCleanup(r, sid)
  }

  function Run(r: Registry, ops: seq<Op>): Registry {
    if ops == [] then r else Apply(Run(r, ops[..|ops| - 1]), ops[|ops| - 1])
  }

  /** Every subscription brings a queue object the registry has not seen before. */
  ghost predicate Legal(r: Registry, ops: seq<Op>) {
    forall i | 0 <= i < |ops| && ops[i].Sub? :: ops[i].q !in Run(r, ops[..i]).queues
  }

  lemma LegalPrefix(r: Registry, ops: seq<Op>)
    requires Legal(r, ops) && ops != []
    ensures Legal(r, ops[..|ops| - 1])
    ensures ops[|ops| - 1].Sub? ==> ops[|ops| - 1].q !in Run(r, ops[..|ops| - 1]).queues
  {
    var before := ops[..|ops| - 1];
    assert forall i | 0 <= i < |before| :: before[..i] == ops[..i] && before[i] == ops[i];
  }

  /** Queues listed are real, listed once, and belong to one session. */
  ghost predicate Owned(r: Registry) {
    && Listed(r)
    && forall a, b, q |
         a in r.subscribers && b in r.subscribers && q in r.subscribers[a] && q in r.subscribers[b] :: a == b
  }

  lemma OwnedStep(r: Registry, op: Op)
    requires Owned(r) && (op.Sub? ==> op.q !in r.queues)
    ensures Owned(Apply(r, op)) && r.queues.Keys <= Apply(r, op).queues.Keys
  {
    match op
    case Unsub(sid, q) =>
      if q in Subscribers(r, sid) {
        WithoutIs(r.subscribers[sid], q);
      }
    case _ =>
  }

  lemma {:induction false} RunOwned(r: Registry, ops: seq<Op>)
    requires Owned(r) && Legal(r, ops)
    ensures Owned(Run(r, ops)) && r.queues.Keys <= Run(r, ops).queues.Keys
  {
    if ops == [] {
    } else {
      LegalPrefix(r, ops);
      RunOwned(r, ops[..|ops| - 1]);
      OwnedStep(Run(r, ops[..|ops| - 1]), ops[|ops| - 1]);
    }
  }

  // ---- a live stream ----

  function Wrap(events: seq<Event>): seq<Item> {
    seq(|events|, i requires 0 <= i < |events| => Pushed(events[i]))
  }

  /** The steps that end this generation's stream: a start, an end, a release by its owner, or a cleanup. */
  predicate Closes(op: Op, sid: string, gen: nat) {
    op.sid == sid && (op.Start? || op.End? || op.Clean? || (op.Release? && op.gen == gen))
  }

  ghost predicate Closed(ops: seq<Op>, sid: string, gen: nat) {
    exists i | 0 <= i < |ops| :: Closes(ops[i], sid, gen)
  }

  predicate Says(op: Op, sid: string, gen: nat) {
    op.Push? && op.sid == sid && op.gen == gen
  }

  /** The events of the live stream: its pushes up to the step that ends it. */
  ghost function Heard(ops: seq<Op>, sid: string, gen: nat): seq<Event> {
    if ops == [] then []
    else
      var before, last := ops[..|ops| - 1], ops[|ops| - 1];
      if !Closed(before, sid, gen) && Says(last, sid, gen) then Heard(before, sid, gen) + [last.event]
      else Heard(before, sid, gen)
  }

  /** The subscriber stays: nobody takes its queue off the list. */
  predicate Stays(ops: seq<Op>, sid: string, q: nat) {
    forall i | 0 <= i < |ops| :: !(ops[i].Unsub? && ops[i].sid == sid && ops[i].q == q)
  }

  ghost predicate Live(r: Registry, sid: string, gen: nat) {
    IsActive(r, sid) && sid in r.buffers && Current(r, sid, gen)
  }

  lemma ClosedBefore(ops: seq<Op>, sid: string, gen: nat)
    requires ops != []
    ensures Closed(ops, sid, gen) <==> Closed(ops[..|ops| - 1], sid, gen) || Closes(ops[|ops| - 1], sid, gen)
  {
    var before := ops[..|ops| - 1];
    assert forall i | 0 <= i < |before| :: before[i] == ops[i];
  }

  lemma LiveStep(r: Registry, op: Op, sid: string, gen: nat)
    requires Live(r, sid, gen) && !Closes(op, sid, gen)
    ensures Live(Apply(r, op), sid, gen)
    ensures Apply(r, op).buffers[sid] == if Says(op, sid, gen) then r.buffers[sid] + [op.event] else r.buffers[sid]
  {}

  /** While nothing ends it, a stream stays live and its buffer grows by exactly its pushes, whoever is subscribed. */
  lemma {:induction false} BufferFollowsPushes(r: Registry, ops: seq<Op>, sid: string, gen: nat)
    requires Live(r, sid, gen) && !Closed(ops, sid, gen)
    ensures var s := Run(r, ops); Live(s, sid, gen) && s.buffers[sid] == r.buffers[sid] + Heard(ops, sid, gen)
    decreases |ops|
  {
    if ops == [] {
      assert r.buffers[sid] + [] == r.buffers[sid];
    } else {
      ClosedBefore(ops, sid, gen);
      BufferFollowsPushes(r, ops[..|ops| - 1], sid, gen);
      LiveStep(Run(r, ops[..|ops| - 1]), ops[|ops| - 1], sid, gen);
      hide Apply, Live, Closed;
    }
  }

  lemma QueueStep(r: Registry, op: Op, sid: string, gen: nat, q: nat)
    requires Owned(r) && Live(r, sid, gen) && !Closes(op, sid, gen) && q in Subscribers(r, sid)
    requires (op.Sub? ==> op.q !in r.queues) && Stays([op], sid, q)
    ensures q in Subscribers(Apply(r, op), sid)
    ensures Apply(r, op).queues[q] ==
            if Says(op, sid, gen) then r.queues[q] + [Pushed(op.event)] else r.queues[q]
  {
    assert [op][0] == op;
    if op.Unsub? && op.sid == sid && op.q in Subscribers(r, sid) {
      WithoutIs(r.subscribers[sid], op.q);
    }
    if op.sid != sid {
      assert q !in Subscribers(r, op.sid);
    }
  }

  /** While nothing ends the stream, a queue that stays subscribed grows by exactly its pushes. */
  lemma {:induction false} LiveQueuesFollowBuffer(r: Registry, ops: seq<Op>, sid: string, gen: nat, q: nat)
    requires Owned(r) && Legal(r, ops) && Live(r, sid, gen) && !Closed(ops, sid, gen)
    requires q in Subscribers(r, sid) && Stays(ops, sid, q)
    ensures var s := Run(r, ops);
            Owned(s) && Live(s, sid, gen) && q in Subscribers(s, sid)
            && s.queues[q] == r.queues[q] + Wrap(Heard(ops, sid, gen))
    decreases |ops|
  {
    if ops == [] {
      assert r.queues[q] + Wrap([]) == r.queues[q];
    } else {
      var before, op := ops[..|ops| - 1], ops[|ops| - 1];
      LegalPrefix(r, ops);
      ClosedBefore(ops, sid, gen);
      assert forall i | 0 <= i < |before| :: before[i] == ops[i];
      LiveQueuesFollowBuffer(r, before, sid, gen, q);
      var s := Run(r, before);
      RunOwned(r, before);
      LiveStep(s, op, sid, gen);
      assert [op][0] == op;
      QueueStep(s, op, sid, gen, q);
      OwnedStep(s, op);
      hide Apply, Owned, Live, Closed, Stays, Legal;
      WrapNext(r.queues[q], Heard(before, sid, gen), op);
    }
  }

  lemma WrapNext(items: seq<Item>, events: seq<Event>, op: Op)
    ensures op.Push? ==> items + Wrap(events) + [Pushed(op.event)] == items + Wrap(events + [op.event])
  {}

  function Queue(r: Registry, q: nat): seq<Item> {
    if q in r.queues then r.queues[q] else []
  }

  /** What a reader that stops at the first sentinel gets. */
  function Delivered(items: seq<Item>): seq<Event> {
    if items == [] || items[0].Sentinel? then [] else [items[0].event] + Delivered(items[1..])
  }

  lemma {:induction false} DeliveredOfWrap(events: seq<Event>, rest: seq<Item>)
    requires rest == [] || rest[0].Sentinel?
    ensures Delivered(Wrap(events) + rest) == events
  {
    if events == [] {
      assert Wrap(events) + rest == rest;
    } else {
      assert (Wrap(events) + rest)[1..] == Wrap(events[1..]) + rest;
      DeliveredOfWrap(events[1..], rest);
    }
  }

  /** A late subscriber of a live stream gets exactly the buffer from its subscription on, while nothing ends it. */
  lemma SubscriberGetsBufferSlice(r: Registry, sid: string, gen: nat, q: nat, ops: seq<Op>)
    requires Owned(r) && Live(r, sid, gen) && q !in r.queues
    requires Legal(AfterSubscribe(r, sid, q), ops) && !Closed(ops, sid, gen) && Stays(ops, sid, q)
    ensures var end := Run(AfterSubscribe(r, sid, q), ops);
            |r.buffers[sid]| <= |Buffered(end, sid)|
            && Queue(end, q) == Wrap(Buffered(end, sid)[|r.buffers[sid]|..])
            && r.buffers[sid] + Delivered(Queue(end, q)) == Buffered(end, sid)
  {
    var s := AfterSubscribe(r, sid, q);
    OwnedStep(r, Sub(sid, q));
    LiveQueuesFollowBuffer(s, ops, sid, gen, q);
    BufferFollowsPushes(s, ops, sid, gen);
    var end := Run(s, ops);
    var news := Heard(ops, sid, gen);
    hide Run, Heard, Owned, Legal, Closed;
    assert Queue(end, q) == [] + Wrap(news) == Wrap(news) == Wrap(news) + [];
    assert Buffered(end, sid)[|r.buffers[sid]|..] == news;
    DeliveredOfWrap(news, []);
  }

  // ---- after the end ----

  lemma {:induction false} DeliveredFrozen(items: seq<Item>, more: seq<Item>)
    requires Sentinel in items
    ensures Delivered(items + more) == Delivered(items)
  {
    if !items[0].Sentinel? {
      assert (items + more)[1..] == items[1..] + more;
      DeliveredFrozen(items[1..], more);
    }
  }

  /** Every step only ever adds to a queue. */
  lemma QueueGrows(r: Registry, op: Op, q: nat) returns (more: seq<Item>)
    requires q in r.queues && (op.Sub? ==> op.q !in r.queues)
    ensures q in Apply(r, op).queues && Apply(r, op).queues[q] == r.queues[q] + more
  {
    more := Apply(r, op).queues[q][|r.queues[q]|..];
  }

  /** Once the stream has ended for a subscriber, nothing that happens later changes what it delivers. */
  lemma {:induction false} EndedStaysEnded(r: Registry, ops: seq<Op>, q: nat)
    requires q in r.queues && Sentinel in r.queues[q] && Owned(r) && Legal(r, ops)
    ensures var s := Run(r, ops);
            q in s.queues && Sentinel in s.queues[q] && Delivered(s.queues[q]) == Delivered(r.queues[q])
  {
    if ops == [] {
    } else {
      LegalPrefix(r, ops);
      EndedStaysEnded(r, ops[..|ops| - 1], q);
      var s, op := Run(r, ops[..|ops| - 1]), ops[|ops| - 1];
      var more := QueueGrows(s, op, q);
      DeliveredFrozen(s.queues[q], more);
    }
  }

  /** Ending, restarting or releasing the live stream closes each of its queues with one sentinel. */
  lemma EndingClosesQueues(r: Registry, op: Op, sid: string, gen: nat, q: nat)
    requires Owned(r) && Live(r, sid, gen) && q in Subscribers(r, sid) && op.sid == sid
    requires op.End? || op.Start? || (op.Release? && op.gen == gen)
    ensures Apply(r, op).queues[q] == r.queues[q] + [Sentinel]
    ensures !IsActive(Apply(r, op), sid) <==> !op.Start?
  {}

  /** No list holds the queue. */
  ghost predicate Detached(r: Registry, q: nat) {
    q in r.queues && forall sid | sid in r.subscribers :: q !in r.subscribers[sid]
  }

  lemma DetachedStep(r: Registry, op: Op, q: nat)
    requires Owned(r) && Detached(r, q) && (op.Sub? ==> op.q !in r.queues)
    ensures Detached(Apply(r, op), q) && Apply(r, op).queues[q] == r.queues[q]
  {
    if op.Unsub? && op.q in Subscribers(r, op.sid) {
      WithoutIs(r.subscribers[op.sid], op.q);
    }
  }

  /** Restarting a live stream gives its old subscribers a sentinel and, ever after, nothing at all. */
  lemma {:induction false} RestartDetachesOldSubscribers(r: Registry, sid: string, gen: nat, q: nat, ops: seq<Op>)
    requires Owned(r) && Live(r, sid, gen) && q in Subscribers(r, sid) && Legal(AfterStart(r, sid), ops)
    ensures Detached(Run(AfterStart(r, sid), ops), q)
    ensures Run(AfterStart(r, sid), ops).queues[q] == r.queues[q] + [Sentinel]
  {
    if ops == [] {
      EndingClosesQueues(r, Start(sid), sid, gen, q);
    } else {
      LegalPrefix(AfterStart(r, sid), ops);
      RestartDetachesOldSubscribers(r, sid, gen, q, ops[..|ops| - 1]);
      OwnedStep(r, Start(sid));
      RunOwned(AfterStart(r, sid), ops[..|ops| - 1]);
      DetachedStep(Run(AfterStart(r, sid), ops[..|ops| - 1]), ops[|ops| - 1], q);
    }
  }

  // ---- reconnecting ----

  /** The stream is ended by a step that closes its queues, not by a bare cleanup. */
  ghost predicate EndsProperly(ops: seq<Op>, sid: string, gen: nat) {
    exists i | 0 <= i < |ops| ::
      Closes(ops[i], sid, gen) && !ops[i].Clean? && !Closed(ops[..i], sid, gen)
  }

  lemma EndsBefore(ops: seq<Op>, sid: string, gen: nat)
    requires EndsProperly(ops, sid, gen)
    ensures Closed(ops, sid, gen) && ops != []
    ensures var before, op := ops[..|ops| - 1], ops[|ops| - 1];
            EndsProperly(before, sid, gen) || (!Closed(before, sid, gen) && Closes(op, sid, gen) && !op.Clean?)
  {
    var before := ops[..|ops| - 1];
    var i :| 0 <= i < |ops| && Closes(ops[i], sid, gen) && !ops[i].Clean? && !Closed(ops[..i], sid, gen);
    if i < |before| {
      assert before[i] == ops[i] && before[..i] == ops[..i];
    }
  }

  /** Whoever subscribes to a live stream and stays hears all of it from then on, and then its end. */
  lemma {:induction false} SubscriberHearsAll(r: Registry, ops: seq<Op>, sid: string, gen: nat, q: nat)
    requires Owned(r) && Legal(r, ops) && Live(r, sid, gen) && EndsProperly(ops, sid, gen)
    requires q in Subscribers(r, sid) && r.queues[q] == [] && Stays(ops, sid, q)
    ensures var s := Run(r, ops);
            q in s.queues && Sentinel in s.queues[q] && Delivered(s.queues[q]) == Heard(ops, sid, gen)
    decreases |ops|
  {
    EndsBefore(ops, sid, gen);
    var before, op := ops[..|ops| - 1], ops[|ops| - 1];
    assert forall i | 0 <= i < |before| :: before[i] == ops[i];
    LegalPrefix(r, ops);
    RunOwned(r, before);
    var s := Run(r, before);
    if EndsProperly(before, sid, gen) {
      EndsBefore(before, sid, gen);
      SubscriberHearsAll(r, before, sid, gen, q);
      var more := QueueGrows(s, op, q);
      DeliveredFrozen(s.queues[q], more);
    } else {
      LiveQueuesFollowBuffer(r, before, sid, gen, q);
      EndingClosesQueues(s, op, sid, gen, q);
      var news := Heard(before, sid, gen);
      assert [] + Wrap(news) == Wrap(news);
      DeliveredOfWrap(news, [Sentinel]);
    }
    hide Apply, Owned, Live, Legal, Stays, EndsProperly, Closed;
  }

  /** A reader that took its snapshot in r and subscribed after the gap: it has the whole stream, and its end. */
  ghost predicate Served(r: Registry, sid: string, gen: nat, gap: seq<Op>, q: nat, rest: seq<Op>)
    requires sid in r.buffers
  {
    var queue := Queue(Run(AfterSubscribe(Run(r, gap), sid, q), rest), q);
    r.buffers[sid] + Delivered(queue) == r.buffers[sid] + Heard(gap + [Sub(sid, q)] + rest, sid, gen)
    && Sentinel in queue
  }

  /** What may follow the subscription: the reader stays, and the stream, if it is still live, ends some time. */
  ghost predicate Continues(t: Registry, sid: string, gen: nat, q: nat, rest: seq<Op>) {
    && Legal(AfterSubscribe(t, sid, q), rest) && Stays(rest, sid, q)
    && (Live(t, sid, gen) ==> EndsProperly(rest, sid, gen))
  }

  ghost predicate Guaranteed(r: Registry, sid: string, gen: nat, gap: seq<Op>, q: nat)
    requires sid in r.buffers
  {
    forall rest: seq<Op> | Continues(Run(r, gap), sid, gen, q, rest) :: Served(r, sid, gen, gap, q, rest)
  }

  /** Neither a push of the stream nor an end of it. */
  predicate Untouched(ops: seq<Op>, sid: string, gen: nat) {
    forall i | 0 <= i < |ops| :: !Says(ops[i], sid, gen) && !Closes(ops[i], sid, gen)
  }

  lemma HeardNext(ops: seq<Op>, op: Op, sid: string, gen: nat)
    ensures Heard(ops + [op], sid, gen) ==
            Heard(ops, sid, gen) + if !Closed(ops, sid, gen) && Says(op, sid, gen) then [op.event] else []
    ensures Closed(ops + [op], sid, gen) <==> Closed(ops, sid, gen) || Closes(op, sid, gen)
  {
    assert (ops + [op])[..|ops|] == ops;
    ClosedBefore(ops + [op], sid, gen);
    hide Closed;
  }

  lemma NothingHeard(sid: string, gen: nat)
    ensures Heard([], sid, gen) == [] && !Closed([], sid, gen)
  {}

  lemma {:induction false} HeardAfter(a: seq<Op>, b: seq<Op>, sid: string, gen: nat)
    ensures Heard(a + b, sid, gen) ==
            Heard(a, sid, gen) + if Closed(a, sid, gen) then [] else Heard(b, sid, gen)
    ensures Closed(a + b, sid, gen) <==> Closed(a, sid, gen) || Closed(b, sid, gen)
    decreases |b|
  {
    hide *;
    if b == [] {
      assert a + b == a;
      NothingHeard(sid, gen);
      assert Heard(a, sid, gen) + [] == Heard(a, sid, gen);
    } else {
      var before, op := b[..|b| - 1], b[|b| - 1];
      HeardAfter(a, before, sid, gen);
      HeardNext(a + before, op, sid, gen);
      HeardNext(before, op, sid, gen);
      assert a + b == a + before + [op] && b == before + [op];
      var heard, more := Heard(a, sid, gen), Heard(before, sid, gen);
      assert heard + more + [] == heard + more && heard + [] == heard && more + [] == more;
      if op.Push? {
        assert heard + more + [op.event] == heard + (more + [op.event]);
      }
    }
  }

  lemma {:induction false} UntouchedHears(ops: seq<Op>, sid: string, gen: nat)
    ensures Untouched(ops, sid, gen) <==> !Closed(ops, sid, gen) && Heard(ops, sid, gen) == []
    decreases |ops|
  {
    if ops == [] {
    } else {
      UntouchedHears(ops[..|ops| - 1], sid, gen);
      ClosedBefore(ops, sid, gen);
      assert forall i | 0 <= i < |ops| - 1 :: ops[..|ops| - 1][i] == ops[i];
    }
  }

  /** What the reader of a gap missed, and what it is yet to hear. */
  lemma WholeStream(gap: seq<Op>, sid: string, gen: nat, q: nat, rest: seq<Op>)
    ensures Heard(gap + [Sub(sid, q)] + rest, sid, gen) ==
            Heard(gap, sid, gen) + if Closed(gap, sid, gen) then [] else Heard(rest, sid, gen)
  {
    HeardNext(gap, Sub(sid, q), sid, gen);
    HeardAfter(gap + [Sub(sid, q)], rest, sid, gen);
    hide Closed, Heard;
    assert Heard(gap, sid, gen) + [] == Heard(gap, sid, gen);
  }

  lemma UntouchedIsServed(r: Registry, sid: string, gen: nat, gap: seq<Op>, q: nat, rest: seq<Op>)
    requires Owned(r) && Live(r, sid, gen) && Legal(r, gap) && q !in Run(r, gap).queues
    requires Untouched(gap, sid, gen) && Continues(Run(r, gap), sid, gen, q, rest)
    ensures Served(r, sid, gen, gap, q, rest)
  {
    UntouchedHears(gap, sid, gen);
    BufferFollowsPushes(r, gap, sid, gen);
    RunOwned(r, gap);
    var t := Run(r, gap);
    OwnedStep(t, Sub(sid, q));
    WholeStream(gap, sid, gen, q, rest);
    hide Owned, Legal, Run, Heard, Closed, Untouched, EndsProperly, Delivered, Stays;
    SubscriberHearsAll(AfterSubscribe(t, sid, q), rest, sid, gen, q);
    assert [] + Heard(rest, sid, gen) == Heard(rest, sid, gen);
  }

  lemma OneEnds(sid: string, gen: nat)
    ensures EndsProperly([End(sid)], sid, gen) && Heard([End(sid)], sid, gen) == []
    ensures forall event: Event :: EndsProperly([Push(sid, event, gen), End(sid)], sid, gen)
                                   && Heard([Push(sid, event, gen), End(sid)], sid, gen) == [event]
  {
    var one := [End(sid)];
    assert !Closed([], sid, gen) && one[..0] == [] && Closes(one[0], sid, gen);
    forall event: Event
      ensures EndsProperly([Push(sid, event, gen), End(sid)], sid, gen)
      ensures Heard([Push(sid, event, gen), End(sid)], sid, gen) == [event]
    {
      var push := [Push(sid, event, gen)];
      var two := [Push(sid, event, gen), End(sid)];
      assert two[..1] == push && push[..0] == [] && push == [] + push;
      HeardNext([], push[0], sid, gen);
      HeardNext(push, End(sid), sid, gen);
      assert two == push + [End(sid)] && !Closed(push, sid, gen);
      assert Closes(two[1], sid, gen);
    }
  }

  /** A continuation that shows a touched gap up. */
  lemma TouchedIsNotServed(r: Registry, sid: string, gen: nat, gap: seq<Op>, q: nat) returns (rest: seq<Op>)
    requires Owned(r) && Live(r, sid, gen) && Legal(r, gap) && q !in Run(r, gap).queues
    requires !Untouched(gap, sid, gen)
    ensures Continues(Run(r, gap), sid, gen, q, rest) && !Served(r, sid, gen, gap, q, rest)
  {
    UntouchedHears(gap, sid, gen);
    RunOwned(r, gap);
    OneEnds(sid, gen);
    var t := Run(r, gap);
    OwnedStep(t, Sub(sid, q));
    var s := AfterSubscribe(t, sid, q);
    assert Run(s, []) == s && s.queues[q] == [];
    rest := if !Live(t, sid, gen) then []
            else if Heard(gap, sid, gen) != [] then [End(sid)]
            else [Push(sid, "", gen), End(sid)];
    assert Legal(s, rest) && Stays(rest, sid, q);
    NotServed(r, sid, gen, gap, q, rest);
  }

  lemma NotServed(r: Registry, sid: string, gen: nat, gap: seq<Op>, q: nat, rest: seq<Op>)
    requires sid in r.buffers && q !in Run(r, gap).queues
    requires var t := Run(r, gap);
             Owned(AfterSubscribe(t, sid, q)) && Continues(t, sid, gen, q, rest)
             && if Live(t, sid, gen)
                then (Heard(gap, sid, gen) == [] <==> Heard(rest, sid, gen) != [])
                     && Live(AfterSubscribe(t, sid, q), sid, gen)
                     && (Closed(gap, sid, gen) || Heard(gap, sid, gen) != [])
                     && (Closed(gap, sid, gen) || Heard(rest, sid, gen) == [])
                else rest == []
    ensures !Served(r, sid, gen, gap, q, rest)
  {
    var t := Run(r, gap);
    var s := AfterSubscribe(t, sid, q);
    WholeStream(gap, sid, gen, q, rest);
    if Live(t, sid, gen) {
      hide Owned, Legal, Run, Heard, Closed, EndsProperly, Delivered, Stays, Live;
      SubscriberHearsAll(s, rest, sid, gen, q);
      DifferentText(r.buffers[sid], Heard(rest, sid, gen), Heard(gap + [Sub(sid, q)] + rest, sid, gen));
    } else {
      hide Owned, Legal, Heard, Closed, EndsProperly, Delivered, Stays, Live;
    }
  }

  lemma DifferentText<T>(a: seq<T>, b: seq<T>, c: seq<T>)
    ensures a + b == a + c <==> b == c
  {
    if a + b == a + c {
      assert (a + b)[|a|..] == b && (a + c)[|a|..] == c;
    }
  }

  /**
   Replaying a snapshot and subscribing after a gap is certain to show the whole stream and its end, whatever
   follows, if and only if neither a push of the stream nor an end of it falls into the gap.
   */
  lemma ReconnectCompleteExactly(r: Registry, sid: string, gen: nat, gap: seq<Op>, q: nat)
    requires Owned(r) && Live(r, sid, gen) && Legal(r, gap) && q !in Run(r, gap).queues
    ensures Guaranteed(r, sid, gen, gap, q) <==> Untouched(gap, sid, gen)
  {
    if Untouched(gap, sid, gen) {
      hide Owned, Legal, Run, Untouched, Continues, Served;
      forall rest: seq<Op> | Continues(Run(r, gap), sid, gen, q, rest) ensures Served(r, sid, gen, gap, q, rest) {
        UntouchedIsServed(r, sid, gen, gap, q, rest);
      }
    } else {
      hide Owned, Legal, Run, Untouched, Continues, Served;
      var rest := TouchedIsNotServed(r, sid, gen, gap, q);
    }
  }

  // ---- generations ----

  /** What the consumers of one session do, each in its own order: begin a stream, push, finish. */
  datatype Act = Begin(c: nat) | Say(c: nat, event: Event) | Finish(c: nat)

  /** How many consumers began since one last finished: finishing cleans up, which forgets the count. */
  function Number(acts: seq<Act>): nat {
    if acts == [] then 0
    else
      var before, last := acts[..|acts| - 1], acts[|acts| - 1];
      match last
      case Begin(_) => Number(before) + 1
      case Say(_, _) => Number(before)
      case Finish(_) => 0
  }

  /** The generation consumer c got when it began. */
  function GenerationOf(acts: seq<Act>, c: nat): nat {
    if acts == [] then 0
    else
      var before, last := acts[..|acts| - 1], acts[|acts| - 1];
      if last == Begin(c) then Number(acts) else GenerationOf(before, c)
  }

  /** Each consumer begins once and pushes and finishes only while it runs. */
  predicate ProgramOrder(acts: seq<Act>) {
    acts == []
    || (var before, last := acts[..|acts| - 1], acts[|acts| - 1];
        && ProgramOrder(before)
        && if last.Begin? then !Began(before, last.c) else Running(before, last.c))
  }

  predicate Began(acts: seq<Act>, c: nat) {
    exists i | 0 <= i < |acts| :: acts[i] == Begin(c)
  }

  predicate Finished(acts: seq<Act>, c: nat) {
    exists i | 0 <= i < |acts| :: acts[i] == Finish(c)
  }

  predicate Running(acts: seq<Act>, c: nat) {
    Began(acts, c) && !Finished(acts, c)
  }

  /** The registry as the consumers leave it; a consumer finishes by ending the stream and cleaning up. */
  function AfterActs(r: Registry, sid: string, acts: seq<Act>): Registry {
    if acts == [] then r
    else
      var before, last := acts[..|acts| - 1], acts[|acts| - 1];
      var s := AfterActs(r, sid, before);
      match last
      case Begin(c) => AfterStart(s, sid)
      case Say(c, event) => AfterPush(s, sid, event, GenerationOf(before, c))
      case Finish(c) => AfterCleanup(AfterEnd(s, sid), sid)
  }

  /** The registry's generation is the number of consumers that began since one last finished. */
  lemma {:induction false} GenerationIsNumber(r: Registry, sid: string, acts: seq<Act>)
    requires sid !in r.generation
    ensures var s := AfterActs(r, sid, acts);
            if Number(acts) == 0 then sid !in s.generation else sid in s.generation && s.generation[sid] == Number(acts)
    ensures sid in AfterActs(r, sid, acts).generation ==> sid in AfterActs(r, sid, acts).buffers
    decreases |acts|
  {
    if acts == [] {
    } else {
      GenerationIsNumber(r, sid, acts[..|acts| - 1]);
    }
  }

  lemma {:induction false} GenerationPositive(acts: seq<Act>, c: nat)
    requires Began(acts, c)
    ensures GenerationOf(acts, c) >= 1
    decreases |acts|
  {
    var before := acts[..|acts| - 1];
    if acts[|acts| - 1] != Begin(c) {
      assert forall i | 0 <= i < |before| :: before[i] == acts[i];
      GenerationPositive(before, c);
    }
  }

  /** A consumer's push is taken exactly when as many consumers began since the last finish as when it began. */
  lemma PushTakenExactly(r: Registry, sid: string, acts: seq<Act>, c: nat, event: Event)
    requires sid !in r.generation && Began(acts, c)
    ensures var s, after := AfterActs(r, sid, acts), AfterActs(r, sid, acts + [Say(c, event)]);
            if Number(acts) == GenerationOf(acts, c)
            then sid in s.buffers && after.buffers == s.buffers[sid := s.buffers[sid] + [event]]
            else after == s
  {
    GenerationIsNumber(r, sid, acts);
    GenerationPositive(acts, c);
    assert (acts + [Say(c, event)])[..|acts|] == acts;
    hide PutAll;
  }

  /** Consumer c began at i and another one began later. */
  predicate Superseded(acts: seq<Act>, i: nat)
    requires i < |acts|
  {
    exists j | i < j < |acts| :: acts[j].Begin?
  }

  predicate FinishSince(acts: seq<Act>, i: nat)
    requires i < |acts|
  {
    exists j | i < j < |acts| :: acts[j].Finish?
  }

  lemma {:induction false} NumberSince(acts: seq<Act>, i: nat)
    requires i < |acts| && !FinishSince(acts, i)
    ensures Number(acts) >= Number(acts[..i + 1])
    ensures Superseded(acts, i) <==> Number(acts) > Number(acts[..i + 1])
    decreases |acts|
  {
    if i + 1 == |acts| {
      assert acts[..i + 1] == acts;
    } else {
      var before := acts[..|acts| - 1];
      assert before[..i + 1] == acts[..i + 1];
      assert forall j | 0 <= j < |before| :: before[j] == acts[j];
      NumberSince(before, i);
    }
  }

  lemma {:induction false} GenerationAt(acts: seq<Act>, i: nat)
    requires ProgramOrder(acts) && i < |acts| && acts[i].Begin?
    ensures GenerationOf(acts, acts[i].c) == Number(acts[..i + 1]) && Began(acts, acts[i].c)
    decreases |acts|
  {
    if i + 1 == |acts| {
      assert acts[..i + 1] == acts;
    } else {
      var before := acts[..|acts| - 1];
      assert before[..i + 1] == acts[..i + 1] && before[i] == acts[i];
      GenerationAt(before, i);
    }
  }

  /**
   A consumer that another one superseded gets a push through if and only if some consumer finished since it began
   and as many have begun since the last finish as had when it began; one that is not superseded gets its pushes
   through if and only if none has finished since it began.
   */
  lemma IsolationExactly(r: Registry, sid: string, acts: seq<Act>, i: nat, event: Event)
    requires sid !in r.generation && ProgramOrder(acts) && i < |acts| && acts[i].Begin?
    ensures var after := AfterActs(r, sid, acts + [Say(acts[i].c, event)]);
            var taken := after != AfterActs(r, sid, acts);
            && (taken <==> Number(acts) == Number(acts[..i + 1]))
            && (Superseded(acts, i) ==> (taken <==> FinishSince(acts, i) && Number(acts) == Number(acts[..i + 1])))
            && (!Superseded(acts, i) ==> (taken <==> !FinishSince(acts, i)))
  {
    GenerationAt(acts, i);
    PushTakenExactly(r, sid, acts, acts[i].c, event);
    if !FinishSince(acts, i) { NumberSince(acts, i); }
    if FinishSince(acts, i) && !Superseded(acts, i) { NoneBegan(acts, i); }
    NumberPositive(acts, i);
    var s := AfterActs(r, sid, acts);
    hide AfterActs, Number, GenerationOf, ProgramOrder, Superseded, FinishSince;
    assert sid in s.buffers ==> |s.buffers[sid] + [event]| > |s.buffers[sid]|;
    assert sid in s.buffers ==> s.buffers[sid := s.buffers[sid] + [event]] != s.buffers by {
      if sid in s.buffers { assert s.buffers[sid := s.buffers[sid] + [event]][sid] != s.buffers[sid]; }
    }
  }

  lemma NumberPositive(acts: seq<Act>, i: nat)
    requires i < |acts| && acts[i].Begin?
    ensures Number(acts[..i + 1]) >= 1
  {
    assert acts[..i + 1][i] == acts[i];
  }

  lemma {:induction false} NoneBegan(acts: seq<Act>, i: nat)
    requires i < |acts| && FinishSince(acts, i) && !Superseded(acts, i)
    ensures Number(acts) == 0
    decreases |acts|
  {
    var before := acts[..|acts| - 1];
    if !acts[|acts| - 1].Finish? {
      var j :| i < j < |acts| && acts[j].Finish?;
      assert before[j] == acts[j];
      assert forall k | 0 <= k < |before| :: before[k] == acts[k];
      NoneBegan(before, i);
    }
  }

  lemma OrderNext(acts: seq<Act>, a: Act)
    requires ProgramOrder(acts) && if a.Begin? then !Began(acts, a.c) else Running(acts, a.c)
    ensures ProgramOrder(acts + [a])
  {
    assert (acts + [a])[..|acts|] == acts;
  }

  lemma NumberNext(acts: seq<Act>, a: Act, c: nat)
    ensures Number(acts + [a]) == if a.Begin? then Number(acts) + 1 else if a.Finish? then 0 else Number(acts)
    ensures GenerationOf(acts + [a], c) == if a == Begin(c) then Number(acts + [a]) else GenerationOf(acts, c)
  {
    assert (acts + [a])[..|acts|] == acts;
  }

  const OVERLAP := [Begin(0), Begin(1), Finish(1), Begin(2)]

  lemma OverlapIsOrdered(event: Event)
    ensures ProgramOrder(OVERLAP + [Say(0, event)]) && Superseded(OVERLAP, 0)
  {
    var a, b, c := [Begin(0)], [Begin(0), Begin(1)], [Begin(0), Begin(1), Finish(1)];
    assert [] + [Begin(0)] == a && a + [Begin(1)] == b && b + [Finish(1)] == c && c + [Begin(2)] == OVERLAP;
    hide ProgramOrder;
    assert ProgramOrder([]) by { NoActs(); }
    OrderNext([], Begin(0));
    OrderNext(a, Begin(1));
    assert b[1] == Begin(1);
    OrderNext(b, Finish(1));
    OrderNext(c, Begin(2));
    assert OVERLAP[0] == Begin(0) && OVERLAP[1].Begin?;
    OrderNext(OVERLAP, Say(0, event));
  }

  lemma NoActs()
    ensures ProgramOrder([]) && Number([]) == 0
  {}

  lemma OverlapNumbers(c: nat)
    ensures Number(OVERLAP) == 1
    ensures GenerationOf(OVERLAP, c) == if c == 2 || c == 0 then 1 else if c == 1 then 2 else 0
  {
    var a, b, d := [Begin(0)], [Begin(0), Begin(1)], [Begin(0), Begin(1), Finish(1)];
    assert [] + [Begin(0)] == a && a + [Begin(1)] == b && b + [Finish(1)] == d && d + [Begin(2)] == OVERLAP;
    assert Number([]) == 0 && GenerationOf([], c) == 0;
    hide Number, GenerationOf;
    NumberNext([], Begin(0), c);
    NumberNext(a, Begin(1), c);
    NumberNext(b, Finish(1), c);
    NumberNext(d, Begin(2), c);
  }

  /** The oldest of three consumers is still running when the second finishes and a third begins: the third gets the
      oldest one's number, and the oldest one's event lands in the third's stream. */
  lemma CleanupBreaksIsolation(sid: string, event: Event)
    ensures ProgramOrder(OVERLAP + [Say(0, event)]) && Superseded(OVERLAP, 0)
    ensures GenerationOf(OVERLAP, 0) == GenerationOf(OVERLAP, 2) == 1 && GenerationOf(OVERLAP, 1) == 2
    ensures var buffers := AfterActs(EMPTY, sid, OVERLAP + [Say(0, event)]).buffers;
            sid in buffers && buffers[sid] == [event]
  {
    OverlapIsOrdered(event);
    OverlapNumbers(0);
    OverlapNumbers(1);
    OverlapNumbers(2);
    LastBegan(sid);
    assert OVERLAP[0] == Begin(0);
    hide AfterActs, Number, GenerationOf, ProgramOrder, Superseded;
    PushTakenExactly(EMPTY, sid, OVERLAP, 0, event);
    assert [] + [event] == [event];
  }

  lemma LastBegan(sid: string)
    ensures var buffers := AfterActs(EMPTY, sid, OVERLAP).buffers; sid in buffers && buffers[sid] == []
  {
    assert OVERLAP[3] == Begin(2);
  }

  // ---- subscribing to a session without a stream ----

  ghost predicate Orphan(r: Registry, sid: string) {
    sid in r.subscribers && sid !in r.terminated && sid !in r.generation
  }

  /** Steps other than opening, ending or forgetting a stream of this session. */
  predicate Leaves(op: Op, sid: string) {
    op.sid == sid ==> op.Push? || op.TryStart? || op.Sub? || op.Unsub? || op.Release?
  }

  /**
   Subscribing after the stream was cleaned up makes the session look active for good: every attempt to start one
   politely is refused and no push is accepted, until somebody ends, forgets or forcibly starts a stream.
   */
  lemma {:induction false} OrphanSubscriptionBlocks(r: Registry, sid: string, q: nat, ops: seq<Op>)
    requires sid !in r.subscribers && sid !in r.terminated && sid !in r.generation
    requires forall i | 0 <= i < |ops| :: Leaves(ops[i], sid)
    ensures var s := Run(AfterSubscribe(r, sid, q), ops);
            Orphan(s, sid) && IsActive(s, sid) && Apply(s, TryStart(sid)) == s
            && forall event: Event, gen: nat :: Apply(s, Push(sid, event, gen)) == s
  {
    if ops == [] {
    } else {
      OrphanSubscriptionBlocks(r, sid, q, ops[..|ops| - 1]);
    }
  }

  /** The steps that put a sentinel into the session's queues although it has no stream. */
  predicate Wakes(op: Op, sid: string) {
    op.sid == sid && (op.End? || op.Start?)
  }

  /** The steps that take the queue off the list. */
  predicate Drops(op: Op, sid: string, q: nat) {
    op.sid == sid && (op.Clean? || (op.Unsub? && op.q == q))
  }

  ghost predicate Dropped(ops: seq<Op>, sid: string, q: nat) {
    exists i | 0 <= i < |ops| :: Drops(ops[i], sid, q)
  }

  /** Somebody wakes the reader before its queue is taken off the list. */
  ghost predicate Woken(ops: seq<Op>, sid: string, q: nat) {
    exists i | 0 <= i < |ops| :: Wakes(ops[i], sid) && !Dropped(ops[..i], sid, q)
  }

  lemma WokenNext(ops: seq<Op>, sid: string, q: nat)
    requires ops != []
    ensures var before, op := ops[..|ops| - 1], ops[|ops| - 1];
            && (Dropped(ops, sid, q) <==> Dropped(before, sid, q) || Drops(op, sid, q))
            && (Woken(ops, sid, q) <==> Woken(before, sid, q) || (Wakes(op, sid) && !Dropped(before, sid, q)))
  {
    var before := ops[..|ops| - 1];
    assert forall i | 0 <= i < |before| :: before[i] == ops[i] && before[..i] == ops[..i];
  }

  /** The queue of a reader that nobody woke: empty, and either still listed for a session without a stream or off. */
  ghost predicate Waiting(r: Registry, sid: string, q: nat, dropped: bool) {
    q in r.queues && r.queues[q] == []
    && if dropped then Detached(r, q) else Orphan(r, sid) && q in r.subscribers[sid]
  }

  lemma WaitingStep(r: Registry, op: Op, sid: string, q: nat, dropped: bool)
    requires Owned(r) && Waiting(r, sid, q, dropped) && (op.Sub? ==> op.q !in r.queues)
    ensures if Wakes(op, sid) && !dropped then Apply(r, op).queues[q] == [Sentinel]
            else Waiting(Apply(r, op), sid, q, dropped || Drops(op, sid, q))
  {
    if dropped {
      DetachedStep(r, op, q);
    } else {
      assert [] + [Sentinel] == [Sentinel];
      if op.Unsub? && op.q in Subscribers(r, op.sid) {
        WithoutIs(r.subscribers[op.sid], op.q);
      }
    }
  }

  /**
   The reader of such a subscription gets a sentinel if and only if somebody ends or forcibly starts a stream of the
   session before the queue is taken off the list; until then, and otherwise for good, it gets nothing at all.
   */
  lemma {:induction false} StuckExactly(r: Registry, sid: string, q: nat, ops: seq<Op>)
    requires Owned(r) && sid !in r.subscribers && sid !in r.terminated && sid !in r.generation
    requires q !in r.queues && Legal(AfterSubscribe(r, sid, q), ops)
    ensures var s := Run(AfterSubscribe(r, sid, q), ops);
            && q in s.queues && (Sentinel in s.queues[q] <==> Woken(ops, sid, q))
            && (!Woken(ops, sid, q) ==> Waiting(s, sid, q, Dropped(ops, sid, q)))
    decreases |ops|
  {
    var first := AfterSubscribe(r, sid, q);
    OwnedStep(r, Sub(sid, q));
    if ops == [] {
      assert Waiting(first, sid, q, false);
    } else {
      var before, op := ops[..|ops| - 1], ops[|ops| - 1];
      LegalPrefix(first, ops);
      StuckExactly(r, sid, q, before);
      RunOwned(first, before);
      WokenNext(ops, sid, q);
      var s := Run(first, before);
      if Woken(before, sid, q) {
        var more := QueueGrows(s, op, q);
      } else {
        WaitingStep(s, op, sid, q, Dropped(before, sid, q));
      }
      hide Apply, Owned, Legal, Woken, Dropped;
    }
  }

  /** A stream that ends and is cleaned up while a reader replays its snapshot: the reader then waits for ever, unless
      somebody ends or forcibly starts a stream of the session while its queue is listed. */
  lemma EndInGapLeavesReaderStuck(r: Registry, sid: string, gen: nat, q: nat, ops: seq<Op>)
    requires Owned(r) && Live(r, sid, gen) && q !in r.queues
    requires var gone := AfterCleanup(AfterEnd(r, sid), sid);
             Legal(AfterSubscribe(gone, sid, q), ops) && !Woken(ops, sid, q)
    ensures var gone := AfterCleanup(AfterEnd(r, sid), sid);
            Queue(Run(AfterSubscribe(gone, sid, q), ops), q) == []
  {
    OwnedStep(r, End(sid));
    OwnedStep(AfterEnd(r, sid), Clean(sid));
    StuckExactly(AfterCleanup(AfterEnd(r, sid), sid), sid, q, ops);
  }

  // ---- what a new subscriber is given of the past ----

  /** Step i pushes an event of the session under its current generation. */
  ghost predicate Taken(ops: seq<Op>, sid: string, i: nat) {
    && i < |ops| && ops[i].Push? && ops[i].sid == sid
    && Current(Run(EMPTY, ops[..i]), sid, ops[i].gen)
  }

  /** Step j starts the session's stream anew, or forgets it. */
  ghost predicate Resets(ops: seq<Op>, sid: string, j: nat) {
    && j < |ops| && ops[j].sid == sid
    && (ops[j].Start? || ops[j].Clean? || (ops[j].TryStart? && !IsActive(Run(EMPTY, ops[..j]), sid)))
  }

  /** The buffer still has the event of step i. */
  ghost predicate Remains(ops: seq<Op>, sid: string, i: nat) {
    Taken(ops, sid, i) && forall j | i < j < |ops| :: !Resets(ops, sid, j)
  }

  ghost predicate BufferAt(ops: seq<Op>, sid: string, at: seq<nat>) {
    && Rising(at) && (forall i: nat :: i in at <==> Remains(ops, sid, i))
  }

  ghost predicate EventsAt(ops: seq<Op>, at: seq<nat>, events: seq<Event>) {
    |events| == |at| && forall k | 0 <= k < |at| :: at[k] < |ops| && ops[at[k]].Push? && ops[at[k]].event == events[k]
  }

  /** A session with a generation has a buffer. */
  predicate Buffering(r: Registry) {
    r.generation.Keys <= r.buffers.Keys
  }

  lemma {:induction false} AlwaysBuffering(ops: seq<Op>)
    ensures Buffering(Run(EMPTY, ops))
    decreases |ops|
  {
    if ops == [] {
    } else {
      AlwaysBuffering(ops[..|ops| - 1]);
    }
  }

  lemma TakenBefore(before: seq<Op>, op: Op, sid: string, i: nat)
    requires i < |before|
    ensures Taken(before + [op], sid, i) <==> Taken(before, sid, i)
    ensures Resets(before + [op], sid, i) <==> Resets(before, sid, i)
  {
    assert (before + [op])[..i] == before[..i] && (before + [op])[i] == before[i];
    hide Run;
  }

  lemma RemainsNext(before: seq<Op>, op: Op, sid: string, i: nat)
    ensures var all, n := before + [op], |before|;
            Remains(all, sid, i) <==>
            if i == n then Taken(all, sid, n) else Remains(before, sid, i) && !Resets(all, sid, n)
  {
    var all := before + [op];
    forall j: nat | j < |before|
      ensures (Taken(all, sid, j) <==> Taken(before, sid, j)) && (Resets(all, sid, j) <==> Resets(before, sid, j))
    {
      TakenBefore(before, op, sid, j);
    }
    hide Taken, Resets;
    assert i > |before| ==> !Taken(all, sid, i) && !Taken(before, sid, i) by { NotBeyond(before, op, sid, i); }
    assert i == |before| ==> !Taken(before, sid, i) by { NotBeyond(before, op, sid, i); }
  }

  lemma NotBeyond(before: seq<Op>, op: Op, sid: string, i: nat)
    ensures i > |before| ==> !Taken(before + [op], sid, i)
    ensures i >= |before| ==> !Taken(before, sid, i)
  {}

  lemma BufferedStep(r: Registry, op: Op, sid: string)
    requires Buffering(r)
    ensures var after := Buffered(Apply(r, op), sid);
            if op.sid == sid && op.Push? && Current(r, sid, op.gen) then after == Buffered(r, sid) + [op.event]
            else if op.sid == sid && (op.Start? || op.Clean? || (op.TryStart? && !IsActive(r, sid))) then after == []
            else after == Buffered(r, sid)
  {}

  lemma LastTaken(before: seq<Op>, op: Op, sid: string)
    ensures var all, n, r := before + [op], |before|, Run(EMPTY, before);
            && (Taken(all, sid, n) <==> op.Push? && op.sid == sid && Current(r, sid, op.gen))
            && (Resets(all, sid, n) <==>
                  op.sid == sid && (op.Start? || op.Clean? || (op.TryStart? && !IsActive(r, sid))))
            && Run(EMPTY, all) == Apply(r, op)
  {
    assert (before + [op])[..|before|] == before;
  }

  lemma PlacesNext(before: seq<Op>, op: Op, sid: string, at: seq<nat>)
    requires BufferAt(before, sid, at)
    ensures var all, n := before + [op], |before|;
            && (Resets(all, sid, n) && !Taken(all, sid, n) ==> BufferAt(all, sid, []))
            && (!Resets(all, sid, n) ==> BufferAt(all, sid, if Taken(all, sid, n) then at + [n] else at))
  {
    var all, n := before + [op], |before|;
    forall i: nat ensures Remains(all, sid, i) <==>
                          if i == n then Taken(all, sid, n) else Remains(before, sid, i) && !Resets(all, sid, n)
    {
      RemainsNext(before, op, sid, i);
    }
    forall k | 0 <= k < |at| ensures at[k] < n {
      assert at[k] in at && Remains(before, sid, at[k]);
    }
    hide Remains, Taken, Resets, Rising;
    RisingMore(at, n);
  }

  lemma EventsNext(before: seq<Op>, op: Op, at: seq<nat>, events: seq<Event>)
    requires EventsAt(before, at, events)
    ensures EventsAt(before + [op], at, events)
    ensures op.Push? ==> EventsAt(before + [op], at + [|before|], events + [op.event])
  {
    var all := before + [op];
    assert forall i | 0 <= i < |before| :: all[i] == before[i];
  }

  /** The buffer of a session holds exactly the events pushed under its then current generation since the stream was
      last started or forgotten, in order: of a session that was cleaned up nothing is left to replay. */
  lemma {:induction false} BufferExactly(ops: seq<Op>, sid: string) returns (at: seq<nat>)
    ensures BufferAt(ops, sid, at) && EventsAt(ops, at, Buffered(Run(EMPTY, ops), sid))
    decreases |ops|
  {
    hide *;
    if ops == [] {
      at := [];
      NothingBuffered(sid);
    } else {
      var n := |ops| - 1;
      var before, op := ops[..n], ops[n];
      assert ops == before + [op];
      var earlier := BufferExactly(before, sid);
      AlwaysBuffering(before);
      BufferedStep(Run(EMPTY, before), op, sid);
      LastTaken(before, op, sid);
      PlacesNext(before, op, sid, earlier);
      EventsNext(before, op, earlier, Buffered(Run(EMPTY, before), sid));
      if Taken(ops, sid, n) {
        at := earlier + [n];
      } else if Resets(ops, sid, n) {
        at := [];
        NoEvents(ops);
      } else {
        at := earlier;
      }
    }
  }

  lemma NothingBuffered(sid: string)
    ensures BufferAt([], sid, []) && EventsAt([], [], Buffered(Run(EMPTY, []), sid))
  {}

  lemma NoEvents(ops: seq<Op>)
    ensures EventsAt(ops, [], [])
  {}
}
