/**
 Fan-out of stream events to the subscribers of a session.  A queue is unbounded, so it is modelled
 by everything ever put into it; a reader stops at the first sentinel.
 */
module StreamRegistry {
  import opened Text

  type Event = string

  datatype Item = Pushed(event: Event) | Sentinel

  datatype Registry = Registry(
    subscribers: map<string, seq<nat>>,
    buffers: map<string, seq<Event>>,
    terminated: set<string>,
    generation: map<string, nat>,
    queues: map<nat, seq<Item>>)

  const EMPTY := Registry(map[], map[], {}, map[], map[])

  function Subscribers(r: Registry, sid: string): seq<nat> {
    if sid in r.subscribers then r.subscribers[sid] else []
  }

  /** Put an item into every listed queue. */
  function PutAll(queues: map<nat, seq<Item>>, ids: seq<nat>, item: Item): map<nat, seq<Item>> {
    map q | q in queues :: if q in ids then queues[q] + [item] else queues[q]
  }

  function AfterEnd(r: Registry, sid: string): Registry {
    r.(terminated := r.terminated + {sid}, queues := PutAll(r.queues, Subscribers(r, sid), Sentinel))
  }

  function NextGeneration(r: Registry, sid: string): nat {
    (if sid in r.generation then r.generation[sid] else 0) + 1
  }

  function AfterStart(r: Registry, sid: string): Registry {
    var ended := AfterEnd(r, sid);
    Registry(r.subscribers[sid := []], r.buffers[sid := []], r.terminated - {sid},
             r.generation[sid := NextGeneration(r, sid)], ended.queues)
  }

  predicate IsActive(r: Registry, sid: string) {
    sid in r.subscribers && sid !in r.terminated
  }

  predicate Current(r: Registry, sid: string, generation: nat) {
    sid in r.generation && r.generation[sid] == generation
  }

  function AfterPush(r: Registry, sid: string, event: Event, generation: nat): Registry {
    if !Current(r, sid, generation) then r
    else
      r.(buffers := if sid in r.buffers then r.buffers[sid := r.buffers[sid] + [event]] else r.buffers,
         queues := PutAll(r.queues, Subscribers(r, sid), Pushed(event)))
  }

  function AfterRelease(r: Registry, sid: string, generation: nat): Registry {
    if Current(r, sid, generation) then AfterEnd(r, sid) else r
  }

  function Buffered(r: Registry, sid: string): seq<Event> {
    if sid in r.buffers then r.buffers[sid] else []
  }

  function AfterSubscribe(r: Registry, sid: string, q: nat): Registry {
    r.(subscribers := r.subscribers[sid := Subscribers(r, sid) + [q]], queues := r.queues[q := []])
  }

  function Without(ids: seq<nat>, q: nat): seq<nat> {
    if ids == [] then [] else if ids[0] == q then ids[1..] else [ids[0]] + Without(ids[1..], q)
  }

  function AfterUnsubscribe(r: Registry, sid: string, q: nat): Registry {
    if q in Subscribers(r, sid) then r.(subscribers := r.subscribers[sid := Without(Subscribers(r, sid), q)]) else r
  }

  function AfterCleanup(r: Registry, sid: string): Registry {
    Registry(r.subscribers - {sid}, r.buffers - {sid}, r.terminated - {sid}, r.generation - {sid}, r.queues)
  }

  ghost predicate Distinct(ids: seq<nat>) {
    forall i, j | 0 <= i < j < |ids| :: ids[i] != ids[j]
  }

  /** Putting the item into the next queue of the list. */
  lemma PutOneMore(queues: map<nat, seq<Item>>, ids: seq<nat>, i: nat, item: Item)
    requires i < |ids| && Distinct(ids) && ids[i] in queues
    ensures var before, q := PutAll(queues, ids[..i], item), ids[i];
            q in before && PutAll(queues, ids[..i + 1], item) == before[q := before[q] + [item]]
  {
    assert ids[i] !in ids[..i] && ids[..i + 1] == ids[..i] + [ids[i]];
  }

  /** Queues are real, and no queue is listed twice. */
  ghost predicate Listed(r: Registry) {
    && (forall sid, q | sid in r.subscribers && q in r.subscribers[sid] :: q in r.queues)
    && forall sid, i, j | sid in r.subscribers && 0 <= i < j < |r.subscribers[sid]| ::
         r.subscribers[sid][i] != r.subscribers[sid][j]
  }

  class SessionStreamRegistry {
    var subscribers: map<string, seq<nat>>
    var buffers: map<string, seq<Event>>
    var terminated: set<string>
    var generation: map<string, nat>
    var queues: map<nat, seq<Item>>

    constructor ()
      ensures View() == EMPTY && Listed(View())
    {
      subscribers, buffers, terminated, generation, queues := map[], map[], {}, map[], map[];
    }

    function View(): Registry
      reads this
    {
      Registry(subscribers, buffers, terminated, generation, queues)
    }

    method PutNowait(sid: string, item: Item)
      requires Listed(View())
      modifies this`queues
      ensures queues == PutAll(old(queues), Subscribers(old(View()), sid), item)
    {
      var ids := if sid in subscribers then subscribers[sid] else [];
      ghost var before := queues;
      assert (forall q | q in ids :: q in before) && Distinct(ids);
      hide Listed;
      for i := 0 to |ids|
        invariant queues == PutAll(before, ids[..i], item)
      {
        var q := ids[i];
        PutOneMore(before, ids, i, item);
        queues := queues[q := queues[q] + [item]];
      }
      assert ids[..|ids|] == ids;
    }

    method StartStream(sid: string) returns (gen: nat)
      requires Listed(View())
      modifies this
      ensures View() == AfterStart(old(View()), sid) && Listed(View())
      ensures gen == generation[sid]
    {
      EndStream(sid);
      gen := (if sid in generation then generation[sid] else 0) + 1;
      generation := generation[sid := gen];
      subscribers := subscribers[sid := []];
      buffers := buffers[sid := []];
      assert terminated - {sid} == old(terminated) - {sid};
      terminated := terminated - {sid};
    }

    /** None when the session already has an active stream. */
    method TryStartStream(sid: string) returns (gen: Option<nat>)
      requires Listed(View())
      modifies this
      ensures Listed(View())
      ensures if IsActive(old(View()), sid) then gen.None? && View() == old(View())
              else gen.Some? && Current(View(), sid, gen.value) && View() == AfterStart(old(View()), sid)
    {
      if IsActive(View(), sid) {
        return None;
      }
      var started := StartStream(sid);
      gen := Some(started);
    }

    method PushEvent(sid: string, event: Event, gen: nat)
      requires Listed(View())
      modifies this
      ensures View() == AfterPush(old(View()), sid, event, gen) && Listed(View())
    {
      if !Current(View(), sid, gen) {
        return;
      }
      if sid in buffers {
        buffers := buffers[sid := buffers[sid] + [event]];
      }
      PutNowait(sid, Pushed(event));
    }

    method EndStream(sid: string)
      requires Listed(View())
      modifies this`terminated, this`queues
      ensures View() == AfterEnd(old(View()), sid) && Listed(View())
    {
      terminated := terminated + {sid};
      PutNowait(sid, Sentinel);
    }

    method ReleaseStream(sid: string, gen: nat)
      requires Listed(View())
      modifies this
      ensures View() == AfterRelease(old(View()), sid, gen) && Listed(View())
    {
      if Current(View(), sid, gen) {
        EndStream(sid);
      }
    }

    /** `q` stands for the identity of the new queue object. */
    method Subscribe(sid: string, q: nat)
      requires Listed(View()) && q !in queues
      modifies this
      ensures View() == AfterSubscribe(old(View()), sid, q) && Listed(View())
    {
      var listed := Subscribers(View(), sid);
      queues := queues[q := []];
      subscribers := subscribers[sid := listed + [q]];
    }

    method Unsubscribe(sid: string, q: nat)
      requires Listed(View())
      modifies this
      ensures View() == AfterUnsubscribe(old(View()), sid, q) && Listed(View())
    {
      var subs := Subscribers(View(), sid);
      if q in subs {
        WithoutIs(subs, q);
        subscribers := subscribers[sid := Without(subs, q)];
      }
    }

    method Cleanup(sid: string)
      requires Listed(View())
      modifies this
      ensures View() == AfterCleanup(old(View()), sid) && Listed(View())
    {
      subscribers := subscribers - {sid};
      buffers := buffers - {sid};
      terminated := terminated - {sid};
      generation := generation - {sid};
    }
  }

  /** Removing one listing of q keeps the others, in order. */
  lemma {:induction false} WithoutIs(ids: seq<nat>, q: nat)
    requires Distinct(ids)
    ensures Distinct(Without(ids, q)) && forall p :: p in Without(ids, q) <==> p in ids && p != q
  {
    if ids == [] {
    } else {
      var rest := ids[1..];
      assert forall i | 0 <= i < |rest| :: rest[i] == ids[i + 1];
      WithoutIs(rest, q);
      assert forall p | p in rest :: p in ids && p != ids[0];
      assert ids == [ids[0]] + rest;
      if ids[0] != q {
        DistinctCons(ids[0], Without(rest, q));
      }
    }
  }

  lemma DistinctCons(p: nat, ids: seq<nat>)
    requires Distinct(ids) && p !in ids
    ensures Distinct([p] + ids)
  {
    var all := [p] + ids;
    assert forall i | 0 < i < |all| :: all[i] == ids[i - 1] && all[i] in ids;
  }
}
