/**
 The task log lock (backport_run_store.py): a lock file taken with an exclusive `flock`, made re-entrant by a count
 per thread in each process. Threads of any number of processes interleave step by step.
 */
module TaskLogLock {
  import opened Text

  /** One thread of one process. */
  datatype Thread = Thread(process: nat, ident: nat)

  /** Where a thread stands in one `with` block: waiting in flock, in the body of the block that took the lock, in
      the body of a nested one, or past its body and about to give up its count. */
  datatype Level = Waiting | Holding | Inner | Leaving

  // ---- the holder counts of one process ----

  /** The dictionary of one process for the task: absent when no thread is counted. */
  type Holders = Option<map<nat, nat>>

  function CountOf(h: Holders, ident: nat): nat {
    if h.Some? && ident in h.value then h.value[ident] else 0
  }

  function Counted(h: Holders, ident: nat): Holders {
    var counts := if h.Some? then h.value else map[];
    Some(counts[ident := CountOf(h, ident) + 1])
  }

  function Uncounted(h: Holders, ident: nat): Holders
    requires CountOf(h, ident) > 0
  {
    var rest := if h.value[ident] > 1 then h.value[ident := h.value[ident] - 1] else h.value - {ident};
    if rest == map[] then None else Some(rest)
  }

  /** The class-level dictionary as one process edits it under its guard. */
  class FlockHolders {
    var holders: Holders

    method Enter(ident: nat) returns (held: bool)
      modifies this
      ensures held == (CountOf(old(holders), ident) > 0)
      ensures holders == Counted(old(holders), ident)
    {
      if holders.None? { holders := Some(map[]); }
      var count := CountOf(holders, ident);
      held := count > 0;
      holders := Some(holders.value[ident := count + 1]);
    }

    method Exit(ident: nat)
      requires CountOf(holders, ident) > 0
      modifies this
      ensures holders == Uncounted(old(holders), ident)
    {
      var remaining := holders.value[ident] - 1;
      var counts := holders.value;
      if remaining > 0 {
        counts := counts[ident := remaining];
      } else {
        counts := counts - {ident};
      }
      holders := if counts == map[] then None else Some(counts);
    }
  }

  // ---- the whole machine ----

  /** The lock file's owner, each process's dictionary, and each thread's open blocks, outermost first. */
  datatype Machine = Machine(owner: Option<Thread>, holders: map<nat, map<nat, nat>>, blocks: map<Thread, seq<Level>>)

  function HoldersOf(m: Machine, process: nat): Holders {
    if process in m.holders then Some(m.holders[process]) else None
  }

  function BlocksOf(m: Machine, t: Thread): seq<Level> {
    if t in m.blocks then m.blocks[t] else []
  }

  function Top(m: Machine, t: Thread): Option<Level> {
    var b := BlocksOf(m, t);
    if b == [] then None else Some(b[|b| - 1])
  }

  predicate InBody(m: Machine, t: Thread) {
    Top(m, t) == Some(Holding) || Top(m, t) == Some(Inner)
  }

  datatype Step =
    | Enter(t: Thread)
    | Acquire(t: Thread)
    | Abort(t: Thread)
    | Leave(t: Thread)
    | Finish(t: Thread)
    | Kill(process: nat)

  predicate Enabled(m: Machine, s: Step) {
    match s
    case Enter(t) => BlocksOf(m, t) == [] || InBody(m, t)
    case Acquire(t) => Top(m, t) == Some(Waiting) && m.owner == None
    case Abort(t) => Top(m, t) == Some(Waiting)
    case Leave(t) => InBody(m, t)
    case Finish(t) => Top(m, t) == Some(Leaving) && CountOf(HoldersOf(m, t.process), t.ident) > 0
    case Kill(process) => true
  }

  function Replaced(b: seq<Level>, top: Level): seq<Level>
    requires b != []
  {
    b[|b| - 1 := top]
  }

  function WithHolders(m: map<nat, map<nat, nat>>, process: nat, h: Holders): map<nat, map<nat, nat>> {
    if h.Some? then m[process := h.value] else m - {process}
  }

  function AfterEnter(m: Machine, t: Thread): Machine {
    var h := HoldersOf(m, t.process);
    var held := CountOf(h, t.ident) > 0;
    m.(holders := WithHolders(m.holders, t.process, Counted(h, t.ident)),
       blocks := m.blocks[t := BlocksOf(m, t) + [if held then Inner else Waiting]])
  }

  function AfterFinish(m: Machine, t: Thread): Machine
    requires Enabled(m, Finish(t))
  {
    var b := BlocksOf(m, t);
    m.(holders := WithHolders(m.holders, t.process, Uncounted(HoldersOf(m, t.process), t.ident)),
       blocks := m.blocks[t := b[..|b| - 1]])
  }

  /** A killed process loses its threads and its dictionary; the system drops the lock it held. */
  function AfterKill(m: Machine, process: nat): Machine {
    Machine(if m.owner.Some? && m.owner.value.process == process then None else m.owner,
            m.holders - {process},
            map t | t in m.blocks && t.process != process :: m.blocks[t])
  }

  function After(m: Machine, s: Step): Machine
    requires Enabled(m, s)
  {
    match s
    case Enter(t) => AfterEnter(m, t)
    case Acquire(t) => m.(owner := Some(t), blocks := m.blocks[t := Replaced(m.blocks[t], Holding)])
    case Abort(t) => m.(blocks := m.blocks[t := Replaced(m.blocks[t], Leaving)])
    case Leave(t) =>
      m.(owner := if Top(m, t) == Some(Holding) then None else m.owner,
         blocks := m.blocks[t := Replaced(m.blocks[t], Leaving)])
    case Finish(t) => AfterFinish(m, t)
    case Kill(process) => AfterKill(m, process)
  }

  const IDLE := Machine(None, map[], map[])

  /** The machine after a schedule, or None when a step of it is not enabled. */
  function Ran(steps: seq<Step>): Option<Machine> {
    if steps == [] then Some(IDLE)
    else
      var before := Ran(steps[..|steps| - 1]);
      if before.Some? && Enabled(before.value, steps[|steps| - 1])
      then Some(After(before.value, steps[|steps| - 1])) else None
  }

  // ---- what every schedule keeps ----

  /** A thread's blocks: the outermost took or awaits the lock, the others are nested; only the innermost may be
      waiting or leaving, and nested blocks exist only inside one that holds. */
  predicate GoodBlocks(b: seq<Level>) {
    && (forall i | 0 <= i < |b| - 1 :: b[i] == if i == 0 then Holding else Inner)
    && (b != [] && |b| == 1 ==> b[0] != Inner)
    && (|b| >= 2 ==> b[|b| - 1] == Inner || b[|b| - 1] == Leaving)
  }

  /** Whether a thread's blocks include one that has the lock. */
  predicate HasLock(b: seq<Level>) {
    b != [] && b[0] == Holding
  }

  ghost predicate ThreadInv(m: Machine, t: Thread) {
    && GoodBlocks(BlocksOf(m, t))
    && (HasLock(BlocksOf(m, t)) <==> m.owner == Some(t))
    && CountOf(HoldersOf(m, t.process), t.ident) == |BlocksOf(m, t)|
  }

  ghost predicate ProcessInv(m: Machine, process: nat) {
    process in m.holders ==>
      m.holders[process] != map[] && forall i | i in m.holders[process] :: m.holders[process][i] > 0
  }

  ghost predicate Inv(m: Machine) {
    (forall t: Thread :: ThreadInv(m, t)) && (forall process: nat :: ProcessInv(m, process))
  }

  lemma CountedCounts(h: Holders, ident: nat, other: nat)
    ensures CountOf(Counted(h, ident), other) == CountOf(h, other) + if other == ident then 1 else 0
  {}

  lemma UncountedCounts(h: Holders, ident: nat, other: nat)
    requires CountOf(h, ident) > 0
    ensures CountOf(Uncounted(h, ident), other) == CountOf(h, other) - if other == ident then 1 else 0
  {
    var rest := if h.value[ident] > 1 then h.value[ident := h.value[ident] - 1] else h.value - {ident};
    assert rest == map[] ==> other !in rest;
  }

  lemma EnterKeeps(m: Machine, t: Thread, u: Thread)
    requires ThreadInv(m, t) && ThreadInv(m, u) && Enabled(m, Enter(t))
    ensures ThreadInv(AfterEnter(m, t), u)
  {
    CountedCounts(HoldersOf(m, t.process), t.ident, u.ident);
    hide Counted;
    var b := BlocksOf(m, t);
    var after := AfterEnter(m, t);
    if u == t {
      assert forall i | 0 <= i < |b| :: BlocksOf(after, t)[i] == b[i];
    }
  }

  lemma FinishKeeps(m: Machine, t: Thread, u: Thread)
    requires ThreadInv(m, t) && ThreadInv(m, u) && Enabled(m, Finish(t))
    ensures ThreadInv(AfterFinish(m, t), u)
  {
    UncountedCounts(HoldersOf(m, t.process), t.ident, u.ident);
    hide Uncounted;
  }

  lemma OthersKeep(m: Machine, s: Step, u: Thread)
    requires Enabled(m, s) && (s.Acquire? || s.Abort? || s.Leave?)
    requires ThreadInv(m, s.t) && ThreadInv(m, u)
    ensures ThreadInv(After(m, s), u)
  {
    hide CountOf;
    assert CountOf(HoldersOf(After(m, s), u.process), u.ident) == CountOf(HoldersOf(m, u.process), u.ident);
  }

  lemma KillKeeps(m: Machine, process: nat, u: Thread)
    requires ThreadInv(m, u)
    ensures ThreadInv(AfterKill(m, process), u)
  {}

  lemma ThreadsKept(m: Machine, s: Step, u: Thread)
    requires Inv(m) && Enabled(m, s)
    ensures ThreadInv(After(m, s), u)
  {
    assert ThreadInv(m, u);
    match s
    case Enter(t) => assert ThreadInv(m, t); hide ThreadInv, AfterEnter; EnterKeeps(m, t, u);
    case Finish(t) => assert ThreadInv(m, t); hide ThreadInv, AfterFinish; FinishKeeps(m, t, u);
    case Kill(process) => hide ThreadInv, AfterKill; KillKeeps(m, process, u);
    case _ => assert ThreadInv(m, s.t); hide ThreadInv, After; OthersKeep(m, s, u);
  }

  lemma ProcessesKept(m: Machine, s: Step, process: nat)
    requires Inv(m) && Enabled(m, s)
    ensures ProcessInv(After(m, s), process)
  {
    assert ProcessInv(m, process);
    hide ThreadInv;
    match s
    case Enter(t) =>
      var h := HoldersOf(m, t.process);
      assert Counted(h, t.ident).value[t.ident] > 0;
    case _ =>
  }

  lemma {:induction false} EveryScheduleKeeps(steps: seq<Step>)
    requires Ran(steps).Some?
    ensures Inv(Ran(steps).value)
    decreases |steps|
  {
    if steps == [] {
    } else {
      var n := |steps| - 1;
      EveryScheduleKeeps(steps[..n]);
      var before := Ran(steps[..n]).value;
      var after := After(before, steps[n]);
      forall u: Thread ensures ThreadInv(after, u) { ThreadsKept(before, steps[n], u); }
      forall process: nat ensures ProcessInv(after, process) { ProcessesKept(before, steps[n], process); }
    }
  }

  lemma BodyHasLock(b: seq<Level>)
    requires GoodBlocks(b) && b != [] && (b[|b| - 1] == Holding || b[|b| - 1] == Inner)
    ensures HasLock(b)
  {}

  /** Mutual exclusion: after any schedule, threads in the body of any of their blocks are one and the same, in
      whatever processes they run, and that thread owns the lock file. */
  lemma MutualExclusion(steps: seq<Step>, t: Thread, u: Thread)
    requires Ran(steps).Some? && InBody(Ran(steps).value, t) && InBody(Ran(steps).value, u)
    ensures t == u && Ran(steps).value.owner == Some(t)
  {
    EveryScheduleKeeps(steps);
    var m := Ran(steps).value;
    assert ThreadInv(m, t) && ThreadInv(m, u);
    BodyHasLock(BlocksOf(m, t));
    BodyHasLock(BlocksOf(m, u));
  }

  /** Re-entry never blocks: a thread in a body enters the next block's body at once, and keeps the lock. */
  lemma ReentryNeverBlocks(steps: seq<Step>, t: Thread)
    requires Ran(steps).Some? && InBody(Ran(steps).value, t)
    ensures var after := After(Ran(steps).value, Enter(t)); InBody(after, t) && after.owner == Some(t)
  {
    EveryScheduleKeeps(steps);
    var m := Ran(steps).value;
    assert ThreadInv(m, t);
    BodyHasLock(BlocksOf(m, t));
  }

  /** The count of a thread is its nesting depth, its entry is gone at depth zero, and a process without entries has
      no dictionary. */
  lemma CountIsDepth(steps: seq<Step>, t: Thread)
    requires Ran(steps).Some?
    ensures var m := Ran(steps).value;
            && CountOf(HoldersOf(m, t.process), t.ident) == |BlocksOf(m, t)|
            && (t.process in m.holders && t.ident in m.holders[t.process] <==> BlocksOf(m, t) != [])
            && (t.process in m.holders ==> m.holders[t.process] != map[])
  {
    EveryScheduleKeeps(steps);
    var m := Ran(steps).value;
    assert ThreadInv(m, t) && ProcessInv(m, t.process);
  }

  /** No deadlock: while any thread is in a block, some thread can take a step that is not a new entry, an abort or a
      kill. */
  lemma NoDeadlock(steps: seq<Step>, t: Thread)
    requires Ran(steps).Some? && BlocksOf(Ran(steps).value, t) != []
    ensures var m := Ran(steps).value;
            exists s: Step :: (s.Acquire? || s.Leave? || s.Finish?) && Enabled(m, s)
  {
    EveryScheduleKeeps(steps);
    var m := Ran(steps).value;
    assert ThreadInv(m, t);
    var top := Top(m, t).value;
    if top == Leaving {
      assert Enabled(m, Finish(t));
    } else if top == Waiting && m.owner == None {
      assert Enabled(m, Acquire(t));
    } else if top == Waiting {
      var u := m.owner.value;
      assert ThreadInv(m, u);
      OwnerMoves(m, u);
    } else {
      assert Enabled(m, Leave(t));
    }
  }

  lemma OwnerMoves(m: Machine, u: Thread)
    requires ThreadInv(m, u) && m.owner == Some(u)
    ensures Enabled(m, Leave(u)) || Enabled(m, Finish(u))
  {}
}
