/**
 The lock on a target repository (backport_cvekit_client.py): polled without blocking up to a timeout, counted per
 client so that nested use passes through, with an owner record in the lock file for those who wait.
 */
module RepositoryLock {
  import opened Text

  const TIMEOUT := 600

  // ---- waiting ----

  datatype LockEvent =
    | LockWaiting(waitSeconds: int)
    | LockAcquired(waitSeconds: int)
    | LockTimeout(waitSeconds: int)

  /** The outside world of one wait: whether each attempt finds the file unlocked, and the monotone clock as read at
      the start and after each failed attempt. */
  datatype World = World(free: nat -> bool, started: real, clock: nat -> real)

  /** Every poll sleeps at least half a second. */
  ghost predicate Sleeps(w: World) {
    w.clock(0) >= w.started && forall i: nat :: w.clock(i + 1) >= w.clock(i) + 0.5
  }

  function Waited(w: World, i: nat): int {
    (w.clock(i) - w.started).Floor
  }

  lemma {:induction false} WaitedGrows(w: World, i: nat)
    requires Sleeps(w)
    ensures w.clock(i) >= w.started + 0.5 * i as real && 2 * Waited(w, i) >= i - 1
  {
    if i == 0 {
    } else {
      WaitedGrows(w, i - 1);
    }
  }

  /** Attempt k ends the wait, and no earlier one did. */
  ghost predicate EndsAt(w: World, k: nat) {
    (w.free(k) || Waited(w, k) >= TIMEOUT) && forall i: nat | i < k :: !w.free(i) && Waited(w, i) < TIMEOUT
  }

  /** What a wait that ends at attempt k announces: that it waits, at first and after each failed poll, and then the
      lock with the whole seconds waited as of the poll before, or the timeout. */
  ghost predicate Announced(w: World, k: nat, acquired: bool, events: seq<LockEvent>) {
    && |events| == k + 2 && events[0] == LockWaiting(0)
    && (forall j: nat | 1 <= j <= k :: events[j] == LockWaiting((w.clock(j - 1) - w.started).Floor))
    && events[k + 1] == if acquired then LockAcquired(if k == 0 then 0 else (w.clock(k - 1) - w.started).Floor)
                        else LockTimeout((w.clock(k) - w.started).Floor)
  }

  /**
   The contended path: a first waiting event, then one after each failed poll, until an attempt succeeds or the time
   is up. It ends after at most 2 * TIMEOUT polls, by acquisition exactly when the attempt that ends it succeeds.
   */
  method WaitForLock(w: World) returns (acquired: bool, events: seq<LockEvent>)
    requires Sleeps(w)
    ensures exists k: nat :: EndsAt(w, k) && k <= 2 * TIMEOUT && acquired == w.free(k)
                             && Announced(w, k, acquired, events)
  {
    var waited := 0;
    var i := 0;
    events := [LockWaiting(0)];
    while !w.free(i)
      invariant i <= 2 * TIMEOUT
      invariant forall j: nat | j < i :: !w.free(j) && Waited(w, j) < TIMEOUT
      invariant |events| == i + 1 && events[0] == LockWaiting(0)
      invariant forall j: nat | 1 <= j <= i :: events[j] == LockWaiting(Waited(w, j - 1))
      invariant waited == if i == 0 then 0 else Waited(w, i - 1)
      decreases 2 * TIMEOUT + 1 - i
    {
      waited := Waited(w, i);
      if waited >= TIMEOUT {
        events := events + [LockTimeout(waited)];
        assert EndsAt(w, i);
        return false, events;
      }
      WaitedGrows(w, i);
      events := events + [LockWaiting(waited)];
      i := i + 1;
    }
    events := events + [LockAcquired(waited)];
    acquired := true;
    assert EndsAt(w, i);
  }

  /** Taking the lock: at once when the first attempt succeeds, otherwise by waiting.  It is taken before ten minutes
      are announced, and given up only after them. */
  method TakeLock(firstFree: bool, w: World) returns (acquired: bool, events: seq<LockEvent>)
    requires Sleeps(w)
    ensures 1 <= |events| <= 2 * TIMEOUT + 2 && CountWaiting(events) <= 2 * TIMEOUT + 1
    ensures firstFree ==> acquired && events == [LockAcquired(0)]
    ensures !firstFree ==> exists k: nat :: EndsAt(w, k) && acquired == w.free(k) && Announced(w, k, acquired, events)
    ensures var last := events[|events| - 1];
            if acquired then last.LockAcquired? && last.waitSeconds < 600
            else last.LockTimeout? && last.waitSeconds >= 600
  {
    if firstFree {
      events := [LockAcquired(0)];
      assert CountWaiting(events[..0]) == 0;
      return true, events;
    }
    acquired, events := WaitForLock(w);
    ghost var k: nat :| EndsAt(w, k) && k <= 2 * TIMEOUT && acquired == w.free(k) && Announced(w, k, acquired, events);
    WaitingEventsBounded(w, k, acquired, events);
    assert k > 0 ==> Waited(w, k - 1) < TIMEOUT;
  }

  function CountWaiting(events: seq<LockEvent>): nat {
    if events == [] then 0
    else CountWaiting(events[..|events| - 1]) + if events[|events| - 1].LockWaiting? then 1 else 0
  }

  lemma {:induction false} CountAllWaiting(events: seq<LockEvent>)
    requires forall i | 0 <= i < |events| :: events[i].LockWaiting?
    ensures CountWaiting(events) == |events|
    decreases |events|
  {
    if events == [] {
    } else {
      CountAllWaiting(events[..|events| - 1]);
    }
  }

  /** A wait that ends at attempt k announces k + 1 times that it waits: at most 2 * TIMEOUT + 1. */
  lemma WaitingEventsBounded(w: World, k: nat, acquired: bool, events: seq<LockEvent>)
    requires Sleeps(w) && EndsAt(w, k) && Announced(w, k, acquired, events)
    ensures CountWaiting(events) == k + 1 <= 2 * TIMEOUT + 1
  {
    assert events[..|events| - 1] == events[..k + 1] && !events[k + 1].LockWaiting?;
    CountAllWaiting(events[..k + 1]);
    hide Sleeps, Announced;
    if k > 0 {
      WaitedGrows(w, k - 1);
      assert Waited(w, k - 1) < TIMEOUT;
    }
  }

  // ---- threads, clients and lock files ----

  type Thread = nat
  type Client = nat
  /** The lock file of a target. */
  type File = nat

  /** Where a thread stands in one `with` block, and the file of the target the block was entered for. Unlocked is a
      block of a client without a target, Nested one of a client whose count was already positive; the others are those
      of a block that polls the file itself. */
  datatype Level =
    | Unlocked
    | Nested(file: File)
    | Polling(file: File)
    | Locked(file: File)
    | Owning(file: File)
    | Cleared(file: File)

  /** Who has each lock file, the owner record in it, each client's count and target, and each thread's blocks. */
  datatype Machine = Machine(
    locks: map<File, Thread>, owners: map<File, Thread>, held: map<Client, int>, targets: map<Client, File>,
    blocks: map<Thread, seq<Level>>)

  function HeldBy(m: Machine, c: Client): int {
    if c in m.held then m.held[c] else 0
  }

  function BlocksOf(m: Machine, t: Thread): seq<Level> {
    if t in m.blocks then m.blocks[t] else []
  }

  function Top(m: Machine, t: Thread): Option<Level> {
    var b := BlocksOf(m, t);
    if b == [] then None else Some(b[|b| - 1])
  }

  /** A thread in the body of a block. */
  predicate InBody(m: Machine, t: Thread) {
    var top := Top(m, t);
    top.Some? && (top.value.Unlocked? || top.value.Nested? || top.value.Owning?)
  }

  /** A kill ends a process: `dead` are its clients, and its threads are those that use them. */
  datatype Step =
    | SetTarget(c: Client, file: Option<File>)
    | Kill(dead: set<Client>)
    | Enter(t: Thread)
    | Acquire(t: Thread)
    | GiveUp(t: Thread)
    | WriteOwner(t: Thread, ok: bool)
    | ClearOwner(t: Thread, ok: bool)
    | Unlock(t: Thread)
    | Leave(t: Thread)

  predicate Enabled(m: Machine, s: Step) {
    match s
    case SetTarget(c, file) => true
    case Kill(dead) => true
    case Enter(t) => BlocksOf(m, t) == [] || InBody(m, t)
    case Acquire(t) => Top(m, t).Some? && Top(m, t).value.Polling? && Top(m, t).value.file !in m.locks
    case GiveUp(t) => Top(m, t).Some? && Top(m, t).value.Polling?
    case WriteOwner(t, ok) => Top(m, t).Some? && Top(m, t).value.Locked?
    case ClearOwner(t, ok) => Top(m, t).Some? && Top(m, t).value.Owning?
    case Unlock(t) => Top(m, t).Some? && Top(m, t).value.Cleared?
    case Leave(t) => Top(m, t).Some? && (Top(m, t).value.Unlocked? || Top(m, t).value.Nested?)
  }

  function Pushed(m: Machine, t: Thread, level: Level): map<Thread, seq<Level>> {
    m.blocks[t := BlocksOf(m, t) + [level]]
  }

  function Popped(m: Machine, t: Thread): map<Thread, seq<Level>>
    requires BlocksOf(m, t) != []
  {
    m.blocks[t := BlocksOf(m, t)[..|BlocksOf(m, t)| - 1]]
  }

  function Moved(m: Machine, t: Thread, level: Level): map<Thread, seq<Level>>
    requires BlocksOf(m, t) != []
  {
    var b := BlocksOf(m, t);
    m.blocks[t := b[|b| - 1 := level]]
  }

  /** The block a client enters now. */
  function EnteredLevel(m: Machine, c: Client): Level {
    if c !in m.targets then Unlocked
    else if HeldBy(m, c) > 0 then Nested(m.targets[c]) else Polling(m.targets[c])
  }

  function AfterEnter(m: Machine, t: Thread, c: Client): Machine {
    if c !in m.targets then m.(blocks := Pushed(m, t, Unlocked))
    else if HeldBy(m, c) > 0
    then m.(held := m.held[c := HeldBy(m, c) + 1], blocks := Pushed(m, t, Nested(m.targets[c])))
    else m.(held := m.held[c := 1], blocks := Pushed(m, t, Polling(m.targets[c])))
  }

  /** A killed process loses its clients and threads; the system drops its locks, but its records stay in the files. */
  function AfterKill(m: Machine, dead: set<Client>, clientOf: Thread -> Client): Machine {
    Machine(map f | f in m.locks && clientOf(m.locks[f]) !in dead :: m.locks[f],
            m.owners,
            m.held - dead,
            m.targets - dead,
            map t | t in m.blocks && clientOf(t) !in dead :: m.blocks[t])
  }

  /** One step, where each thread's client is fixed by `clientOf`. */
  function After(m: Machine, s: Step, clientOf: Thread -> Client): Machine
    requires Enabled(m, s)
  {
    match s
    case SetTarget(c, file) => m.(targets := if file.Some? then m.targets[c := file.value] else m.targets - {c})
    case Kill(dead) => AfterKill(m, dead, clientOf)
    case Enter(t) => AfterEnter(m, t, clientOf(t))
    case Acquire(t) =>
      var f := Top(m, t).value.file;
      m.(locks := m.locks[f := t], blocks := Moved(m, t, Locked(f)))
    case GiveUp(t) => m.(held := m.held[clientOf(t) := 0], blocks := Popped(m, t))
    case WriteOwner(t, ok) =>
      var f := Top(m, t).value.file;
      if ok then m.(owners := m.owners[f := t], blocks := Moved(m, t, Owning(f)))
      else m.(locks := m.locks - {f}, held := m.held[clientOf(t) := 0], blocks := Popped(m, t))
    case ClearOwner(t, ok) =>
      var f := Top(m, t).value.file;
      m.(owners := if ok then m.owners - {f} else m.owners, blocks := Moved(m, t, Cleared(f)))
    case Unlock(t) =>
      m.(locks := m.locks - {Top(m, t).value.file}, held := m.held[clientOf(t) := 0], blocks := Popped(m, t))
    case Leave(t) =>
      if Top(m, t) == Some(Unlocked) then m.(blocks := Popped(m, t))
      else
        m.(held := m.held[clientOf(t) := HeldBy(m, clientOf(t)) - 1],
           blocks := Popped(m, t))
  }

  const IDLE := Machine(map[], map[], map[], map[], map[])

  function Ran(steps: seq<Step>, clientOf: Thread -> Client): Option<Machine> {
    if steps == [] then Some(IDLE)
    else
      var before := Ran(steps[..|steps| - 1], clientOf);
      if before.Some? && Enabled(before.value, steps[|steps| - 1])
      then Some(After(before.value, steps[|steps| - 1], clientOf)) else None
  }

  // ---- what every schedule keeps, when each client is used by one thread ----

  ghost predicate OneThreadEach(clientOf: Thread -> Client) {
    forall t: Thread, u: Thread :: clientOf(t) == clientOf(u) ==> t == u
  }

  /** The block that polls or has a lock file, below which a client has no target. */
  function Outer(b: seq<Level>): Option<Level> {
    if b == [] then None
    else
      var below := Outer(b[..|b| - 1]);
      if below.Some? then below else if b[|b| - 1].Unlocked? then None else Some(b[|b| - 1])
  }

  lemma {:induction false} NoOuter(b: seq<Level>)
    requires Outer(b).None?
    ensures forall i | 0 <= i < |b| :: b[i].Unlocked?
    decreases |b|
  {
    if b == [] {
    } else {
      NoOuter(b[..|b| - 1]);
    }
  }

  /** How many blocks the client counts. */
  function Depth(b: seq<Level>): nat {
    if b == [] then 0 else Depth(b[..|b| - 1]) + if b[|b| - 1].Unlocked? then 0 else 1
  }

  predicate Running(level: Level) {
    level.Unlocked? || level.Nested? || level.Owning?
  }

  predicate GoodBlocks(b: seq<Level>) {
    b == []
    || (var below, last := b[..|b| - 1], b[|b| - 1];
        && GoodBlocks(below)
        && (below != [] ==> Running(below[|below| - 1]))
        && (if Outer(below).None? then !last.Nested? else last.Nested? || last.Unlocked?))
  }

  /** The lock file a thread's blocks have. */
  function FileOf(b: seq<Level>): Option<File> {
    var outer := Outer(b);
    if outer.None? || outer.value.Nested? || outer.value.Polling? || outer.value.Unlocked? then None
    else Some(outer.value.file)
  }

  ghost predicate ThreadInv(m: Machine, t: Thread, clientOf: Thread -> Client) {
    var b := BlocksOf(m, t);
    && GoodBlocks(b)
    && HeldBy(m, clientOf(t)) == Depth(b)
    && (forall f: File :: f in m.locks && m.locks[f] == t <==> FileOf(b) == Some(f))
    && (Outer(b).Some? && Outer(b).value.Owning? ==>
          Outer(b).value.file in m.owners && m.owners[Outer(b).value.file] == t)
  }

  lemma {:induction false} DepthIsOuter(b: seq<Level>)
    requires GoodBlocks(b)
    ensures Depth(b) > 0 <==> Outer(b).Some?
    ensures Outer(b).Some? ==> !Outer(b).value.Nested? && !Outer(b).value.Unlocked?
    decreases |b|
  {
    if b == [] {
    } else {
      DepthIsOuter(b[..|b| - 1]);
    }
  }

  /** Above its outer block a thread runs only in that block's body. */
  lemma {:induction false} RunningOwns(b: seq<Level>)
    requires GoodBlocks(b) && b != [] && Running(b[|b| - 1]) && Outer(b).Some?
    ensures Outer(b).value.Owning?
    decreases |b|
  {
    DepthIsOuter(b);
    var below := b[..|b| - 1];
    if Outer(below).Some? {
      assert below != [];
      RunningOwns(below);
    }
  }

  lemma OuterTop(b: seq<Level>)
    requires GoodBlocks(b) && b != [] && !b[|b| - 1].Unlocked? && !b[|b| - 1].Nested?
    ensures Outer(b) == Some(b[|b| - 1]) && Outer(b[..|b| - 1]).None? && Depth(b[..|b| - 1]) == 0
  {
    DepthIsOuter(b[..|b| - 1]);
  }

  lemma Push(b: seq<Level>, level: Level)
    requires GoodBlocks(b) && (b != [] ==> Running(b[|b| - 1]))
    requires if Outer(b).None? then !level.Nested? else level.Nested? || level.Unlocked?
    ensures GoodBlocks(b + [level])
    ensures Outer(b + [level]) == if Outer(b).Some? || level.Unlocked? then Outer(b) else Some(level)
    ensures Depth(b + [level]) == Depth(b) + if level.Unlocked? then 0 else 1
  {
    assert (b + [level])[..|b|] == b;
  }

  lemma Change(b: seq<Level>, level: Level)
    requires GoodBlocks(b) && b != [] && !b[|b| - 1].Unlocked? && !b[|b| - 1].Nested?
    requires !level.Unlocked? && !level.Nested?
    ensures var after := b[|b| - 1 := level];
            GoodBlocks(after) && Outer(after) == Some(level) && Depth(after) == Depth(b)
  {
    OuterTop(b);
    assert b[|b| - 1 := level][..|b| - 1] == b[..|b| - 1];
  }

  // ---- a thread's own steps ----

  lemma EnterOwn(m: Machine, t: Thread, clientOf: Thread -> Client)
    requires ThreadInv(m, t, clientOf) && Enabled(m, Enter(t))
    ensures ThreadInv(AfterEnter(m, t, clientOf(t)), t, clientOf)
  {
    var b, c := BlocksOf(m, t), clientOf(t);
    DepthIsOuter(b);
    Push(b, EnteredLevel(m, c));
    hide GoodBlocks, Outer, Depth;
  }

  lemma AcquireOwn(m: Machine, t: Thread, clientOf: Thread -> Client)
    requires ThreadInv(m, t, clientOf) && Enabled(m, Acquire(t))
    ensures ThreadInv(After(m, Acquire(t), clientOf), t, clientOf)
  {
    var b := BlocksOf(m, t);
    OuterTop(b);
    Change(b, Locked(b[|b| - 1].file));
    hide GoodBlocks, Outer, Depth;
  }

  lemma OwnerOwn(m: Machine, t: Thread, ok: bool, clientOf: Thread -> Client)
    requires ThreadInv(m, t, clientOf) && Enabled(m, WriteOwner(t, ok))
    ensures ThreadInv(After(m, WriteOwner(t, ok), clientOf), t, clientOf)
  {
    var b := BlocksOf(m, t);
    OuterTop(b);
    Change(b, Owning(b[|b| - 1].file));
    assert GoodBlocks(b[..|b| - 1]);
    hide GoodBlocks, Outer, Depth;
  }

  lemma ClearOwn(m: Machine, t: Thread, ok: bool, clientOf: Thread -> Client)
    requires ThreadInv(m, t, clientOf) && Enabled(m, ClearOwner(t, ok))
    ensures ThreadInv(After(m, ClearOwner(t, ok), clientOf), t, clientOf)
  {
    var b := BlocksOf(m, t);
    OuterTop(b);
    Change(b, Cleared(b[|b| - 1].file));
    hide GoodBlocks, Outer, Depth;
  }

  lemma EndOwn(m: Machine, s: Step, clientOf: Thread -> Client)
    requires s.GiveUp? || s.Unlock?
    requires ThreadInv(m, s.t, clientOf) && Enabled(m, s)
    ensures ThreadInv(After(m, s, clientOf), s.t, clientOf)
  {
    var b := BlocksOf(m, s.t);
    OuterTop(b);
    assert GoodBlocks(b[..|b| - 1]);
    hide GoodBlocks, Outer, Depth;
  }

  lemma LeaveOwn(m: Machine, t: Thread, clientOf: Thread -> Client)
    requires ThreadInv(m, t, clientOf) && Enabled(m, Leave(t))
    ensures ThreadInv(After(m, Leave(t), clientOf), t, clientOf)
  {
    var b := BlocksOf(m, t);
    var below := b[..|b| - 1];
    DepthIsOuter(below);
    DepthIsOuter(b);
    assert Outer(b) == Outer(below) && GoodBlocks(below);
    assert Depth(b) == Depth(below) + if b[|b| - 1].Unlocked? then 0 else 1;
    hide GoodBlocks, Outer, Depth;
  }

  /** What a thread's invariant reads. */
  lemma Untouched(m: Machine, after: Machine, u: Thread, clientOf: Thread -> Client)
    requires ThreadInv(m, u, clientOf)
    requires BlocksOf(after, u) == BlocksOf(m, u) && HeldBy(after, clientOf(u)) == HeldBy(m, clientOf(u))
    requires forall f: File :: f in after.locks && after.locks[f] == u <==> f in m.locks && m.locks[f] == u
    requires forall f: File | f in m.locks && m.locks[f] == u && f in m.owners ::
               f in after.owners && after.owners[f] == m.owners[f]
    ensures ThreadInv(after, u, clientOf)
  {
    var b := BlocksOf(m, u);
    if Outer(b).Some? && Outer(b).value.Owning? {
      assert FileOf(b) == Some(Outer(b).value.file);
    }
    hide GoodBlocks, Outer, Depth;
  }

  /** A thread at a block that has a file has that file's lock. */
  lemma TopHasFile(m: Machine, t: Thread, clientOf: Thread -> Client)
    requires ThreadInv(m, t, clientOf) && Top(m, t).Some?
    requires var top := Top(m, t).value; top.Locked? || top.Owning? || top.Cleared?
    ensures Top(m, t).value.file in m.locks && m.locks[Top(m, t).value.file] == t
  {
    OuterTop(BlocksOf(m, t));
    hide GoodBlocks, Outer, Depth;
    assert FileOf(BlocksOf(m, t)) == Some(Top(m, t).value.file);
  }

  /** A kill leaves the other processes as they were, and nothing of its own. */
  lemma KillKeeps(m: Machine, dead: set<Client>, u: Thread, clientOf: Thread -> Client)
    requires ThreadInv(m, u, clientOf)
    ensures ThreadInv(AfterKill(m, dead, clientOf), u, clientOf)
  {
    if clientOf(u) !in dead { Untouched(m, AfterKill(m, dead, clientOf), u, clientOf) by { hide ThreadInv; } }
  }

  predicate ByThread(s: Step) {
    !s.SetTarget? && !s.Kill?
  }

  /** A step of one thread leaves the others as they were. */
  lemma OthersKeep(m: Machine, s: Step, u: Thread, clientOf: Thread -> Client)
    requires OneThreadEach(clientOf) && Enabled(m, s) && ThreadInv(m, u, clientOf) && !s.Kill?
    requires ByThread(s) ==> s.t != u && ThreadInv(m, s.t, clientOf)
    ensures ThreadInv(After(m, s, clientOf), u, clientOf)
  {
    if ByThread(s) {
      assert clientOf(u) != clientOf(s.t);
      if s.WriteOwner? || s.ClearOwner? || s.Unlock? { TopHasFile(m, s.t, clientOf); }
    }
    var after := After(m, s, clientOf);
    hide OneThreadEach;
    assert HeldBy(after, clientOf(u)) == HeldBy(m, clientOf(u));
    Untouched(m, after, u, clientOf) by { hide ThreadInv; }
  }

  ghost predicate Inv(m: Machine, clientOf: Thread -> Client) {
    forall t: Thread :: ThreadInv(m, t, clientOf)
  }

  lemma OwnKeeps(m: Machine, s: Step, clientOf: Thread -> Client)
    requires ByThread(s) && Enabled(m, s) && ThreadInv(m, s.t, clientOf)
    ensures ThreadInv(After(m, s, clientOf), s.t, clientOf)
  {
    match s
    case Enter(t) => EnterOwn(m, t, clientOf);
    case Acquire(t) => AcquireOwn(m, t, clientOf); hide ThreadInv;
    case WriteOwner(t, ok) => OwnerOwn(m, t, ok, clientOf); hide ThreadInv;
    case ClearOwner(t, ok) => ClearOwn(m, t, ok, clientOf); hide ThreadInv;
    case Leave(t) => LeaveOwn(m, t, clientOf); hide ThreadInv;
    case _ => EndOwn(m, s, clientOf); hide ThreadInv;
  }

  lemma StepKeeps(m: Machine, s: Step, u: Thread, clientOf: Thread -> Client)
    requires OneThreadEach(clientOf) && Inv(m, clientOf) && Enabled(m, s)
    ensures ThreadInv(After(m, s, clientOf), u, clientOf)
  {
    hide ThreadInv;
    assert ThreadInv(m, u, clientOf);
    if s.Kill? {
      hide AfterKill;
      KillKeeps(m, s.dead, u, clientOf);
    } else if ByThread(s) && s.t == u {
      hide After, Enabled;
      OwnKeeps(m, s, clientOf);
    } else {
      hide After, Enabled;
      if ByThread(s) { assert ThreadInv(m, s.t, clientOf); }
      OthersKeep(m, s, u, clientOf);
    }
  }

  lemma {:induction false} EveryScheduleKeeps(steps: seq<Step>, clientOf: Thread -> Client)
    requires OneThreadEach(clientOf) && Ran(steps, clientOf).Some?
    ensures Inv(Ran(steps, clientOf).value, clientOf)
    decreases |steps|
  {
    hide ThreadInv, After, Enabled;
    if steps == [] {
      forall u: Thread ensures ThreadInv(IDLE, u, clientOf) { IdleInv(u, clientOf); }
    } else {
      var n := |steps| - 1;
      EveryScheduleKeeps(steps[..n], clientOf);
      var before, s := Ran(steps[..n], clientOf).value, steps[n];
      forall u: Thread ensures ThreadInv(After(before, s, clientOf), u, clientOf) {
        StepKeeps(before, s, u, clientOf);
      }
    }
  }

  lemma IdleInv(u: Thread, clientOf: Thread -> Client)
    ensures ThreadInv(IDLE, u, clientOf)
  {}

  /**
   Mutual exclusion: when each client is used by one thread, threads whose blocks have the same lock file are one
   and the same, and a thread in the body of a counted block, nested or not, has a lock file whose record names it.
   */
  lemma OneHolderPerTarget(steps: seq<Step>, clientOf: Thread -> Client, t: Thread, u: Thread)
    requires OneThreadEach(clientOf) && Ran(steps, clientOf).Some?
    ensures var m := Ran(steps, clientOf).value;
            && (FileOf(BlocksOf(m, t)).Some? && FileOf(BlocksOf(m, t)) == FileOf(BlocksOf(m, u)) ==> t == u)
            && (InBody(m, t) && Depth(BlocksOf(m, t)) > 0 ==>
                  FileOf(BlocksOf(m, t)).Some?
                  && FileOf(BlocksOf(m, t)).value in m.owners && m.owners[FileOf(BlocksOf(m, t)).value] == t)
  {
    EveryScheduleKeeps(steps, clientOf);
    var m := Ran(steps, clientOf).value;
    assert ThreadInv(m, t, clientOf) && ThreadInv(m, u, clientOf);
    var b := BlocksOf(m, t);
    DepthIsOuter(b);
    if InBody(m, t) && Depth(b) > 0 { RunningOwns(b); }
    hide GoodBlocks, Outer, Depth, Ran;
  }

  /** The count of a client is the number of blocks its thread has open with a target, in every schedule. */
  lemma CountIsDepth(steps: seq<Step>, clientOf: Thread -> Client, t: Thread)
    requires OneThreadEach(clientOf) && Ran(steps, clientOf).Some?
    ensures var m := Ran(steps, clientOf).value; HeldBy(m, clientOf(t)) == Depth(BlocksOf(m, t))
  {
    EveryScheduleKeeps(steps, clientOf);
    assert ThreadInv(Ran(steps, clientOf).value, t, clientOf);
  }

  lemma EnterAndLeave(m: Machine, t: Thread, clientOf: Thread -> Client)
    requires InBody(m, t) && (clientOf(t) in m.targets ==> HeldBy(m, clientOf(t)) > 0)
    ensures var inside := After(m, Enter(t), clientOf);
            InBody(inside, t) && Enabled(inside, Leave(t)) && After(inside, Leave(t), clientOf) == m
  {
    var b, inside := BlocksOf(m, t), AfterEnter(m, t, clientOf(t));
    assert BlocksOf(inside, t)[..|b|] == b;
    var after := After(inside, Leave(t), clientOf);
    assert after.blocks == m.blocks;
    assert after.held == m.held;
  }

  /** A nested block is entered at once and, left again, restores the count, the locks and the records. */
  lemma NestedRestores(steps: seq<Step>, clientOf: Thread -> Client, t: Thread)
    requires OneThreadEach(clientOf) && Ran(steps, clientOf).Some?
    requires InBody(Ran(steps, clientOf).value, t) && Depth(BlocksOf(Ran(steps, clientOf).value, t)) > 0
    ensures var m := Ran(steps, clientOf).value;
            var inside := After(m, Enter(t), clientOf);
            InBody(inside, t) && Enabled(inside, Leave(t)) && After(inside, Leave(t), clientOf) == m
  {
    hide Ran, Depth, After, BlocksOf;
    CountIsDepth(steps, clientOf, t);
    EnterAndLeave(Ran(steps, clientOf).value, t, clientOf);
  }

  // ---- mutual exclusion on a target ----

  predicate AllFor(b: seq<Level>, f: File) {
    forall i | 0 <= i < |b| && !b[i].Unlocked? :: b[i].file == f
  }

  predicate OuterFor(b: seq<Level>, f: File) {
    Outer(b).Some? && !Outer(b).value.Unlocked? && Outer(b).value.file == f
  }

  /** A thread's counted blocks were all entered for one target, its client's. */
  ghost predicate OneTarget(m: Machine, t: Thread, clientOf: Thread -> Client) {
    forall f: File | OuterFor(BlocksOf(m, t), f) ::
      AllFor(BlocksOf(m, t), f) && (clientOf(t) in m.targets ==> m.targets[clientOf(t)] == f)
  }

  /** The target of a client is set and cleared only while it counts no block. */
  ghost predicate Steady(steps: seq<Step>, clientOf: Thread -> Client) {
    forall i | 0 <= i < |steps| && steps[i].SetTarget? && Ran(steps[..i], clientOf).Some? ::
      HeldBy(Ran(steps[..i], clientOf).value, steps[i].c) == 0
  }

  lemma PushOneTarget(b: seq<Level>, level: Level, f: File)
    requires GoodBlocks(b) && (b != [] ==> Running(b[|b| - 1]))
    requires if Outer(b).None? then !level.Nested? else level.Nested? || level.Unlocked?
    requires OuterFor(b + [level], f)
    ensures Outer(b).Some? ==> OuterFor(b, f)
    ensures AllFor(b, f) && (level.Unlocked? || level.file == f) ==> AllFor(b + [level], f)
    ensures Outer(b).None? ==> AllFor(b, f) && !level.Unlocked? && level.file == f
  {
    DepthIsOuter(b);
    Push(b, level);
    if Outer(b).None? { NoOuter(b); }
    hide GoodBlocks, Outer, Depth, Running;
  }

  lemma EnterBlocks(m: Machine, t: Thread, clientOf: Thread -> Client)
    requires ThreadInv(m, t, clientOf) && Enabled(m, Enter(t))
    ensures var b, level := BlocksOf(m, t), EnteredLevel(m, clientOf(t));
            && GoodBlocks(b) && (b != [] ==> Running(b[|b| - 1]))
            && (if Outer(b).None? then !level.Nested? else level.Nested? || level.Unlocked?)
            && (!level.Unlocked? ==> clientOf(t) in m.targets && level.file == m.targets[clientOf(t)])
            && BlocksOf(AfterEnter(m, t, clientOf(t)), t) == b + [level]
            && AfterEnter(m, t, clientOf(t)).targets == m.targets
  {
    DepthIsOuter(BlocksOf(m, t));
    hide GoodBlocks, Outer, Depth;
  }

  lemma EnterOneTarget(m: Machine, t: Thread, clientOf: Thread -> Client)
    requires ThreadInv(m, t, clientOf) && Enabled(m, Enter(t)) && OneTarget(m, t, clientOf)
    ensures OneTarget(AfterEnter(m, t, clientOf(t)), t, clientOf)
  {
    hide ThreadInv, Enabled, AfterEnter, GoodBlocks, Outer, Depth, AllFor, OuterFor, BlocksOf, Running, EnteredLevel;
    EnterBlocks(m, t, clientOf);
    var b, level := BlocksOf(m, t), EnteredLevel(m, clientOf(t));
    forall f: File | OuterFor(b + [level], f)
      ensures AllFor(b + [level], f) && (clientOf(t) in m.targets ==> m.targets[clientOf(t)] == f)
    {
      PushOneTarget(b, level, f);
    }
  }

  lemma ChangeOneTarget(b: seq<Level>, level: Level, f: File)
    requires GoodBlocks(b) && b != [] && !b[|b| - 1].Unlocked? && !b[|b| - 1].Nested?
    requires !level.Unlocked? && !level.Nested? && level.file == b[|b| - 1].file
    requires OuterFor(b[|b| - 1 := level], f)
    ensures OuterFor(b, f) && (AllFor(b, f) ==> AllFor(b[|b| - 1 := level], f))
  {
    OuterTop(b);
    Change(b, level);
  }

  lemma PopOneTarget(b: seq<Level>, f: File)
    requires b != [] && OuterFor(b[..|b| - 1], f)
    ensures OuterFor(b, f) && (AllFor(b, f) ==> AllFor(b[..|b| - 1], f))
  {}

  lemma OwnOneTarget(m: Machine, s: Step, clientOf: Thread -> Client)
    requires ByThread(s) && Enabled(m, s) && ThreadInv(m, s.t, clientOf) && OneTarget(m, s.t, clientOf)
    ensures OneTarget(After(m, s, clientOf), s.t, clientOf)
  {
    var b, after := BlocksOf(m, s.t), BlocksOf(After(m, s, clientOf), s.t);
    if s.Enter? {
      EnterOneTarget(m, s.t, clientOf);
    } else if s.Acquire? || (s.WriteOwner? && s.ok) || s.ClearOwner? {
      var level := after[|b| - 1];
      assert after == b[|b| - 1 := level];
      forall f: File | OuterFor(after, f) ensures OuterFor(b, f) && (AllFor(b, f) ==> AllFor(after, f)) {
        ChangeOneTarget(b, level, f);
      }
      hide GoodBlocks, Outer, Depth, AllFor, OuterFor;
    } else {
      assert after == b[..|b| - 1];
      forall f: File | OuterFor(after, f) ensures OuterFor(b, f) && (AllFor(b, f) ==> AllFor(after, f)) {
        PopOneTarget(b, f);
      }
      hide GoodBlocks, Outer, Depth, AllFor, OuterFor;
    }
  }

  lemma OtherOneTarget(m: Machine, s: Step, u: Thread, clientOf: Thread -> Client)
    requires Enabled(m, s) && ThreadInv(m, u, clientOf) && OneTarget(m, u, clientOf)
    requires ByThread(s) ==> s.t != u
    requires s.SetTarget? ==> HeldBy(m, s.c) == 0
    ensures OneTarget(After(m, s, clientOf), u, clientOf)
  {
    DepthIsOuter(BlocksOf(m, u));
    assert Outer([]).None?;
    hide GoodBlocks, Outer, Depth, AllFor, FileOf;
  }

  lemma SteadyPrefix(steps: seq<Step>, clientOf: Thread -> Client)
    requires steps != [] && Steady(steps, clientOf)
    ensures Steady(steps[..|steps| - 1], clientOf)
    ensures steps[|steps| - 1].SetTarget? && Ran(steps[..|steps| - 1], clientOf).Some? ==>
              HeldBy(Ran(steps[..|steps| - 1], clientOf).value, steps[|steps| - 1].c) == 0
  {
    hide Ran, HeldBy;
    var before := steps[..|steps| - 1];
    assert forall i | 0 <= i < |before| :: before[..i] == steps[..i] && before[i] == steps[i];
  }

  lemma {:induction false} SteadyKeepsTarget(steps: seq<Step>, clientOf: Thread -> Client, u: Thread)
    requires OneThreadEach(clientOf) && Ran(steps, clientOf).Some? && Steady(steps, clientOf)
    ensures OneTarget(Ran(steps, clientOf).value, u, clientOf)
    decreases |steps|
  {
    if steps == [] {
      assert BlocksOf(IDLE, u) == [] && Outer([]).None?;
    } else {
      var n := |steps| - 1;
      SteadyPrefix(steps, clientOf);
      SteadyKeepsTarget(steps[..n], clientOf, u);
      EveryScheduleKeeps(steps[..n], clientOf);
      var before, s := Ran(steps[..n], clientOf).value, steps[n];
      assert ThreadInv(before, u, clientOf);
      hide ThreadInv, OneTarget, After, Enabled, Steady;
      if ByThread(s) && s.t == u {
        OwnOneTarget(before, s, clientOf);
      } else {
        OtherOneTarget(before, s, u, clientOf);
      }
    }
  }

  /** A thread inside the body of a block it entered for target f, or inside a block of another kind within it. */
  predicate Uses(m: Machine, t: Thread, f: File) {
    InBody(m, t) && exists i | 0 <= i < |BlocksOf(m, t)| ::
      !BlocksOf(m, t)[i].Unlocked? && BlocksOf(m, t)[i].file == f
  }

  /** No target is used by two threads at once. */
  ghost predicate Exclusive(m: Machine) {
    forall t: Thread, u: Thread, f: File :: Uses(m, t, f) && Uses(m, u, f) ==> t == u
  }

  lemma UserHolds(m: Machine, t: Thread, f: File, clientOf: Thread -> Client)
    requires ThreadInv(m, t, clientOf) && OneTarget(m, t, clientOf) && Uses(m, t, f)
    ensures f in m.locks && m.locks[f] == t
  {
    var b := BlocksOf(m, t);
    DepthIsOuter(b);
    if Outer(b).None? { NoOuter(b); }
    RunningOwns(b);
    assert OuterFor(b, Outer(b).value.file);
    assert FileOf(b) == Some(f);
    hide GoodBlocks, Outer, Depth;
  }

  lemma OneEachExcludes(steps: seq<Step>, clientOf: Thread -> Client)
    requires OneThreadEach(clientOf) && Ran(steps, clientOf).Some? && Steady(steps, clientOf)
    ensures Exclusive(Ran(steps, clientOf).value)
  {
    EveryScheduleKeeps(steps, clientOf);
    var m := Ran(steps, clientOf).value;
    hide ThreadInv, OneTarget, Uses, Ran, Steady;
    forall t: Thread, u: Thread, f: File | Uses(m, t, f) && Uses(m, u, f) ensures t == u {
      assert ThreadInv(m, t, clientOf) && ThreadInv(m, u, clientOf);
      SteadyKeepsTarget(steps, clientOf, t);
      SteadyKeepsTarget(steps, clientOf, u);
      UserHolds(m, t, f, clientOf);
      UserHolds(m, u, f, clientOf);
    }
  }

  // ---- schedules that break it ----

  lemma RanNext(steps: seq<Step>, s: Step, clientOf: Thread -> Client, m: Machine)
    requires Ran(steps, clientOf) == Some(m) && Enabled(m, s)
    ensures Ran(steps + [s], clientOf) == Some(After(m, s, clientOf))
  {
    assert (steps + [s])[..|steps|] == steps;
  }

  lemma SteadyNext(steps: seq<Step>, s: Step, clientOf: Thread -> Client, m: Machine)
    requires Ran(steps, clientOf) == Some(m) && Steady(steps, clientOf)
    requires s.SetTarget? ==> HeldBy(m, s.c) == 0
    ensures Steady(steps + [s], clientOf)
  {
    hide Ran, HeldBy;
    var more := steps + [s];
    assert forall i | 0 <= i < |steps| :: more[..i] == steps[..i] && more[i] == steps[i];
    assert more[..|steps|] == steps;
  }

  /** The steps of a thread that takes the lock of a free target in its first block. */
  function Taking(t: Thread, f: File, c: Client): seq<Step> {
    [SetTarget(c, Some(f)), Enter(t), Acquire(t), WriteOwner(t, true)]
  }

  function Taken(m: Machine, t: Thread, f: File, c: Client): Machine {
    Machine(m.locks[f := t], m.owners[f := t], m.held[c := 1], m.targets[c := f], m.blocks[t := [Owning(f)]])
  }

  lemma EntersAlone(m: Machine, t: Thread, f: File, clientOf: Thread -> Client)
    requires t !in m.blocks && clientOf(t) !in m.held && clientOf(t) in m.targets && m.targets[clientOf(t)] == f
    ensures Enabled(m, Enter(t))
    ensures After(m, Enter(t), clientOf) ==
            m.(held := m.held[clientOf(t) := 1], blocks := m.blocks[t := [Polling(f)]])
  {
    assert [] + [Polling(f)] == [Polling(f)];
  }

  lemma AcquiresAlone(m: Machine, t: Thread, f: File, clientOf: Thread -> Client)
    requires BlocksOf(m, t) == [Polling(f)] && f !in m.locks
    ensures Enabled(m, Acquire(t))
    ensures After(m, Acquire(t), clientOf) == m.(locks := m.locks[f := t], blocks := m.blocks[t := [Locked(f)]])
  {
    assert [Polling(f)][0 := Locked(f)] == [Locked(f)];
  }

  lemma WritesAlone(m: Machine, t: Thread, f: File, clientOf: Thread -> Client)
    requires BlocksOf(m, t) == [Locked(f)]
    ensures Enabled(m, WriteOwner(t, true))
    ensures After(m, WriteOwner(t, true), clientOf) ==
            m.(owners := m.owners[f := t], blocks := m.blocks[t := [Owning(f)]])
  {
    assert [Locked(f)][0 := Owning(f)] == [Owning(f)];
  }

  lemma TakesIt(steps: seq<Step>, clientOf: Thread -> Client, m: Machine, t: Thread, f: File)
    requires Ran(steps, clientOf) == Some(m) && Steady(steps, clientOf)
    requires t !in m.blocks && f !in m.locks && clientOf(t) !in m.held
    ensures Ran(steps + Taking(t, f, clientOf(t)), clientOf) == Some(Taken(m, t, f, clientOf(t)))
    ensures Steady(steps + Taking(t, f, clientOf(t)), clientOf)
  {
    hide Ran, Steady, AfterEnter, AfterKill;
    var c := clientOf(t);
    var s0, s1, s2, s3 := SetTarget(c, Some(f)), Enter(t), Acquire(t), WriteOwner(t, true);
    var m1 := m.(targets := m.targets[c := f]);
    var m2 := m1.(held := m1.held[c := 1], blocks := m1.blocks[t := [Polling(f)]]);
    var m3 := m2.(locks := m2.locks[f := t], blocks := m2.blocks[t := [Locked(f)]]);
    RanNext(steps, s0, clientOf, m);
    SteadyNext(steps, s0, clientOf, m);
    hide After, Enabled;
    EntersAlone(m1, t, f, clientOf);
    RanNext(steps + [s0], s1, clientOf, m1);
    SteadyNext(steps + [s0], s1, clientOf, m1);
    AcquiresAlone(m2, t, f, clientOf);
    RanNext(steps + [s0] + [s1], s2, clientOf, m2);
    SteadyNext(steps + [s0] + [s1], s2, clientOf, m2);
    WritesAlone(m3, t, f, clientOf);
    RanNext(steps + [s0] + [s1] + [s2], s3, clientOf, m3);
    SteadyNext(steps + [s0] + [s1] + [s2], s3, clientOf, m3);
    assert steps + [s0] + [s1] + [s2] + [s3] == steps + Taking(t, f, c);
    assert m3.blocks[t := [Owning(f)]] == m.blocks[t := [Owning(f)]];
  }

  /** Whatever two threads share a client: one takes the target, and the other passes through on its count. */
  lemma SharedClientBreaksExclusion(clientOf: Thread -> Client, t: Thread, u: Thread) returns (steps: seq<Step>)
    requires t != u && clientOf(t) == clientOf(u)
    ensures Ran(steps, clientOf).Some? && Steady(steps, clientOf)
    ensures var m := Ran(steps, clientOf).value; Uses(m, t, 0) && Uses(m, u, 0) && !Exclusive(m)
  {
    var c := clientOf(t);
    var m := Taken(IDLE, t, 0, c);
    assert [] + Taking(t, 0, c) == Taking(t, 0, c);
    TakesIt([], clientOf, IDLE, t, 0);
    steps := Taking(t, 0, c) + [Enter(u)];
    RanNext(Taking(t, 0, c), Enter(u), clientOf, m);
    SteadyNext(Taking(t, 0, c), Enter(u), clientOf, m);
    hide Ran, Steady, Taking;
    var after := AfterEnter(m, u, c);
    assert BlocksOf(after, u) == [Nested(0)] && BlocksOf(after, t) == [Owning(0)];
    assert BlocksOf(after, u)[0].file == 0 && BlocksOf(after, t)[0].file == 0;
    TwoUsers(after, t, u, 0);
  }

  /** Every schedule that sets targets between blocks keeps each target to one thread, killed processes included, if
      and only if no two threads share a client. */
  lemma ExclusionExactly(clientOf: Thread -> Client)
    ensures (forall steps: seq<Step> | Ran(steps, clientOf).Some? && Steady(steps, clientOf) ::
               Exclusive(Ran(steps, clientOf).value))
            <==> OneThreadEach(clientOf)
  {
    hide Ran, Steady, Exclusive, Uses;
    if OneThreadEach(clientOf) {
      forall steps: seq<Step> | Ran(steps, clientOf).Some? && Steady(steps, clientOf)
        ensures Exclusive(Ran(steps, clientOf).value)
      {
        OneEachExcludes(steps, clientOf);
      }
    } else {
      var t, u :| clientOf(t) == clientOf(u) && t != u;
      var steps := SharedClientBreaksExclusion(clientOf, t, u);
    }
  }

  /** Thread u holds target 0 and thread t, with another client, target 1. */
  lemma TwoHolders(clientOf: Thread -> Client, t: Thread, u: Thread) returns (steps: seq<Step>, m: Machine)
    requires clientOf(t) != clientOf(u)
    ensures Ran(steps, clientOf) == Some(m) && m == Taken(Taken(IDLE, u, 0, clientOf(u)), t, 1, clientOf(t))
  {
    hide Ran, Steady, Taking;
    var c, d := clientOf(t), clientOf(u);
    assert [] + Taking(u, 0, d) == Taking(u, 0, d);
    assert Ran([], clientOf) == Some(IDLE) && Steady([], clientOf) by { RanNothing(clientOf); }
    TakesIt([], clientOf, IDLE, u, 0);
    TakesIt(Taking(u, 0, d), clientOf, Taken(IDLE, u, 0, d), t, 1);
    steps, m := Taking(u, 0, d) + Taking(t, 1, c), Taken(Taken(IDLE, u, 0, d), t, 1, c);
  }

  lemma RanNothing(clientOf: Thread -> Client)
    ensures Ran([], clientOf) == Some(IDLE) && Steady([], clientOf)
  {}

  lemma TwoUsers(m: Machine, t: Thread, u: Thread, f: File)
    requires t != u && Uses(m, t, f) && Uses(m, u, f)
    ensures !Exclusive(m)
  {
    hide Uses;
  }

  lemma NestsUncounted(m: Machine, t: Thread, u: Thread, clientOf: Thread -> Client)
    requires t != u && BlocksOf(m, u) == [Owning(0)] && BlocksOf(m, t) == [Owning(1)] && HeldBy(m, clientOf(t)) == 1
    requires clientOf(t) in m.targets && m.targets[clientOf(t)] == 0
    ensures var after := AfterEnter(m, t, clientOf(t));
            Enabled(m, Enter(t)) && Uses(after, t, 0) && Uses(after, u, 0) && !Exclusive(after)
  {
    var after := AfterEnter(m, t, clientOf(t));
    assert BlocksOf(after, t) == [Owning(1), Nested(0)] && BlocksOf(after, u) == [Owning(0)];
    assert BlocksOf(after, t)[1].file == 0 && BlocksOf(after, u)[0].file == 0;
    TwoUsers(after, t, u, 0);
  }

  lemma NotSteady(steps: seq<Step>, c: Client, file: Option<File>, more: seq<Step>, clientOf: Thread -> Client)
    requires Ran(steps, clientOf).Some? && HeldBy(Ran(steps, clientOf).value, c) != 0
    ensures !Steady(steps + [SetTarget(c, file)] + more, clientOf)
  {
    hide Ran, HeldBy;
    var all := steps + [SetTarget(c, file)] + more;
    assert all[..|steps|] == steps && all[|steps|] == SetTarget(c, file);
  }

  /** Setting another target inside a block breaks exclusion whoever shares what: the next block is only counted. */
  lemma RetargetingBreaksExclusion(clientOf: Thread -> Client, t: Thread, u: Thread) returns (steps: seq<Step>)
    requires clientOf(t) != clientOf(u)
    ensures Ran(steps, clientOf).Some? && !Steady(steps, clientOf)
    ensures var m := Ran(steps, clientOf).value; Uses(m, t, 0) && Uses(m, u, 0) && !Exclusive(m)
  {
    hide Ran, Steady, Uses, Exclusive, AfterEnter;
    var c := clientOf(t);
    var before, m := TwoHolders(clientOf, t, u);
    NotSteady(before, c, Some(0), [Enter(t)], clientOf);
    RanNext(before, SetTarget(c, Some(0)), clientOf, m);
    var next := m.(targets := m.targets[c := 0]);
    NestsUncounted(next, t, u, clientOf);
    RanNext(before + [SetTarget(c, Some(0))], Enter(t), clientOf, next);
    steps := before + [SetTarget(c, Some(0))] + [Enter(t)];
  }

  // ---- the owner record ----

  /** A record found in file f names a thread in the body of the block that has f. */
  predicate OwnerTrue(m: Machine, f: File) {
    f in m.owners ==> Outer(BlocksOf(m, m.owners[f])) == Some(Owning(f))
  }

  /** Whether a record left behind lies in f after the step, given whether one lay there before: a kill of the process
      it names and a failing clear leave it, the next record written over it replaces it. */
  predicate StaleAfter(m: Machine, s: Step, clientOf: Thread -> Client, f: File, stale: bool) {
    match s
    case Kill(dead) => stale || (f in m.owners && clientOf(m.owners[f]) in dead)
    case WriteOwner(t, ok) => stale && !(ok && Top(m, t) == Some(Locked(f)))
    case ClearOwner(t, ok) => if Top(m, t) == Some(Owning(f)) then !ok else stale
    case _ => stale
  }

  predicate Stale(steps: seq<Step>, clientOf: Thread -> Client, f: File) {
    if steps == [] then false
    else
      var before := steps[..|steps| - 1];
      Ran(before, clientOf).Some?
      && StaleAfter(Ran(before, clientOf).value, steps[|steps| - 1], clientOf, f, Stale(before, clientOf, f))
  }

  lemma OuterEnter(m: Machine, t: Thread, clientOf: Thread -> Client)
    requires Enabled(m, Enter(t)) && ThreadInv(m, t, clientOf)
    ensures var before, after := Outer(BlocksOf(m, t)), Outer(BlocksOf(AfterEnter(m, t, clientOf(t)), t));
            after == before || (before.None? && after.Some? && after.value.Polling?)
  {
    hide ThreadInv, Enabled, AfterEnter, GoodBlocks, Outer, Depth, BlocksOf, Running;
    EnterBlocks(m, t, clientOf);
    Push(BlocksOf(m, t), EnteredLevel(m, clientOf(t)));
  }

  lemma OuterLeave(m: Machine, t: Thread, clientOf: Thread -> Client)
    requires Enabled(m, Leave(t)) && ThreadInv(m, t, clientOf)
    ensures Outer(BlocksOf(After(m, Leave(t), clientOf), t)) == Outer(BlocksOf(m, t))
  {
    var b := BlocksOf(m, t);
    assert BlocksOf(After(m, Leave(t), clientOf), t) == b[..|b| - 1];
    hide ThreadInv, HeldBy, After, Depth;
  }

  /** Steps within a block that polls a file itself. */
  lemma OuterMoved(m: Machine, s: Step, clientOf: Thread -> Client)
    requires ByThread(s) && !s.Enter? && !s.Leave? && Enabled(m, s) && ThreadInv(m, s.t, clientOf)
    ensures var before, after := Outer(BlocksOf(m, s.t)), Outer(BlocksOf(After(m, s, clientOf), s.t));
            && before == Top(m, s.t)
            && after == (if s.Acquire? then Some(Locked(Top(m, s.t).value.file))
                         else if s.WriteOwner? && s.ok then Some(Owning(Top(m, s.t).value.file))
                         else if s.ClearOwner? then Some(Cleared(Top(m, s.t).value.file))
                         else None)
  {
    var b, after := BlocksOf(m, s.t), BlocksOf(After(m, s, clientOf), s.t);
    OuterTop(b);
    if s.Acquire? || (s.WriteOwner? && s.ok) || s.ClearOwner? { Change(b, after[|b| - 1]); }
    hide GoodBlocks, Outer, Depth, HeldBy;
  }

  /** In the body of the block that has f, the record in f is the thread's own. */
  lemma OwningNamesItself(m: Machine, t: Thread, clientOf: Thread -> Client)
    requires ThreadInv(m, t, clientOf) && Top(m, t).Some? && Top(m, t).value.Owning?
    ensures Top(m, t).value.file in m.owners && m.owners[Top(m, t).value.file] == t
  {
    OuterTop(BlocksOf(m, t));
  }

  predicate Owns(m: Machine, t: Thread, f: File) {
    Outer(BlocksOf(m, t)) == Some(Owning(f))
  }

  lemma OwnerTrueIs(m: Machine, f: File)
    ensures OwnerTrue(m, f) <==> (f in m.owners ==> Owns(m, m.owners[f], f))
  {}

  /** A thread's own step, seen from the record in f: what it does to the record, and whether the thread owns f. */
  lemma OwnStepOwns(m: Machine, s: Step, clientOf: Thread -> Client, f: File)
    requires ByThread(s) && Enabled(m, s) && ThreadInv(m, s.t, clientOf)
    ensures var after := After(m, s, clientOf);
            if s.WriteOwner? && s.ok && Top(m, s.t) == Some(Locked(f))
            then f in after.owners && after.owners[f] == s.t && Owns(after, s.t, f)
            else if s.ClearOwner? && Top(m, s.t) == Some(Owning(f))
            then (if s.ok then f !in after.owners
                  else f in after.owners && after.owners[f] == s.t && !Owns(after, s.t, f))
            else (f in after.owners <==> f in m.owners)
                 && (f in m.owners ==> after.owners[f] == m.owners[f])
                 && (Owns(after, s.t, f) <==> Owns(m, s.t, f))
  {
    if s.Enter? {
      OuterEnter(m, s.t, clientOf);
    } else if s.Leave? {
      OuterLeave(m, s.t, clientOf);
    } else {
      OuterMoved(m, s, clientOf);
    }
    if s.ClearOwner? { OwningNamesItself(m, s.t, clientOf); }
    hide ThreadInv, GoodBlocks, Outer, Depth, HeldBy, BlocksOf;
  }

  lemma OtherOwns(m: Machine, s: Step, clientOf: Thread -> Client, u: Thread, f: File)
    requires ByThread(s) && Enabled(m, s) && u != s.t
    ensures Owns(After(m, s, clientOf), u, f) <==> Owns(m, u, f)
  {
    assert BlocksOf(After(m, s, clientOf), u) == BlocksOf(m, u);
    hide Outer;
  }

  lemma StaleAfterOwn(m: Machine, s: Step, clientOf: Thread -> Client, f: File, stale: bool)
    requires ByThread(s) && Enabled(m, s)
    ensures StaleAfter(m, s, clientOf, f, stale) ==
            if s.WriteOwner? && s.ok && Top(m, s.t) == Some(Locked(f)) then false
            else if s.ClearOwner? && Top(m, s.t) == Some(Owning(f)) then !s.ok
            else stale
  {}

  lemma HasThread(s: Step)
    requires ByThread(s)
    ensures !s.SetTarget? && !s.Kill?
  {}

  lemma OwnRecordStep(m: Machine, s: Step, clientOf: Thread -> Client, f: File)
    requires ByThread(s) && Enabled(m, s) && ThreadInv(m, s.t, clientOf)
    ensures OwnerTrue(After(m, s, clientOf), f) <==> !StaleAfter(m, s, clientOf, f, !OwnerTrue(m, f))
  {
    hide *;
    var after := After(m, s, clientOf);
    OwnStepOwns(m, s, clientOf, f);
    StaleAfterOwn(m, s, clientOf, f, !OwnerTrue(m, f));
    OwnerTrueIs(m, f);
    OwnerTrueIs(after, f);
    HasThread(s);
    if f in m.owners && m.owners[f] != s.t { OtherOwns(m, s, clientOf, m.owners[f], f); }
  }

  lemma RecordStep(m: Machine, s: Step, clientOf: Thread -> Client, f: File)
    requires Inv(m, clientOf) && Enabled(m, s)
    ensures OwnerTrue(After(m, s, clientOf), f) <==> !StaleAfter(m, s, clientOf, f, !OwnerTrue(m, f))
  {
    if ByThread(s) {
      assert ThreadInv(m, s.t, clientOf);
      hide After, Enabled, OwnerTrue, StaleAfter, ThreadInv;
      OwnRecordStep(m, s, clientOf, f);
    } else {
      assert Outer([]).None?;
      hide ThreadInv, Outer;
    }
  }

  /**
   After every schedule, killed processes and failing writes included, the record in a lock file names the thread that
   is at that moment in the body of the block that has the file, if and only if no record left behind lies there.
   */
  lemma {:induction false} RecordTrueExactly(steps: seq<Step>, clientOf: Thread -> Client, f: File)
    requires OneThreadEach(clientOf) && Ran(steps, clientOf).Some?
    ensures OwnerTrue(Ran(steps, clientOf).value, f) <==> !Stale(steps, clientOf, f)
    decreases |steps|
  {
    if steps == [] {
    } else {
      var n := |steps| - 1;
      RecordTrueExactly(steps[..n], clientOf, f);
      EveryScheduleKeeps(steps[..n], clientOf);
      hide Inv, OwnerTrue, StaleAfter, After, Enabled;
      RecordStep(Ran(steps[..n], clientOf).value, steps[n], clientOf, f);
    }
  }

  /** A killed holder: its target is free again while the record in the file still names it. */
  lemma KilledHolderLeavesRecord(clientOf: Thread -> Client, t: Thread, f: File) returns (steps: seq<Step>)
    ensures Ran(steps, clientOf).Some? && Steady(steps, clientOf)
    ensures var m := Ran(steps, clientOf).value;
            f !in m.locks && f in m.owners && m.owners[f] == t && BlocksOf(m, t) == [] && !OwnerTrue(m, f)
  {
    var c := clientOf(t);
    var m := Taken(IDLE, t, f, c);
    assert [] + Taking(t, f, c) == Taking(t, f, c);
    TakesIt([], clientOf, IDLE, t, f);
    steps := Taking(t, f, c) + [Kill({c})];
    RanNext(Taking(t, f, c), Kill({c}), clientOf, m);
    SteadyNext(Taking(t, f, c), Kill({c}), clientOf, m);
    hide Ran, Steady, Taking;
  }
}
