/**
 The background consumer of a turn's socket: it numbers and batches the events to persist, keeps the
 assistant's text, checkpoints it, and finishes the message however the turn ends.
 Successive readings of the monotonic clock while one frame is handled are one reading, `at`.
 */
module ConsumeWs {
  import opened Text

  const PERSIST_BATCH_MAX_EVENTS := 64
  const PERSIST_BATCH_INTERVAL := 0.25
  const TOKENS_PER_CHECKPOINT := 100
  const CHECKPOINT_INTERVAL := 2.0

  datatype Event =
    | Failed(kind: string)                  // client.error, stream.error
    | Filtered(kind: string)                // session state events
    | Outside                               // artifact event outside the workspace
    | ToolOutput                            // tool.call.delta: shown, never stored
    | Delta(delta: Option<string>)          // message.delta; None: the delta is not a string
    | Completed(text: string)               // message.completed
    | TurnCompleted
    | Plain(kind: string)

  /** `raises`: handling fails before the event is taken up; `repoOk`: the repository accepts the writes it causes. */
  datatype Input =
    | Frame(event: Event, at: real, raises: bool, repoOk: bool)
    | RecvFails(at: real, repoOk: bool)
    | Cancelled

  datatype Exit = ByCompletion | ByErrorEvent | ByException | ByCancel | BySilence

  datatype Record = Record(seqNo: nat, event: Event)

  /** One attempt to persist a batch; `since` is the time of the attempt before. */
  datatype Batch = Batch(records: seq<Record>, at: real, since: real, ok: bool)

  datatype Status = Generating | Done | Broken | Interrupted

  /** What subscribers are sent: an event, or the consumer's own error notice. */
  datatype Notice = Relayed(event: Event) | InternalError

  // ---- what the inputs mean ----

  predicate TakenUp(i: Input) {
    i.Frame? && !i.raises && !i.event.Filtered? && !i.event.Outside?
  }

  /** The exit an input forces, if any. */
  function ExitOf(i: Input): Option<Exit> {
    match i
    case Cancelled => Some(ByCancel)
    case RecvFails(_, _) => Some(ByException)
    case Frame(event, _, raises, _) =>
      if raises then Some(ByException)
      else if event.Failed? then Some(ByErrorEvent)
      else if event.Completed? || event.TurnCompleted? then Some(ByCompletion)
      else if event.Delta? && event.delta.None? then Some(ByException)
      else None
  }

  /** Events to persist, in arrival order. */
  function Stored(inputs: seq<Input>): seq<Event> {
    if inputs == [] then []
    else
      var last := inputs[|inputs| - 1];
      Stored(inputs[..|inputs| - 1]) + if TakenUp(last) && !last.event.ToolOutput? then [last.event] else []
  }

  /** Events relayed to subscribers, in arrival order. */
  function Shown(inputs: seq<Input>): seq<Notice> {
    if inputs == [] then []
    else
      var last := inputs[|inputs| - 1];
      Shown(inputs[..|inputs| - 1])
      + if TakenUp(last) && !(last.event.Delta? && last.event.delta.None?) then [Relayed(last.event)] else []
  }

  function DeltaText(inputs: seq<Input>): string {
    if inputs == [] then ""
    else
      var last := inputs[|inputs| - 1];
      DeltaText(inputs[..|inputs| - 1])
      + if TakenUp(last) && last.event.Delta? && last.event.delta.Some? then last.event.delta.value else ""
  }

  /** The reply of a completed turn: the completed text if it is not empty, else the deltas. */
  function ReplyText(inputs: seq<Input>): string {
    if inputs != [] && TakenUp(inputs[|inputs| - 1]) && inputs[|inputs| - 1].event.Completed?
       && inputs[|inputs| - 1].event.text != ""
    then inputs[|inputs| - 1].event.text
    else DeltaText(inputs)
  }

  /** The events numbered from 1. */
  function Numbered(events: seq<Event>): seq<Record> {
    seq(|events|, i requires 0 <= i < |events| => Record(i + 1, events[i]))
  }

  function Flatten(batches: seq<Batch>): seq<Record> {
    if batches == [] then [] else Flatten(batches[..|batches| - 1]) + batches[|batches| - 1].records
  }

  lemma FlattenStep(batches: seq<Batch>, b: Batch)
    ensures Flatten(batches + [b]) == Flatten(batches) + b.records
  {
    assert (batches + [b])[..|batches|] == batches;
  }

  lemma NumberedStep(events: seq<Event>, e: Event)
    ensures Numbered(events + [e]) == Numbered(events) + [Record(|events| + 1, e)]
  {}

  lemma PrefixStep(inputs: seq<Input>, i: nat)
    requires i < |inputs|
    ensures inputs[..i + 1][..i] == inputs[..i] && inputs[..i + 1][i] == inputs[i]
  {}

  predicate WellSized(b: Batch) {
    0 < |b.records| <= PERSIST_BATCH_MAX_EVENTS
  }

  /** A batch goes out in mid-turn only when it is full or its window has passed. */
  predicate Due(b: Batch) {
    |b.records| == PERSIST_BATCH_MAX_EVENTS || b.at - b.since >= PERSIST_BATCH_INTERVAL
  }

  /** The consumer's persistence buffer; `start` is when its first window opened. */
  datatype Buffer = Buffer(batches: seq<Batch>, pending: seq<Record>, lastFlush: real, start: real)

  function Flush(b: Buffer, at: real, ok: bool): Buffer {
    if b.pending == [] then b else Buffer(b.batches + [Batch(b.pending, at, b.lastFlush, ok)], [], at, b.start)
  }

  ghost predicate ReadAt(inputs: seq<Input>, at: real, ok: bool) {
    exists j | 0 <= j < |inputs| :: !inputs[j].Cancelled? && inputs[j].at == at && inputs[j].repoOk == ok
  }

  /** Each window opens when the batch before went out, and batches go out at clock readings of the inputs. */
  ghost predicate Timed(batches: seq<Batch>, lastFlush: real, start: real, inputs: seq<Input>) {
    && lastFlush == Opened(batches, start, |batches|)
    && forall i | 0 <= i < |batches| ::
         batches[i].since == Opened(batches, start, i) && ReadAt(inputs, batches[i].at, batches[i].ok)
  }

  function Opened(batches: seq<Batch>, start: real, i: nat): real
    requires i <= |batches|
  {
    if i == 0 then start else batches[i - 1].at
  }

  lemma TimedStep(b: Buffer, inputs: seq<Input>, i: nat)
    requires i < |inputs| && Timed(b.batches, b.lastFlush, b.start, inputs[..i])
    ensures Timed(b.batches, b.lastFlush, b.start, inputs[..i + 1])
    ensures !inputs[i].Cancelled? ==> ReadAt(inputs[..i + 1], inputs[i].at, inputs[i].repoOk)
  {
    forall at, ok | ReadAt(inputs[..i], at, ok) ensures ReadAt(inputs[..i + 1], at, ok) {
      var j :| 0 <= j < i && !inputs[..i][j].Cancelled? && inputs[..i][j].at == at && inputs[..i][j].repoOk == ok;
      assert inputs[..i + 1][j] == inputs[..i][j];
    }
    assert inputs[..i + 1][i] == inputs[i];
  }

  lemma TimedFlush(b: Buffer, inputs: seq<Input>, at: real, ok: bool)
    requires Timed(b.batches, b.lastFlush, b.start, inputs) && ReadAt(inputs, at, ok)
    ensures var f := Flush(b, at, ok); Timed(f.batches, f.lastFlush, f.start, inputs)
  {
    hide ReadAt;
    var f := Flush(b, at, ok);
    assert forall i | 0 <= i < |b.batches| :: f.batches[i] == b.batches[i];
    assert forall i | 0 <= i <= |b.batches| :: Opened(f.batches, b.start, i) == Opened(b.batches, b.start, i);
  }

  /** Batches and pending records are the numbered events to persist; batches fit, all but the closing one were due. */
  ghost predicate Faithful(b: Buffer, inputs: seq<Input>, closed: bool) {
    && Flatten(b.batches) + b.pending == Numbered(Stored(inputs))
    && (forall i | 0 <= i < |b.batches| :: WellSized(b.batches[i]))
    && (forall i | 0 <= i < |b.batches| :: Due(b.batches[i]) || (closed && i == |b.batches| - 1))
    && |b.pending| < PERSIST_BATCH_MAX_EVENTS
    && Timed(b.batches, b.lastFlush, b.start, inputs)
  }

  lemma FlushFaithful(b: Buffer, inputs: seq<Input>, at: real, ok: bool)
    requires Faithful(b, inputs, false) && ReadAt(inputs, at, ok)
    ensures Faithful(Flush(b, at, ok), inputs, true) && Flush(b, at, ok).pending == []
  {
    TimedFlush(b, inputs, at, ok);
    hide Timed, ReadAt;
    if b.pending != [] {
      FlattenStep(b.batches, Batch(b.pending, at, b.lastFlush, ok));
      assert Flush(b, at, ok).pending == [];
      assert Flatten(Flush(b, at, ok).batches) + [] == Flatten(b.batches) + b.pending;
    }
  }

  /** The buffer with one more record, still pending. */
  function Pushed(b: Buffer, record: Record): Buffer {
    Buffer(b.batches, b.pending + [record], b.lastFlush, b.start)
  }

  lemma PushedFaithful(b: Buffer, inputs: seq<Input>, i: nat)
    requires i < |inputs| && TakenUp(inputs[i]) && !inputs[i].event.ToolOutput? && Faithful(b, inputs[..i], false)
    ensures var full := Pushed(b, Record(|Stored(inputs[..i])| + 1, inputs[i].event));
            && Flatten(full.batches) + full.pending == Numbered(Stored(inputs[..i + 1]))
            && Timed(full.batches, full.lastFlush, full.start, inputs[..i + 1])
            && ReadAt(inputs[..i + 1], inputs[i].at, inputs[i].repoOk)
            && (|full.pending| < PERSIST_BATCH_MAX_EVENTS ==> Faithful(full, inputs[..i + 1], false))
  {
    AppendRecords(b.batches, b.pending, inputs, i, Record(|Stored(inputs[..i])| + 1, inputs[i].event));
    TimedStep(b, inputs, i);
    hide Timed, ReadAt, Stored, Numbered, Flatten, WellSized, Due;
  }

  lemma FlushedFaithful(b: Buffer, record: Record, inputs: seq<Input>, at: real, ok: bool, closed: bool)
    requires var full := Pushed(b, record);
             && Flatten(full.batches) + full.pending == Numbered(Stored(inputs))
             && Timed(full.batches, full.lastFlush, full.start, inputs) && ReadAt(inputs, at, ok)
    requires |b.pending| < PERSIST_BATCH_MAX_EVENTS
    requires closed || |b.pending| + 1 >= PERSIST_BATCH_MAX_EVENTS || at - b.lastFlush >= PERSIST_BATCH_INTERVAL
    requires forall i | 0 <= i < |b.batches| :: WellSized(b.batches[i]) && Due(b.batches[i])
    ensures Faithful(Flush(Pushed(b, record), at, ok), inputs, closed)
  {
    var full := Pushed(b, record);
    TimedFlush(full, inputs, at, ok);
    FlattenStep(b.batches, Batch(full.pending, at, b.lastFlush, ok));
    hide Timed, ReadAt, Stored, Numbered, Flatten;
    var after := Flush(full, at, ok);
    assert Flatten(after.batches) + [] == Flatten(after.batches);
  }

  lemma SkipFaithful(b: Buffer, inputs: seq<Input>, i: nat)
    requires i < |inputs| && !(TakenUp(inputs[i]) && !inputs[i].event.ToolOutput?) && Faithful(b, inputs[..i], false)
    ensures Faithful(b, inputs[..i + 1], false)
  {
    PrefixStep(inputs, i);
    TimedStep(b, inputs, i);
    assert Stored(inputs[..i]) + [] == Stored(inputs[..i]);
  }

  // ---- the buffer as a function of the inputs ----

  /** Whether an input's event goes to the repository. */
  predicate IsStored(i: Input) {
    TakenUp(i) && !i.event.ToolOutput?
  }

  /** Whether a further event fills the buffer or finds its window passed. */
  predicate MustFlush(waiting: nat, lastFlush: real, at: real) {
    waiting + 1 >= PERSIST_BATCH_MAX_EVENTS || at - lastFlush >= PERSIST_BATCH_INTERVAL
  }

  /** How many stored events wait for a flush, and when the last flush was, by the clock readings of the inputs. */
  function Waiting(inputs: seq<Input>, start: real): nat {
    if inputs == [] then 0
    else
      var before, last := inputs[..|inputs| - 1], inputs[|inputs| - 1];
      if !IsStored(last) then Waiting(before, start)
      else if MustFlush(Waiting(before, start), LastFlush(before, start), last.at) then 0
      else Waiting(before, start) + 1
  }

  function LastFlush(inputs: seq<Input>, start: real): real {
    if inputs == [] then start
    else
      var before, last := inputs[..|inputs| - 1], inputs[|inputs| - 1];
      if IsStored(last) && MustFlush(Waiting(before, start), LastFlush(before, start), last.at) then last.at
      else LastFlush(before, start)
  }

  /** The buffer once an event has joined it. */
  function Joined(b: Buffer, record: Record, at: real, ok: bool): Buffer {
    if MustFlush(|b.pending|, b.lastFlush, at) then Flush(Pushed(b, record), at, ok) else Pushed(b, record)
  }

  /** The buffer between two inputs: every event that fills it or finds its window passed has it written. */
  function BufferOf(inputs: seq<Input>, start: real): Buffer {
    if inputs == [] then Buffer([], [], start, start)
    else
      var before, last := inputs[..|inputs| - 1], inputs[|inputs| - 1];
      if !IsStored(last) then BufferOf(before, start)
      else Joined(BufferOf(before, start), Record(|Stored(before)| + 1, last.event), last.at, last.repoOk)
  }

  lemma AllWereDue(b: Buffer, inputs: seq<Input>)
    requires Faithful(b, inputs, false)
    ensures |b.pending| < PERSIST_BATCH_MAX_EVENTS
    ensures forall i | 0 <= i < |b.batches| :: WellSized(b.batches[i]) && Due(b.batches[i])
  {
    hide Timed, Stored, Numbered, Flatten;
  }

  lemma JoinedIs(b: Buffer, record: Record, at: real, ok: bool)
    ensures Joined(b, record, at, ok) ==
            if |b.pending| + 1 >= PERSIST_BATCH_MAX_EVENTS || at - b.lastFlush >= PERSIST_BATCH_INTERVAL
            then Flush(Pushed(b, record), at, ok) else Pushed(b, record)
    ensures |Pushed(b, record).pending| == |b.pending| + 1
  {
    hide Flush;
  }

  lemma AppendFaithful(b: Buffer, inputs: seq<Input>, i: nat)
    requires i < |inputs| && TakenUp(inputs[i]) && !inputs[i].event.ToolOutput? && Faithful(b, inputs[..i], false)
    ensures Faithful(Joined(b, Record(|Stored(inputs[..i])| + 1, inputs[i].event), inputs[i].at, inputs[i].repoOk),
                     inputs[..i + 1], false)
  {
    hide *;
    IsFrame(inputs[i]);
    PushedFaithful(b, inputs, i);
    AllWereDue(b, inputs[..i]);
    var record := Record(|Stored(inputs[..i])| + 1, inputs[i].event);
    JoinedIs(b, record, inputs[i].at, inputs[i].repoOk);
    PushedIs(b, record);
    if |b.pending| + 1 >= PERSIST_BATCH_MAX_EVENTS || inputs[i].at - b.lastFlush >= PERSIST_BATCH_INTERVAL {
      FlushedFaithful(b, record, inputs[..i + 1], inputs[i].at, inputs[i].repoOk, false);
    }
  }

  lemma IsFrame(i: Input)
    requires TakenUp(i)
    ensures i.Frame?
  {}

  lemma PushedIs(b: Buffer, record: Record)
    ensures var full := Pushed(b, record);
            full.batches == b.batches && full.lastFlush == b.lastFlush && full.start == b.start
            && full.pending == b.pending + [record]
  {}

  /** The buffer that the closing flush writes: an error event joins it without a test. */
  function Closing(inputs: seq<Input>, start: real): Buffer
    requires inputs != []
  {
    var before, last := inputs[..|inputs| - 1], inputs[|inputs| - 1];
    if TakenUp(last) && last.event.Failed?
    then Pushed(BufferOf(before, start), Record(|Stored(before)| + 1, last.event))
    else BufferOf(inputs, start)
  }

  function LastAt(i: Input): (real, bool) {
    match i
    case Frame(_, at, _, ok) => (at, ok)
    case RecvFails(at, ok) => (at, ok)
    case Cancelled => (0.0, true)
  }

  lemma BufferNext(inputs: seq<Input>, i: nat, start: real)
    requires i < |inputs|
    ensures BufferOf(inputs[..i + 1], start) ==
            if !IsStored(inputs[i]) then BufferOf(inputs[..i], start)
            else Joined(BufferOf(inputs[..i], start), Record(|Stored(inputs[..i])| + 1, inputs[i].event), inputs[i].at,
                        inputs[i].repoOk)
    ensures TakenUp(inputs[i]) && inputs[i].event.Failed? ==>
              Closing(inputs[..i + 1], start) ==
              Pushed(BufferOf(inputs[..i], start), Record(|Stored(inputs[..i])| + 1, inputs[i].event))
    ensures !(TakenUp(inputs[i]) && inputs[i].event.Failed?) ==>
              Closing(inputs[..i + 1], start) == BufferOf(inputs[..i + 1], start)
  {
    PrefixStep(inputs, i);
    hide Joined, Stored;
  }

  /** What waits and since when is what the buffer holds. */
  lemma {:induction false} BufferWaits(inputs: seq<Input>, start: real)
    ensures |BufferOf(inputs, start).pending| == Waiting(inputs, start)
    ensures BufferOf(inputs, start).lastFlush == LastFlush(inputs, start) && BufferOf(inputs, start).start == start
    decreases |inputs|
  {
    hide Stored;
    if inputs == [] {
    } else {
      BufferWaits(inputs[..|inputs| - 1], start);
    }
  }

  /** Input i is the last one stored. */
  predicate LastStored(inputs: seq<Input>, i: nat) {
    i < |inputs| && IsStored(inputs[i]) && forall j | i < j < |inputs| :: !IsStored(inputs[j])
  }

  /** The last stored input, if there is one, found the buffer full or its window passed. */
  ghost predicate LastWasDue(inputs: seq<Input>, start: real) {
    forall i: nat | LastStored(inputs, i) ::
      MustFlush(Waiting(inputs[..i], start), LastFlush(inputs[..i], start), inputs[i].at)
  }

  lemma LastWasDueNow(inputs: seq<Input>, start: real)
    requires inputs != [] && IsStored(inputs[|inputs| - 1])
    ensures var n := |inputs| - 1;
            LastWasDue(inputs, start) <==>
            MustFlush(Waiting(inputs[..n], start), LastFlush(inputs[..n], start), inputs[n].at)
  {
    hide IsStored, MustFlush, Waiting, LastFlush;
    assert LastStored(inputs, |inputs| - 1);
  }

  lemma LastWasDueBefore(inputs: seq<Input>, start: real)
    requires inputs != [] && !IsStored(inputs[|inputs| - 1])
    ensures LastWasDue(inputs, start) <==> LastWasDue(inputs[..|inputs| - 1], start)
  {
    hide IsStored, MustFlush, Waiting, LastFlush;
    var n := |inputs| - 1;
    var before := inputs[..n];
    forall i: nat ensures LastStored(inputs, i) <==> LastStored(before, i) {
      assert forall j | 0 <= j < n :: before[j] == inputs[j];
    }
    forall i: nat | LastStored(before, i) ensures before[..i] == inputs[..i] && before[i] == inputs[i] {}
  }

  /** Nothing waits exactly when nothing was stored or the last stored event had the buffer written. */
  lemma {:induction false} NothingWaitsExactly(inputs: seq<Input>, start: real)
    ensures Waiting(inputs, start) == 0 <==> LastWasDue(inputs, start)
    decreases |inputs|
  {
    hide IsStored, MustFlush, LastFlush;
    if inputs == [] {
    } else if IsStored(inputs[|inputs| - 1]) {
      hide LastWasDue;
      LastWasDueNow(inputs, start);
    } else {
      hide LastWasDue;
      LastWasDueBefore(inputs, start);
      NothingWaitsExactly(inputs[..|inputs| - 1], start);
    }
  }

  // ---- the checkpoints as a function of the inputs ----

  /** Whether an input gets as far as the checkpoint test. */
  predicate Checked(i: Input) {
    TakenUp(i) && !i.event.Failed? && !(i.event.Delta? && i.event.delta.None?)
  }

  predicate EndsTurn(e: Event) {
    e.Completed? || e.TurnCompleted?
  }

  /** The estimate of a frame's tokens: a quarter of a delta's characters, rounded down. */
  function TokensOf(e: Event): nat {
    if e.Delta? && e.delta.Some? then |e.delta.value| / 4 else 0
  }

  /** Tokens and time since the last due checkpoint, and the text that the last accepted one stored. */
  datatype Check = Check(tokens: nat, last: real, stored: string)

  predicate CheckDue(c: Check, i: Input)
    requires i.Frame?
  {
    || c.tokens + TokensOf(i.event) >= TOKENS_PER_CHECKPOINT
    || i.at - c.last >= CHECKPOINT_INTERVAL
    || EndsTurn(i.event)
  }

  function CheckOf(inputs: seq<Input>, start: real): Check {
    if inputs == [] then Check(0, start, "")
    else
      var c, last := CheckOf(inputs[..|inputs| - 1], start), inputs[|inputs| - 1];
      if !Checked(last) then c
      else if !CheckDue(c, last) then c.(tokens := c.tokens + TokensOf(last.event))
      else Check(0, last.at, if ReplyText(inputs) != "" && last.repoOk then ReplyText(inputs) else c.stored)
  }

  lemma CheckNext(inputs: seq<Input>, i: nat, start: real)
    requires i < |inputs|
    ensures var c, input := CheckOf(inputs[..i], start), inputs[i];
            CheckOf(inputs[..i + 1], start) ==
            if !Checked(input) then c
            else if !CheckDue(c, input) then c.(tokens := c.tokens + TokensOf(input.event))
            else Check(0, input.at, if ReplyText(inputs[..i + 1]) != "" && input.repoOk then ReplyText(inputs[..i + 1])
                                    else c.stored)
  {
    PrefixStep(inputs, i);
    hide ReplyText;
  }

  datatype Outcome = Outcome(
    exit: Exit, taken: nat, buffer: Buffer, shown: seq<Notice>, created: bool, content: string, status: Status)

  /** Everything the consumer leaves behind, in terms of the inputs it took. */
  ghost predicate Explains(inputs: seq<Input>, o: Outcome) {
    && o.taken <= |inputs|
    && (forall i | 0 <= i < o.taken - 1 :: ExitOf(inputs[i]).None?)
    && (if o.exit.BySilence?
        then o.taken == |inputs| && (o.taken > 0 ==> ExitOf(inputs[o.taken - 1]).None?)
        else o.taken > 0 && ExitOf(inputs[o.taken - 1]) == Some(o.exit))
    && Faithful(o.buffer, inputs[..o.taken], !(o.exit.BySilence? || o.exit.ByCancel?))
    && (o.buffer.pending == [] || o.exit.BySilence? || o.exit.ByCancel?)
    && o.buffer == (if o.exit.BySilence? || o.exit.ByCancel? then BufferOf(inputs[..o.taken], o.buffer.start)
                    else
                      var closing := LastAt(inputs[o.taken - 1]);
                      Flush(Closing(inputs[..o.taken], o.buffer.start), closing.0, closing.1))
    && o.shown == Shown(inputs[..o.taken]) + (if o.exit.ByException? then [InternalError] else [])
    && (o.created <==> AnyTakenUp(inputs[..o.taken]))
    && (o.exit.ByCompletion? && inputs[o.taken - 1].repoOk ==> o.content == ReplyText(inputs[..o.taken]))
    && Settles(inputs, o)
  }

  /** Whether the closing write of an error event or an exception gives the message its text and status. */
  predicate Rewrites(inputs: seq<Input>, o: Outcome)
    requires o.exit.ByErrorEvent? || o.exit.ByException? ==> 0 < o.taken <= |inputs|
  {
    (o.exit.ByErrorEvent? || o.exit.ByException?) && o.created && LastAt(inputs[o.taken - 1]).1
  }

  /** The content and status that are left: the text so far when the closing write of an abnormal end is accepted,
      otherwise what the last accepted checkpoint stored. */
  ghost predicate Settles(inputs: seq<Input>, o: Outcome)
    requires o.taken <= |inputs| && (!o.exit.BySilence? ==> 0 < o.taken)
  {
    && o.content == (if Rewrites(inputs, o) then DeltaText(inputs[..o.taken])
                     else CheckOf(inputs[..o.taken], o.buffer.start).stored)
    && o.status == (match o.exit
                    case ByCompletion => if LastAt(inputs[o.taken - 1]).1 then Done else Generating
                    case ByErrorEvent => if Rewrites(inputs, o) then Broken else Generating
                    case ByException => if Rewrites(inputs, o) then Interrupted else Generating
                    case _ => Generating)
  }

  /** The consumer's variables. */
  datatype State = State(
    seqNo: nat, tokens: nat, text: string, content: string, created: bool, status: Status,
    lastCheckpoint: real, buffer: Buffer, shown: seq<Notice>)

  /** What holds between two inputs. */
  ghost predicate Sofar(inputs: seq<Input>, s: State) {
    && Faithful(s.buffer, inputs, false) && s.seqNo == |Stored(inputs)|
    && s.shown == Shown(inputs) && s.text == DeltaText(inputs)
    && (s.created <==> AnyTakenUp(inputs)) && s.buffer == BufferOf(inputs, s.buffer.start)
    && s.status == Generating && (s.text == "" ==> s.content == "")
    && CheckOf(inputs, s.buffer.start) == Check(s.tokens, s.lastCheckpoint, s.content)
  }

  function Left(s: State, exit: Exit, taken: nat): Outcome {
    Outcome(exit, taken, s.buffer, s.shown, s.created, s.content, s.status)
  }

  predicate AnyTakenUp(inputs: seq<Input>) {
    exists j | 0 <= j < |inputs| :: TakenUp(inputs[j])
  }

  lemma CreatedStep(inputs: seq<Input>, i: nat)
    requires i < |inputs|
    ensures AnyTakenUp(inputs[..i + 1]) <==> AnyTakenUp(inputs[..i]) || TakenUp(inputs[i])
    ensures !inputs[i].Cancelled? ==> ReadAt(inputs[..i + 1], inputs[i].at, inputs[i].repoOk)
  {
    assert forall j | 0 <= j < i :: inputs[..i + 1][j] == inputs[j] == inputs[..i][j];
    assert inputs[..i + 1][i] == inputs[i];
  }

  lemma SkipKeeps(inputs: seq<Input>, i: nat, s: State)
    requires i < |inputs| && !TakenUp(inputs[i]) && Sofar(inputs[..i], s)
    ensures Sofar(inputs[..i + 1], s)
  {
    hide Faithful;
    SkipFaithful(s.buffer, inputs, i);
    BufferNext(inputs, i, s.buffer.start);
    CheckNext(inputs, i, s.buffer.start);
    Counts(inputs, i);
    PrefixStep(inputs, i);
    CreatedStep(inputs, i);
    hide Stored, Shown, BufferOf, CheckOf;
    assert s.text + "" == s.text && s.shown + [] == s.shown;
  }

  /** The closing steps of an abnormal turn: flush, and finish the message if there is one. */
  method FinalizeAbnormalTurn(s: State, status: Status, at: real, ok: bool) returns (s': State)
    ensures s' == s.(buffer := Flush(s.buffer, at, ok),
                     content := if s.created && ok then s.text else s.content,
                     status := if s.created && ok then status else s.status)
  {
    var buffer := FlushEvents(s.buffer, at, ok);
    s' := s.(buffer := buffer);
    if s.created && ok {
      s' := s'.(content := s.text, status := status);
    }
  }

  method Persist(s: State, inputs: seq<Input>, i: nat) returns (s': State)
    requires i < |inputs| && TakenUp(inputs[i]) && s.seqNo == |Stored(inputs[..i])|
    requires Faithful(s.buffer, inputs[..i], false)
    ensures Faithful(s'.buffer, inputs[..i + 1], false) && s'.seqNo == |Stored(inputs[..i + 1])|
    ensures s' == s.(seqNo := s'.seqNo, buffer := s'.buffer) && s'.buffer.start == s.buffer.start
    ensures s'.buffer == if !IsStored(inputs[i]) then s.buffer
                         else Joined(s.buffer, Record(s.seqNo + 1, inputs[i].event), inputs[i].at, inputs[i].repoOk)
  {
    hide Faithful, Stored;
    s' := s;
    var input := inputs[i];
    Counts(inputs, i);
    if input.event.ToolOutput? {
      SkipFaithful(s.buffer, inputs, i);
    } else {
      s' := s'.(seqNo := s.seqNo + 1);
      var buffer := s.buffer.(pending := s.buffer.pending + [Record(s'.seqNo, input.event)]);
      if |buffer.pending| >= PERSIST_BATCH_MAX_EVENTS || input.at - buffer.lastFlush >= PERSIST_BATCH_INTERVAL {
        buffer := FlushEvents(buffer, input.at, input.repoOk);
      }
      s' := s'.(buffer := buffer);
      AppendFaithful(s.buffer, inputs, i);
    }
  }

  /** When the text so far is written: every 100 tokens, every two seconds, and at the end of the message. */
  predicate CheckpointDue(s: State, at: real, terminal: bool) {
    s.tokens >= TOKENS_PER_CHECKPOINT || at - s.lastCheckpoint >= CHECKPOINT_INTERVAL || terminal
  }

  /** `content` after the checkpoint test of one frame. */
  method Checkpoint(s: State, at: real, ok: bool, terminal: bool) returns (s': State)
    ensures !CheckpointDue(s, at, terminal) ==> s' == s
    ensures CheckpointDue(s, at, terminal) ==>
              s' == s.(content := if s.text != "" && ok then s.text else s.content, tokens := 0, lastCheckpoint := at)
  {
    s' := s;
    if s.tokens >= TOKENS_PER_CHECKPOINT || at - s.lastCheckpoint >= CHECKPOINT_INTERVAL || terminal {
      if s.text != "" && ok {
        s' := s'.(content := s.text);
      }
      s' := s'.(tokens := 0, lastCheckpoint := at);
    }
  }

  lemma TextStep(inputs: seq<Input>, i: nat)
    requires i < |inputs| && TakenUp(inputs[i])
    ensures DeltaText(inputs[..i + 1]) == DeltaText(inputs[..i]) +
            if inputs[i].event.Delta? && inputs[i].event.delta.Some? then inputs[i].event.delta.value else ""
    ensures ReplyText(inputs[..i + 1]) ==
            if inputs[i].event.Completed? && inputs[i].event.text != "" then inputs[i].event.text
            else DeltaText(inputs[..i + 1])
  {
    PrefixStep(inputs, i);
  }

  /** A frame that is taken up and is no error event: stored, added to the text, checkpointed, relayed. */
  method TakeUp(s: State, inputs: seq<Input>, i: nat) returns (s': State, exit: Option<Exit>)
    requires i < |inputs| && TakenUp(inputs[i]) && !inputs[i].event.Failed? && Sofar(inputs[..i], s)
    requires forall j | 0 <= j < i :: ExitOf(inputs[j]).None?
    ensures exit == ExitOf(inputs[i]) && s'.buffer.start == s.buffer.start
    ensures if exit.None? then Sofar(inputs[..i + 1], s') else Explains(inputs, Left(s', exit.value, i + 1))
  {
    hide Faithful, Stored, Shown, DeltaText, ReplyText, AnyTakenUp, ReadAt, BufferOf, Closing, CheckOf;
    Counts(inputs, i);
    TextStep(inputs, i);
    CreatedStep(inputs, i);
    BufferNext(inputs, i, s.buffer.start);
    CheckNext(inputs, i, s.buffer.start);
    var input, event := inputs[i], inputs[i].event;
    s' := Persist(s.(created := true), inputs, i);
    FlushFaithful(s'.buffer, inputs[..i + 1], input.at, input.repoOk);
    if event.Delta? {
      if event.delta.None? {
        s' := FinalizeAbnormalTurn(s', Interrupted, input.at, input.repoOk);
        s' := s'.(shown := s'.shown + [InternalError]);
        assert s.text + "" == s.text && Shown(inputs[..i]) + [] == Shown(inputs[..i]);
        return s', Some(ByException);
      }
      s' := s'.(text := s'.text + event.delta.value, tokens := s'.tokens + |event.delta.value| / 4);
    } else if event.Completed? && event.text != "" {
      s' := s'.(text := event.text);
    }
    assert s.text + "" == s.text;
    var terminal := event.Completed? || event.TurnCompleted?;
    s' := Checkpoint(s', input.at, input.repoOk, terminal);
    s' := s'.(shown := s'.shown + [Relayed(event)]);
    exit := None;
    if terminal {
      var buffer := FlushEvents(s'.buffer, input.at, input.repoOk);
      s' := s'.(buffer := buffer, status := if input.repoOk then Done else s'.status);
      exit := Some(ByCompletion);
      assert s'.shown + [] == s'.shown;
    }
  }

  method ErrorFrame(s: State, inputs: seq<Input>, i: nat) returns (s': State)
    requires i < |inputs| && TakenUp(inputs[i]) && inputs[i].event.Failed? && Sofar(inputs[..i], s)
    requires forall j | 0 <= j < i :: ExitOf(inputs[j]).None?
    ensures Explains(inputs, Left(s', ByErrorEvent, i + 1)) && s'.buffer.start == s.buffer.start
  {
    hide Faithful, Stored, Shown, DeltaText, ReplyText, AnyTakenUp, ReadAt, BufferOf, Closing, CheckOf;
    Counts(inputs, i);
    TextStep(inputs, i);
    CreatedStep(inputs, i);
    BufferNext(inputs, i, s.buffer.start);
    CheckNext(inputs, i, s.buffer.start);
    var input, event := inputs[i], inputs[i].event;
    var record := Record(s.seqNo + 1, event);
    var pending := s.buffer.pending + [record];
    assert pending[..|pending| - 1] == s.buffer.pending;
    ErrorFaithful(s.buffer.(pending := pending), inputs, i);
    s' := s.(created := true, seqNo := s.seqNo + 1, buffer := s.buffer.(pending := pending),
             shown := s.shown + [Relayed(event)]);
    s' := FinalizeAbnormalTurn(s', Broken, input.at, input.repoOk);
    assert s.text + "" == s.text && s'.shown + [] == s'.shown;
  }

  method Raised(s: State, inputs: seq<Input>, i: nat) returns (s': State)
    requires i < |inputs| && ExitOf(inputs[i]) == Some(ByException) && !TakenUp(inputs[i]) && Sofar(inputs[..i], s)
    requires forall j | 0 <= j < i :: ExitOf(inputs[j]).None?
    ensures Explains(inputs, Left(s', ByException, i + 1)) && s'.buffer.start == s.buffer.start
  {
    hide Faithful, Stored, Shown, DeltaText, ReplyText, AnyTakenUp, ReadAt, BufferOf, Closing, CheckOf;
    SkipKeeps(inputs, i, s);
    CreatedStep(inputs, i);
    BufferNext(inputs, i, s.buffer.start);
    var input := inputs[i];
    FlushFaithful(s.buffer, inputs[..i + 1], input.at, input.repoOk);
    s' := FinalizeAbnormalTurn(s, Interrupted, input.at, input.repoOk);
    s' := s'.(shown := s'.shown + [InternalError]);
  }

  method Consume(inputs: seq<Input>, start: real) returns (o: Outcome)
    ensures Explains(inputs, o) && o.buffer.start == start
  {
    hide Faithful, Shown, Stored, DeltaText, ReplyText, AnyTakenUp, ReadAt, BufferOf, Closing, CheckOf;
    var s := State(0, 0, "", "", false, Generating, start, Buffer([], [], start, start), []);
    Begin(s, start);
    assert inputs[..0] == [];
    for i := 0 to |inputs|
      invariant forall j | 0 <= j < i :: ExitOf(inputs[j]).None?
      invariant Sofar(inputs[..i], s) && s.buffer.start == start
    {
      var input := inputs[i];
      if TakenUp(input) && input.event.Failed? {
        s := ErrorFrame(s, inputs, i);
        return Left(s, ByErrorEvent, i + 1);
      } else if TakenUp(input) {
        var exit;
        s, exit := TakeUp(s, inputs, i);
        if exit.Some? {
          return Left(s, exit.value, i + 1);
        }
      } else if input.RecvFails? || (input.Frame? && input.raises) {
        s := Raised(s, inputs, i);
        return Left(s, ByException, i + 1);
      } else {
        SkipKeeps(inputs, i, s);
        CreatedStep(inputs, i);
        if input.Cancelled? {
          assert s.shown + [] == s.shown;
          return Left(s, ByCancel, i + 1);
        }
      }
    }
    assert inputs[..|inputs|] == inputs;
    assert s.shown + [] == s.shown;
    o := Left(s, BySilence, |inputs|);
  }

  /** What the repository accepted. */
  function Persisted(batches: seq<Batch>): seq<Record> {
    if batches == [] then []
    else
      var last := batches[|batches| - 1];
      Persisted(batches[..|batches| - 1]) + if last.ok then last.records else []
  }

  lemma {:induction false} AllOkPersists(batches: seq<Batch>)
    requires forall i | 0 <= i < |batches| :: batches[i].ok
    ensures Persisted(batches) == Flatten(batches)
  {
    if batches == [] {
    } else {
      AllOkPersists(batches[..|batches| - 1]);
    }
  }

  /** With a repository that accepts every write, an orderly or reported end leaves just the numbered events stored. */
  lemma EverythingPersisted(inputs: seq<Input>, o: Outcome)
    requires Explains(inputs, o) && !o.exit.BySilence? && !o.exit.ByCancel?
    requires forall i | 0 <= i < |inputs| && !inputs[i].Cancelled? :: inputs[i].repoOk
    ensures Persisted(o.buffer.batches) == Numbered(Stored(inputs[..o.taken]))
  {
    hide Stored, Numbered, Persisted, Flatten;
    var batches := o.buffer.batches;
    forall i | 0 <= i < |batches| ensures batches[i].ok {
      assert ReadAt(inputs[..o.taken], batches[i].at, batches[i].ok);
    }
    AllOkPersists(batches);
    assert Flatten(batches) + [] == Flatten(batches);
  }

  /**
   A turn that ends by silence or cancellation leaves behind exactly the events still waiting, the last of those to
   persist; none are left if and only if nothing was stored or the last stored event filled the buffer or found its
   window passed.
   */
  lemma SilenceLosesExactly(inputs: seq<Input>, o: Outcome)
    requires Explains(inputs, o) && (o.exit.BySilence? || o.exit.ByCancel?)
    ensures var taken, start := inputs[..o.taken], o.buffer.start;
            var n, waiting := |Stored(taken)|, Waiting(taken, start);
            && o.status == Generating
            && waiting <= n && o.buffer.pending == Numbered(Stored(taken))[n - waiting..]
            && Flatten(o.buffer.batches) == Numbered(Stored(taken))[..n - waiting]
            && (o.buffer.pending == [] <==> LastWasDue(taken, start))
  {
    var taken, start := inputs[..o.taken], o.buffer.start;
    BufferWaits(taken, start);
    NothingWaitsExactly(taken, start);
    hide Stored, Waiting, LastFlush, BufferOf, Flatten, LastWasDue;
    var all := Numbered(Stored(taken));
    assert all == Flatten(o.buffer.batches) + o.buffer.pending && |all| == |Stored(taken)|;
    hide Numbered;
    assert all[|all| - |o.buffer.pending|..] == o.buffer.pending;
    assert all[..|all| - |o.buffer.pending|] == Flatten(o.buffer.batches);
  }

  /** A single event, then silence: the event is relayed but neither persisted nor is the message ever finished. */
  method SilenceLosesPendingEvents(start: real) returns (o: Outcome)
    ensures o.exit == BySilence && o.shown == [Relayed(Plain("thinking"))]
    ensures o.buffer.batches == [] && o.buffer.pending == [Record(1, Plain("thinking"))] && o.status == Generating
  {
    var inputs := [Frame(Plain("thinking"), start, false, true)];
    o := Consume(inputs, start);
    assert inputs[..1] == inputs && inputs[..0] == [];
    assert Stored([]) == [] && BufferOf([], start) == Buffer([], [], start, start);
    assert Shown(inputs) == [Relayed(Plain("thinking"))];
  }

  method FlushEvents(b: Buffer, at: real, ok: bool) returns (b': Buffer)
    ensures b' == Flush(b, at, ok)
  {
    if b.pending == [] {
      return b;
    }
    var batch := b.pending;
    b' := Buffer(b.batches + [Batch(batch, at, b.lastFlush, ok)], [], at, b.start);
  }

  lemma Begin(s: State, start: real)
    requires s == State(0, 0, "", "", false, Generating, start, Buffer([], [], start, start), [])
    ensures Sofar([], s)
  {}

  /** One more input, seen through each of the input functions. */
  lemma Counts(inputs: seq<Input>, i: nat)
    requires i < |inputs|
    ensures |Stored(inputs[..i + 1])| ==
            |Stored(inputs[..i])| + if TakenUp(inputs[i]) && !inputs[i].event.ToolOutput? then 1 else 0
    ensures Shown(inputs[..i + 1]) == Shown(inputs[..i]) +
            if TakenUp(inputs[i]) && !(inputs[i].event.Delta? && inputs[i].event.delta.None?)
            then [Relayed(inputs[i].event)] else []
  {
    PrefixStep(inputs, i);
  }

  lemma ErrorFaithful(b: Buffer, inputs: seq<Input>, i: nat)
    requires i < |inputs| && TakenUp(inputs[i]) && inputs[i].event.Failed?
    requires b.pending != []
    requires b.pending[|b.pending| - 1] == Record(|Stored(inputs[..i])| + 1, inputs[i].event)
    requires Faithful(b.(pending := b.pending[..|b.pending| - 1]), inputs[..i], false)
    ensures Faithful(Flush(b, inputs[i].at, inputs[i].repoOk), inputs[..i + 1], true)
    ensures Flush(b, inputs[i].at, inputs[i].repoOk).pending == []
  {
    var before := b.(pending := b.pending[..|b.pending| - 1]);
    var record := b.pending[|b.pending| - 1];
    assert before.pending + [record] == b.pending;
    assert Pushed(before, record) == b;
    PushedFaithful(before, inputs, i);
    hide Timed, ReadAt, Stored, Numbered, Flatten, WellSized, Due, Flush;
    FlushedFaithful(before, record, inputs[..i + 1], inputs[i].at, inputs[i].repoOk, true);
    EmptyAfterFlush(b, inputs[i].at, inputs[i].repoOk);
  }

  lemma EmptyAfterFlush(b: Buffer, at: real, ok: bool)
    ensures Flush(b, at, ok).pending == []
  {}

  lemma AppendRecords(batches: seq<Batch>, pending: seq<Record>, inputs: seq<Input>, i: nat, record: Record)
    requires i < |inputs| && TakenUp(inputs[i]) && !inputs[i].event.ToolOutput?
    requires record == Record(|Stored(inputs[..i])| + 1, inputs[i].event)
    requires Flatten(batches) + pending == Numbered(Stored(inputs[..i]))
    ensures Flatten(batches) + (pending + [record]) == Numbered(Stored(inputs[..i + 1]))
  {
    PrefixStep(inputs, i);
    NumberedStep(Stored(inputs[..i]), inputs[i].event);
    hide Flatten, Numbered;
    assert Flatten(batches) + (pending + [record]) == Flatten(batches) + pending + [record];
  }

  // ---- what a silent end loses of the text ----

  function SumTokens(inputs: seq<Input>): nat {
    if inputs == [] then 0
    else
      var last := inputs[|inputs| - 1];
      SumTokens(inputs[..|inputs| - 1]) + if Checked(last) then TokensOf(last.event) else 0
  }

  /** No frame of these comes two seconds after `since` or more, and none ends the turn. */
  ghost predicate Within(inputs: seq<Input>, since: real) {
    forall i | 0 <= i < |inputs| && Checked(inputs[i]) ::
      inputs[i].at - since < CHECKPOINT_INTERVAL && !EndsTurn(inputs[i].event)
  }

  /** Where the last due checkpoint was: after the first p inputs, or never, and then p is 0. */
  ghost predicate LastCheck(inputs: seq<Input>, start: real, p: nat) {
    && p <= |inputs|
    && (p > 0 ==> Checked(inputs[p - 1]) && CheckDue(CheckOf(inputs[..p - 1], start), inputs[p - 1]))
    && var c := CheckOf(inputs, start);
       && c.last == (if p == 0 then start else inputs[p - 1].at)
       && c.tokens == SumTokens(inputs[p..]) && c.tokens < TOKENS_PER_CHECKPOINT
       && Within(inputs[p..], c.last)
  }

  lemma NoCheck(inputs: seq<Input>, start: real)
    requires inputs == []
    ensures LastCheck(inputs, start, 0)
  {}

  lemma DueHere(inputs: seq<Input>, start: real)
    requires inputs != []
    requires var n := |inputs| - 1; Checked(inputs[n]) && CheckDue(CheckOf(inputs[..n], start), inputs[n])
    ensures LastCheck(inputs, start, |inputs|)
  {
    assert inputs[|inputs|..] == [];
    CheckNext(inputs, |inputs| - 1, start);
    assert inputs[..|inputs|] == inputs;
    hide ReplyText;
  }

  lemma NotDueHere(inputs: seq<Input>, start: real, p: nat)
    requires inputs != [] && LastCheck(inputs[..|inputs| - 1], start, p)
    requires var n := |inputs| - 1;
             Checked(inputs[n]) ==> !CheckDue(CheckOf(inputs[..n], start), inputs[n])
    ensures LastCheck(inputs, start, p)
  {
    var n := |inputs| - 1;
    CheckNext(inputs, n, start);
    assert inputs[..n + 1] == inputs;
    var rest, before := inputs[p..], inputs[..n][p..];
    assert rest == before + [inputs[n]] && rest[..|rest| - 1] == before;
    if p > 0 { assert inputs[..n][..p - 1] == inputs[..p - 1]; }
    hide ReplyText, CheckOf;
    assert forall i | 0 <= i < |before| :: rest[i] == before[i];
  }

  /** Every write is accepted, and nothing ends the turn. */
  predicate Smooth(inputs: seq<Input>) {
    forall i | 0 <= i < |inputs| :: (!inputs[i].Cancelled? ==> inputs[i].repoOk) && ExitOf(inputs[i]).None?
  }

  lemma StoredHere(inputs: seq<Input>, start: real, q: nat)
    requires inputs != [] && Smooth(inputs) && q < |inputs|
    requires var n := |inputs| - 1;
             && CheckOf(inputs[..n], start).stored == DeltaText(inputs[..n][..q])
             && Checked(inputs[n]) && CheckDue(CheckOf(inputs[..n], start), inputs[n])
    ensures CheckOf(inputs, start).stored == DeltaText(inputs)
  {
    var n := |inputs| - 1;
    CheckNext(inputs, n, start);
    assert inputs[..n + 1] == inputs;
    TextGrows(inputs, n, q, start);
    assert ExitOf(inputs[n]).None?;
    hide CheckOf, DeltaText;
  }

  lemma StoredThere(inputs: seq<Input>, start: real, p: nat)
    requires inputs != [] && p < |inputs|
    requires var n := |inputs| - 1;
             && CheckOf(inputs[..n], start).stored == DeltaText(inputs[..n][..p])
             && (Checked(inputs[n]) ==> !CheckDue(CheckOf(inputs[..n], start), inputs[n]))
    ensures CheckOf(inputs, start).stored == DeltaText(inputs[..p])
  {
    var n := |inputs| - 1;
    CheckNext(inputs, n, start);
    assert inputs[..n + 1] == inputs && inputs[..n][..p] == inputs[..p];
    hide CheckOf, DeltaText, ReplyText;
  }

  /** Since the last due checkpoint fewer than 100 tokens came in, all within two seconds; and with accepted writes the
      text up to that checkpoint is what is stored. */
  lemma {:induction false} LastCheckIs(inputs: seq<Input>, start: real) returns (p: nat)
    ensures LastCheck(inputs, start, p)
    ensures Smooth(inputs) ==> CheckOf(inputs, start).stored == DeltaText(inputs[..p])
    decreases |inputs|
  {
    if inputs == [] {
      p := 0;
      NoCheck(inputs, start);
    } else {
      var n := |inputs| - 1;
      assert Smooth(inputs) ==> Smooth(inputs[..n]);
      hide LastCheck, CheckOf, Smooth;
      var q := LastCheckIs(inputs[..n], start);
      LastCheckBound(inputs[..n], start, q);
      if Checked(inputs[n]) && CheckDue(CheckOf(inputs[..n], start), inputs[n]) {
        p := |inputs|;
        DueHere(inputs, start);
        assert inputs[..p] == inputs;
        if Smooth(inputs) { StoredHere(inputs, start, q); }
      } else {
        p := q;
        NotDueHere(inputs, start, p);
        if Smooth(inputs) { StoredThere(inputs, start, p); }
      }
    }
  }

  lemma LastCheckBound(inputs: seq<Input>, start: real, p: nat)
    requires LastCheck(inputs, start, p)
    ensures p <= |inputs|
  {}

  /** A checkpoint that stores nothing finds no text, so nothing was stored before either. */
  lemma TextGrows(inputs: seq<Input>, n: nat, q: nat, start: real)
    requires q <= n < |inputs| && CheckOf(inputs[..n], start).stored == DeltaText(inputs[..n][..q])
    ensures DeltaText(inputs[..n + 1]) == "" ==> CheckOf(inputs[..n], start).stored == ""
  {
    assert inputs[..n][..q] == inputs[..n + 1][..q];
    DeltaTextGrows(inputs[..n + 1], q);
    hide CheckOf;
  }

  lemma {:induction false} DeltaTextGrows(inputs: seq<Input>, q: nat)
    requires q <= |inputs|
    ensures DeltaText(inputs[..q]) <= DeltaText(inputs)
    decreases |inputs|
  {
    if q == |inputs| {
      assert inputs[..q] == inputs;
    } else {
      assert inputs[..|inputs| - 1][..q] == inputs[..q];
      DeltaTextGrows(inputs[..|inputs| - 1], q);
    }
  }

  lemma DeltaTextLast(inputs: seq<Input>) returns (more: string)
    requires inputs != []
    ensures DeltaText(inputs) == DeltaText(inputs[..|inputs| - 1]) + more
    ensures forall others: seq<Input> | others != [] && others[|others| - 1] == inputs[|inputs| - 1] ::
              DeltaText(others) == DeltaText(others[..|others| - 1]) + more
  {
    var last := inputs[|inputs| - 1];
    more := if TakenUp(last) && last.event.Delta? && last.event.delta.Some? then last.event.delta.value else "";
  }

  /** The text of frames in turn is their texts joined. */
  lemma {:induction false} DeltaTextSplit(inputs: seq<Input>, p: nat)
    requires p <= |inputs|
    ensures DeltaText(inputs) == DeltaText(inputs[..p]) + DeltaText(inputs[p..])
    decreases |inputs|
  {
    hide *;
    if p == |inputs| {
      assert inputs[..p] == inputs && inputs[p..] == [];
      NoDeltaText();
      assert DeltaText(inputs) + "" == DeltaText(inputs);
    } else {
      var n := |inputs| - 1;
      DeltaTextSplit(inputs[..n], p);
      assert inputs[..n][..p] == inputs[..p];
      var rest := inputs[p..];
      assert rest[..|rest| - 1] == inputs[..n][p..] && rest[|rest| - 1] == inputs[n];
      var more := DeltaTextLast(inputs);
      assert DeltaText(inputs[..p]) + (DeltaText(inputs[..n][p..]) + more) ==
             DeltaText(inputs[..p]) + DeltaText(inputs[..n][p..]) + more;
    }
  }

  lemma NoDeltaText()
    ensures DeltaText([]) == ""
  {}

  /**
   With accepted writes a silent end leaves the text up to the last due checkpoint stored, and loses that of the frames
   after it: fewer than 100 tokens, all within two seconds of it.
   */
  lemma SilenceLosesText(inputs: seq<Input>, o: Outcome) returns (p: nat)
    requires Explains(inputs, o) && o.exit.BySilence?
    requires forall i | 0 <= i < |inputs| && !inputs[i].Cancelled? :: inputs[i].repoOk
    ensures p <= |inputs| && o.content == DeltaText(inputs[..p])
    ensures DeltaText(inputs) == o.content + DeltaText(inputs[p..]) && SumTokens(inputs[p..]) < TOKENS_PER_CHECKPOINT
    ensures Within(inputs[p..], if p == 0 then o.buffer.start else LastAt(inputs[p - 1]).0)
  {
    var start := o.buffer.start;
    assert inputs[..|inputs|] == inputs;
    assert Smooth(inputs);
    p := LastCheckIs(inputs, start);
    LastCheckBound(inputs, start, p);
    DeltaTextSplit(inputs, p);
    hide Faithful, BufferOf, Closing, Shown, DeltaText, SumTokens, Within, CheckOf;
  }

  /** Deltas of up to three characters: they count as no tokens. */
  predicate ShortDelta(i: Input) {
    i.Frame? && !i.raises && i.event.Delta? && i.event.delta.Some? && |i.event.delta.value| < 4
  }

  lemma {:induction false} ShortDeltasWait(inputs: seq<Input>, start: real)
    requires forall i | 0 <= i < |inputs| :: ShortDelta(inputs[i]) && inputs[i].at - start < CHECKPOINT_INTERVAL
    ensures CheckOf(inputs, start) == Check(0, start, "")
    decreases |inputs|
  {
    if inputs == [] {
    } else {
      ShortDeltasWait(inputs[..|inputs| - 1], start);
      assert ShortDelta(inputs[|inputs| - 1]);
      hide ReplyText;
    }
  }

  /** A text that comes in short deltas within two seconds is lost whole by a silent end, however long it is. */
  lemma ShortDeltasAreLost(inputs: seq<Input>, o: Outcome)
    requires Explains(inputs, o) && o.exit.BySilence?
    requires forall i | 0 <= i < |inputs| ::
               ShortDelta(inputs[i]) && inputs[i].at - o.buffer.start < CHECKPOINT_INTERVAL
    ensures o.content == ""
  {
    assert inputs[..|inputs|] == inputs;
    ShortDeltasWait(inputs, o.buffer.start);
    hide Faithful, BufferOf, Closing, Shown, DeltaText, CheckOf;
  }

  // ---- which events go where, by their kinds ----

  predicate StoredKind(e: Event) {
    e.Failed? || e.Delta? || e.Completed? || e.TurnCompleted? || e.Plain?
  }

  predicate ShownKind(e: Event) {
    e.Failed? || e.ToolOutput? || (e.Delta? && e.delta.Some?) || e.Completed? || e.TurnCompleted? || e.Plain?
  }

  predicate Handled(i: Input, kind: Event -> bool) {
    i.Frame? && !i.raises && kind(i.event)
  }

  /** The frames of these kinds that are handled without an exception. */
  ghost function FramesOf(inputs: seq<Input>, kind: Event -> bool): nat -> bool {
    (j: nat) => j < |inputs| && Handled(inputs[j], kind)
  }

  ghost predicate EventsAt(inputs: seq<Input>, at: seq<nat>, events: seq<Event>) {
    |at| == |events| && forall k | 0 <= k < |at| ::
      at[k] < |inputs| && inputs[at[k]].Frame? && events[k] == inputs[at[k]].event
  }

  lemma FramesNext(inputs: seq<Input>, at: seq<nat>, kind: Event -> bool)
    requires inputs != [] && Picks(at, |inputs| - 1, FramesOf(inputs[..|inputs| - 1], kind))
    ensures Picks(if Handled(inputs[|inputs| - 1], kind) then at + [|inputs| - 1] else at, |inputs|,
                  FramesOf(inputs, kind))
  {
    var n, keep := |inputs| - 1, FramesOf(inputs, kind);
    assert Picks(at, n, keep) by {
      assert forall j: nat | j < n :: FramesOf(inputs[..n], kind)(j) == keep(j) by { hide Handled; }
      hide Handled;
    }
    PicksNext(at, n, keep);
    hide Handled, Picks;
  }

  lemma HandledIsFrame(i: Input, kind: Event -> bool)
    requires Handled(i, kind)
    ensures i.Frame?
  {}

  lemma EventsNext(inputs: seq<Input>, at: seq<nat>, events: seq<Event>, kind: Event -> bool)
    requires inputs != [] && EventsAt(inputs[..|inputs| - 1], at, events)
    ensures var n := |inputs| - 1;
            if Handled(inputs[n], kind) then EventsAt(inputs, at + [n], events + [inputs[n].event])
            else EventsAt(inputs, at, events)
  {
    var n := |inputs| - 1;
    assert forall k | 0 <= k < |at| :: inputs[..n][at[k]] == inputs[at[k]];
  }

  lemma StoredNext(inputs: seq<Input>)
    requires inputs != []
    ensures var n := |inputs| - 1;
            Stored(inputs) == if Handled(inputs[n], StoredKind) then Stored(inputs[..n]) + [inputs[n].event]
                              else Stored(inputs[..n])
  {
    assert Stored(inputs[..|inputs| - 1]) + [] == Stored(inputs[..|inputs| - 1]);
  }

  lemma NothingPicked(kind: Event -> bool)
    ensures Picks([], 0, FramesOf([], kind)) && EventsAt([], [], []) && Stored([]) == [] && Shown([]) == Relays([])
  {}

  /** The events to persist are those of the handled frames of the stored kinds, each once, in order. */
  lemma {:induction false} StoredExactly(inputs: seq<Input>) returns (at: seq<nat>)
    ensures Picks(at, |inputs|, FramesOf(inputs, StoredKind)) && EventsAt(inputs, at, Stored(inputs))
    decreases |inputs|
  {
    hide *;
    if inputs == [] {
      at := [];
      NothingPicked(StoredKind);
    } else {
      var n := |inputs| - 1;
      var before := StoredExactly(inputs[..n]);
      FramesNext(inputs, before, StoredKind);
      EventsNext(inputs, before, Stored(inputs[..n]), StoredKind);
      StoredNext(inputs);
      at := if Handled(inputs[n], StoredKind) then before + [n] else before;
    }
  }

  /** The notices that subscribers get before the consumer's own one. */
  function Relays(events: seq<Event>): seq<Notice> {
    seq(|events|, i requires 0 <= i < |events| => Relayed(events[i]))
  }

  lemma RelaysAppend(events: seq<Event>, e: Event)
    ensures Relays(events + [e]) == Relays(events) + [Relayed(e)]
  {}

  lemma ShownLast(inputs: seq<Input>)
    requires inputs != []
    ensures var n := |inputs| - 1;
            Shown(inputs) == if Handled(inputs[n], ShownKind) then Shown(inputs[..n]) + [Relayed(inputs[n].event)]
                             else Shown(inputs[..n])
  {
    assert Shown(inputs[..|inputs| - 1]) + [] == Shown(inputs[..|inputs| - 1]);
  }

  lemma ShownNext(inputs: seq<Input>, earlier: seq<Event>)
    requires inputs != [] && Shown(inputs[..|inputs| - 1]) == Relays(earlier)
    ensures var n := |inputs| - 1;
            if Handled(inputs[n], ShownKind) then Shown(inputs) == Relays(earlier + [inputs[n].event])
            else Shown(inputs) == Relays(earlier)
  {
    ShownLast(inputs);
    var n := |inputs| - 1;
    if Handled(inputs[n], ShownKind) { RelaysAppend(earlier, inputs[n].event); }
    hide Shown, Relays;
  }

  /** Subscribers are relayed the events of the handled frames of the shown kinds, each once, in order. */
  lemma {:induction false} ShownExactly(inputs: seq<Input>) returns (at: seq<nat>, events: seq<Event>)
    ensures Picks(at, |inputs|, FramesOf(inputs, ShownKind)) && EventsAt(inputs, at, events)
    ensures Shown(inputs) == Relays(events)
    decreases |inputs|
  {
    hide *;
    if inputs == [] {
      at, events := [], [];
      NothingPicked(ShownKind);
    } else {
      var n := |inputs| - 1;
      var before, earlier := ShownExactly(inputs[..n]);
      FramesNext(inputs, before, ShownKind);
      EventsNext(inputs, before, earlier, ShownKind);
      ShownNext(inputs, earlier);
      at, events := before, earlier;
      if Handled(inputs[n], ShownKind) {
        HandledIsFrame(inputs[n], ShownKind);
        at, events := before + [n], earlier + [inputs[n].event];
      }
    }
  }

  /** The text of one frame; that of more frames is their texts joined (DeltaTextSplit). */
  lemma DeltaTextOne(i: Input)
    ensures DeltaText([i]) ==
            if i.Frame? && !i.raises && i.event.Delta? && i.event.delta.Some? then i.event.delta.value else ""
    ensures DeltaText([]) == ""
  {
    assert [i][..0] == [];
  }

  /** What kind of end an input makes, if it makes one. */
  predicate EndsBy(i: Input, exit: Exit) {
    match exit
    case ByErrorEvent => i.Frame? && !i.raises && i.event.Failed?
    case ByCompletion => i.Frame? && !i.raises && (i.event.Completed? || i.event.TurnCompleted?)
    case ByException => i.RecvFails? || (i.Frame? && (i.raises || (i.event.Delta? && i.event.delta.None?)))
    case ByCancel => i.Cancelled?
    case BySilence => false
  }

  /** The consumer stops at the first input that makes an end, and the end is of its kind; at none, by silence. */
  lemma EndsAtFirst(inputs: seq<Input>, o: Outcome)
    requires Explains(inputs, o)
    ensures forall i, exit | 0 <= i < o.taken - (if o.exit.BySilence? then 0 else 1) :: !EndsBy(inputs[i], exit)
    ensures if o.exit.BySilence? then o.taken == |inputs| else 0 < o.taken && EndsBy(inputs[o.taken - 1], o.exit)
  {
    hide Faithful, BufferOf, Closing, Shown, DeltaText, CheckOf, Settles;
    forall i, exit | 0 <= i < o.taken - (if o.exit.BySilence? then 0 else 1) ensures !EndsBy(inputs[i], exit) {
      assert ExitOf(inputs[i]).None?;
    }
  }
}
