/**
 What every run of the archiver pipeline keeps, and what the four tables hold.
 */
module ArchiverProofs {
  import opened Prelude
  import opened KeyedFold
  import opened ArchiverTypes
  import opened Archiver

  function Rows<R>(row: ExportedGossip -> R, msgs: seq<ExportedGossip>): (rows: seq<R>)
    ensures |rows| == |msgs| && forall i :: 0 <= i < |msgs| ==> rows[i] == row(msgs[i])
  {
    seq(|msgs|, i requires 0 <= i < |msgs| => row(msgs[i]))
  }

  lemma RowsSnoc<R>(row: ExportedGossip -> R, msgs: seq<ExportedGossip>, g: ExportedGossip)
    ensures Rows(row, msgs + [g]) == Rows(row, msgs) + [row(g)]
  {
  }

  /** Everything a lane holds, oldest first. */
  function Contents<R>(l: Lane<R>, buffer: seq<R>): seq<R> {
    Flatten(l.batches) + InFlight(l, buffer)
  }

  function InFlight<R>(l: Lane<R>, buffer: seq<R>): seq<R> {
    (if l.writing.Some? then l.writing.value else []) + buffer + l.channel
  }

  /** The message the ticker holds, and whether it is still to be sent on each lane. */
  function Held(t: Ticker): Option<ExportedGossip> {
    match t
    case Idle => None
    case AwaitFlush(next) => next
    case SendRaw(g) => Some(g)
    case SendTiming(g) => Some(g)
    case SendMeta(g) => Some(g)
    case SendHash(g) => Some(g)
  }

  function Unsent<R>(row: ExportedGossip -> R, g: Option<ExportedGossip>, pending: bool): seq<R> {
    if g.Some? && pending then [row(g.value)] else []
  }

  predicate RawPending(t: Ticker) { t.AwaitFlush? || t.SendRaw? }
  predicate TimingPending(t: Ticker) { RawPending(t) || t.SendTiming? }
  predicate MetaPending(t: Ticker) { TimingPending(t) || t.SendMeta? }
  predicate HashPending(t: Ticker) { MetaPending(t) || t.SendHash? }

  /** Per table: rows inserted, then rows being inserted, buffered, queued and still to
      be sent, are exactly the rows of the messages received, in order. */
  ghost predicate Conserved(s: State) {
    && Contents(s.raw, s.buffers.raws) + Unsent(RawOf, Held(s.ticker), RawPending(s.ticker)) == Rows(RawOf, s.taken)
    && Contents(s.timing, s.buffers.timings) + Unsent(TimingOf, Held(s.ticker), TimingPending(s.ticker))
       == Rows(TimingOf, s.taken)
    && Contents(s.meta, s.buffers.metas) + Unsent(MetadataOf, Held(s.ticker), MetaPending(s.ticker))
       == Rows(MetadataOf, s.taken)
    && Contents(s.hash, s.buffers.hashes) + Unsent(HashesOf, Held(s.ticker), HashPending(s.ticker))
       == Rows(HashesOf, s.taken)
  }

  function SortedBatches(batches: seq<seq<Timing>>): seq<Timing> {
    if batches == [] then [] else SortedBatches(batches[..|batches| - 1]) + SortByTime(batches[|batches| - 1])
  }

  /** The tables are the batches inserted so far: first row of a key wins in the keyed
      ones, and each timings batch is appended sorted by time. */
  ghost predicate TablesMatch(s: State) {
    && s.db.messages == Collect(RawKey, FirstRaw, Flatten(s.raw.batches))
    && s.db.metadata == Collect(MetaKey, FirstMeta, Flatten(s.meta.batches))
    && s.db.messageHashes == Collect(HashKey, FirstHash, Flatten(s.hash.batches))
    && s.db.timings == SortedBatches(s.timing.batches)
  }

  /** The timings buffer is below the batch size whenever the handler selects, and no
      batch exceeds it; the flush channel holds at most one signal. */
  ghost predicate Bounded(s: State) {
    && s.ticks <= 1
    && (s.batchSize >= 1 ==>
          && |s.buffers.timings| < s.batchSize
          && (s.timing.writing.Some? ==> |s.timing.writing.value| <= s.batchSize)
          && (forall b :: b in s.timing.batches ==> |b| <= s.batchSize)
          && s.msgCounter <= s.batchSize)
  }

  ghost predicate Inv(s: State) {
    Conserved(s) && TablesMatch(s) && Bounded(s)
  }

  // ----- Each step keeps each part

  lemma ContentsAfterSend<R>(l: Lane<R>, buffer: seq<R>, r: R)
    ensures Contents(Send(l, r), buffer) == Contents(l, buffer) + [r]
  {
  }

  lemma ContentsAfterRecv<R>(l: Lane<R>, buffer: seq<R>)
    requires l.channel != []
    ensures Contents(Drop(l), buffer + [l.channel[0]]) == Contents(l, buffer)
  {
    assert buffer + l.channel == (buffer + [l.channel[0]]) + l.channel[1..];
  }

  lemma ContentsAfterBegin<R>(l: Lane<R>, buffer: seq<R>)
    requires l.writing.None?
    ensures Contents(Begin(l, buffer), []) == Contents(l, buffer)
  {
  }

  lemma ContentsAfterDone<R>(l: Lane<R>, buffer: seq<R>)
    requires l.writing.Some?
    ensures Contents(Done(l), buffer) == Contents(l, buffer)
  {
    FlattenSnoc(l.batches, l.writing.value);
  }

  lemma TickerKeepsConserved(s: State, a: Step)
    requires Conserved(s) && Enabled(s, a)
    requires a.TakeMessage? || a.FlushInterval? || a.SignalFlush? || a.SendNext?
    ensures Conserved(Apply(s, a))
  {
    hide Contents, Rows;
    match a
    case TakeMessage(g) =>
      RowsSnoc(RawOf, s.taken, g);
      RowsSnoc(TimingOf, s.taken, g);
      RowsSnoc(MetadataOf, s.taken, g);
      RowsSnoc(HashesOf, s.taken, g);
    case FlushInterval =>
    case SignalFlush =>
    case SendNext =>
      match s.ticker
      case SendRaw(g) => ContentsAfterSend(s.raw, s.buffers.raws, RawOf(g));
      case SendTiming(g) => ContentsAfterSend(s.timing, s.buffers.timings, TimingOf(g));
      case SendMeta(g) => ContentsAfterSend(s.meta, s.buffers.metas, MetadataOf(g));
      case SendHash(g) => ContentsAfterSend(s.hash, s.buffers.hashes, HashesOf(g));
  }

  /** The contents of the four lanes are the same in both states. */
  ghost predicate SameContents(s: State, t: State) {
    && Contents(s.raw, s.buffers.raws) == Contents(t.raw, t.buffers.raws)
    && Contents(s.timing, s.buffers.timings) == Contents(t.timing, t.buffers.timings)
    && Contents(s.meta, s.buffers.metas) == Contents(t.meta, t.buffers.metas)
    && Contents(s.hash, s.buffers.hashes) == Contents(t.hash, t.buffers.hashes)
  }

  lemma FlushKeepsContents(s: State, e: Event)
    requires !Writing(s)
    ensures SameContents(Handle(s, e), s.(buffers := Push(s.buffers, e)))
  {
    var pushed := Push(s.buffers, e);
    ContentsAfterBegin(s.raw, pushed.raws);
    ContentsAfterBegin(s.timing, pushed.timings);
    ContentsAfterBegin(s.meta, pushed.metas);
    ContentsAfterBegin(s.hash, pushed.hashes);
  }

  lemma HandlerKeepsConserved(s: State, a: Step)
    requires Conserved(s) && Enabled(s, a)
    requires a.RecvTick? || a.RecvRaw? || a.RecvTiming? || a.RecvMeta? || a.RecvHash?
    ensures Conserved(Apply(s, a))
  {
    hide Contents, Rows, Unsent;
    match a
    case RecvTick =>
      FlushKeepsContents(s.(ticks := s.ticks - 1), Tick);
    case RecvRaw =>
      FlushKeepsContents(s.(raw := Drop(s.raw)), GotRaw(s.raw.channel[0]));
      ContentsAfterRecv(s.raw, s.buffers.raws);
    case RecvTiming =>
      FlushKeepsContents(s.(timing := Drop(s.timing)), GotTiming(s.timing.channel[0]));
      ContentsAfterRecv(s.timing, s.buffers.timings);
    case RecvMeta =>
      FlushKeepsContents(s.(meta := Drop(s.meta)), GotMeta(s.meta.channel[0]));
      ContentsAfterRecv(s.meta, s.buffers.metas);
    case RecvHash =>
      FlushKeepsContents(s.(hash := Drop(s.hash)), GotHash(s.hash.channel[0]));
      ContentsAfterRecv(s.hash, s.buffers.hashes);
  }

  lemma WriterKeepsConserved(s: State, a: Step)
    requires Conserved(s) && Enabled(s, a)
    requires a.WriteRaw? || a.WriteTiming? || a.WriteMeta? || a.WriteHash?
    ensures Conserved(Apply(s, a))
  {
    hide Contents, Rows, Unsent;
    match a
    case WriteRaw => ContentsAfterDone(s.raw, s.buffers.raws);
    case WriteTiming => ContentsAfterDone(s.timing, s.buffers.timings);
    case WriteMeta => ContentsAfterDone(s.meta, s.buffers.metas);
    case WriteHash => ContentsAfterDone(s.hash, s.buffers.hashes);
  }

  lemma InsertKeepsTables(s: State, a: Step)
    requires TablesMatch(s) && Enabled(s, a)
    requires a.WriteRaw? || a.WriteTiming? || a.WriteMeta? || a.WriteHash?
    ensures TablesMatch(Apply(s, a))
  {
    hide Collect, PutAll, Flatten, SortByTime;
    match a
    case WriteRaw =>
      FlattenSnoc(s.raw.batches, s.raw.writing.value);
      CollectBatch(RawKey, FirstRaw, Flatten(s.raw.batches), s.raw.writing.value);
    case WriteMeta =>
      FlattenSnoc(s.meta.batches, s.meta.writing.value);
      CollectBatch(MetaKey, FirstMeta, Flatten(s.meta.batches), s.meta.writing.value);
    case WriteHash =>
      FlattenSnoc(s.hash.batches, s.hash.writing.value);
      CollectBatch(HashKey, FirstHash, Flatten(s.hash.batches), s.hash.writing.value);
    case WriteTiming =>
      var bs, b := s.timing.batches, s.timing.writing.value;
      assert (bs + [b])[..|bs|] == bs;
  }

  lemma OtherStepsKeepTables(s: State, a: Step)
    requires TablesMatch(s) && Enabled(s, a)
    requires !(a.WriteRaw? || a.WriteTiming? || a.WriteMeta? || a.WriteHash?)
    ensures TablesMatch(Apply(s, a))
  {
    hide Collect, PutAll, Flatten, SortByTime, SortedBatches;
  }

  lemma StepKeepsBounds(s: State, a: Step)
    requires Bounded(s) && Enabled(s, a)
    ensures Bounded(Apply(s, a))
  {
    hide PutAll, SortByTime, RawOf, TimingOf, MetadataOf, HashesOf;
  }

  lemma StepKeepsInv(s: State, a: Step)
    requires Inv(s) && Enabled(s, a)
    ensures Inv(Apply(s, a))
  {
    hide Conserved, TablesMatch, Bounded;
    StepKeepsBounds(s, a);
    if a.WriteRaw? || a.WriteTiming? || a.WriteMeta? || a.WriteHash? {
      InsertKeepsTables(s, a);
    } else {
      OtherStepsKeepTables(s, a);
    }
    if a.TakeMessage? || a.FlushInterval? || a.SignalFlush? || a.SendNext? {
      TickerKeepsConserved(s, a);
    } else if a.WriteRaw? || a.WriteTiming? || a.WriteMeta? || a.WriteHash? {
      WriterKeepsConserved(s, a);
    } else {
      HandlerKeepsConserved(s, a);
    }
  }

  /** Every state of every run, under every interleaving, satisfies the invariant. */
  lemma {:induction false} RunsKeepInv(run: seq<State>, steps: seq<Step>, i: nat)
    requires IsRun(run, steps) && i < |run|
    ensures Inv(run[i]) && run[i].batchSize == run[0].batchSize
  {
    if i == 0 {
      InitInv(run[0].batchSize);
    } else {
      RunsKeepInv(run, steps, i - 1);
      assert IsStep(run[i - 1], steps[i - 1], run[i]);
      hide Inv;
      StepKeepsInv(run[i - 1], steps[i - 1]);
      StepKeepsBatchSize(run[i - 1], steps[i - 1]);
    }
  }

  lemma InitInv(batchSize: nat)
    ensures Inv(Init(batchSize))
  {
  }

  lemma StepKeepsBatchSize(s: State, a: Step)
    requires Enabled(s, a)
    ensures Apply(s, a).batchSize == s.batchSize
  {
  }

  // ----- The messages received

  function MessagesTaken(steps: seq<Step>): seq<ExportedGossip> {
    if steps == [] then []
    else
      var last := steps[|steps| - 1];
      MessagesTaken(steps[..|steps| - 1]) + (if last.TakeMessage? then [last.g] else [])
  }

  /** What the invariant calls received are the messages of the run, in order. */
  lemma {:induction false} TakenAreReceived(run: seq<State>, steps: seq<Step>, i: nat)
    requires IsRun(run, steps) && i < |run|
    ensures run[i].taken == MessagesTaken(steps[..i])
  {
    if i > 0 {
      TakenAreReceived(run, steps, i - 1);
      assert IsStep(run[i - 1], steps[i - 1], run[i]);
      assert steps[..i][..i - 1] == steps[..i - 1];
      hide IsRun, Enabled;
      StepTakes(run[i - 1], steps[i - 1]);
      hide Apply;
    }
  }

  lemma StepTakes(s: State, a: Step)
    requires Enabled(s, a)
    ensures Apply(s, a).taken == if a.TakeMessage? then s.taken + [a.g] else s.taken
  {
    hide PutAll, SortByTime, RawOf, TimingOf, MetadataOf, HashesOf;
  }

  // ----- When rows are handed over

  predicate IsRecv(a: Step) {
    a.RecvTick? || a.RecvRaw? || a.RecvTiming? || a.RecvMeta? || a.RecvHash?
  }

  /** The handler hands its buffers over exactly on a flush signal or when the row received
      fills the timings buffer; without a signal the batch then has exactly the batch size.
      It hands over all it has and keeps nothing. */
  lemma HandsOverIff(run: seq<State>, steps: seq<Step>, i: nat)
    requires IsRun(run, steps) && i < |steps| && IsRecv(steps[i]) && run[0].batchSize >= 1
    ensures run[i + 1].timing.writing.Some? <==>
            steps[i].RecvTick? || (steps[i].RecvTiming? && |run[i].buffers.timings| + 1 == run[0].batchSize)
    ensures run[i + 1].timing.writing.Some? && !steps[i].RecvTick? ==>
              |run[i + 1].timing.writing.value| == run[0].batchSize
    ensures run[i + 1].timing.writing.Some? ==>
              run[i + 1].raw.writing.Some? && run[i + 1].meta.writing.Some? && run[i + 1].hash.writing.Some?
              && run[i + 1].buffers == NoBuffers
    ensures run[i + 1].timing.writing.None? ==>
              run[i + 1].raw.writing.None? && run[i + 1].meta.writing.None? && run[i + 1].hash.writing.None?
  {
    BatchSizeBounds(run, steps, i);
    assert IsStep(run[i], steps[i], run[i + 1]);
    hide IsRun, RawOf, TimingOf, MetadataOf, HashesOf;
  }

  lemma BatchSizeBounds(run: seq<State>, steps: seq<Step>, i: nat)
    requires IsRun(run, steps) && i < |run| && run[0].batchSize >= 1
    ensures run[i].batchSize == run[0].batchSize && |run[i].buffers.timings| < run[0].batchSize
  {
    RunsKeepInv(run, steps, i);
    hide Conserved, TablesMatch;
  }

  /** How many messages the ticker forwarded since its last flush signal. */
  function ForwardedSince(run: seq<State>, steps: seq<Step>, i: nat): nat
    requires i <= |steps| <= |run|
  {
    if i == 0 then 0
    else if steps[i - 1].SignalFlush? then 0
    else ForwardedSince(run, steps, i - 1) + (if steps[i - 1].SendNext? && run[i - 1].ticker.SendRaw? then 1 else 0)
  }

  function AboutToForward(s: State): nat { if s.ticker.SendRaw? then 1 else 0 }

  lemma StepCounts(s: State, a: Step)
    requires Enabled(s, a)
    ensures a.SignalFlush? ==> Apply(s, a).msgCounter == AboutToForward(Apply(s, a))
    ensures !a.SignalFlush? ==>
              Apply(s, a).msgCounter + AboutToForward(s)
              == s.msgCounter + AboutToForward(Apply(s, a)) + (if a.SendNext? && s.ticker.SendRaw? then 1 else 0)
  {
    hide PutAll, SortByTime, RawOf, TimingOf, MetadataOf, HashesOf;
  }

  lemma {:induction false} CounterIsForwarded(run: seq<State>, steps: seq<Step>, i: nat)
    requires IsRun(run, steps) && i < |run|
    ensures run[i].msgCounter == ForwardedSince(run, steps, i) + AboutToForward(run[i])
    ensures run[i].batchSize == run[0].batchSize
  {
    if i > 0 {
      CounterIsForwarded(run, steps, i - 1);
      assert IsStep(run[i - 1], steps[i - 1], run[i]);
      hide IsRun, Apply, Enabled, AboutToForward;
      StepCounts(run[i - 1], steps[i - 1]);
      StepKeepsBatchSize(run[i - 1], steps[i - 1]);
    }
  }

  /** A message makes the ticker signal a flush before it is forwarded exactly when a whole
      batch was forwarded since the last signal. */
  lemma SignalsWhenFull(run: seq<State>, steps: seq<Step>, i: nat)
    requires IsRun(run, steps) && i < |steps| && steps[i].TakeMessage?
    ensures run[i + 1].ticker ==
            if ForwardedSince(run, steps, i) >= run[0].batchSize then AwaitFlush(Some(steps[i].g))
            else SendRaw(steps[i].g)
  {
    CounterIsForwarded(run, steps, i);
    assert IsStep(run[i], steps[i], run[i + 1]);
    hide IsRun, ForwardedSince;
  }
}
