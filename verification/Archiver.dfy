/**
 The archiver pipeline as a step system: a ticker fans each message out into four
 FIFO channels, a handler drains them in any order into four buffers and flushes,
 and the four inserts of a flush finish in any order
 (gossip_archiver/src/main.rs).
 */
module Archiver {
  import opened Prelude
  import opened KeyedFold
  import opened ArchiverTypes

  // ----- The handler's buffers

  datatype Buffers =
    Buffers(raws: seq<RawMessage>, timings: seq<Timing>, metas: seq<Metadata>, hashes: seq<HashMapping>)

  const NoBuffers := Buffers([], [], [], [])

  datatype Event =
    | Tick
    | GotRaw(raw: RawMessage)
    | GotTiming(timing: Timing)
    | GotMeta(meta: Metadata)
    | GotHash(hash: HashMapping)

  function Push(b: Buffers, e: Event): Buffers {
    match e
    case Tick => b
    case GotRaw(r) => b.(raws := b.raws + [r])
    case GotTiming(t) => b.(timings := b.timings + [t])
    case GotMeta(m) => b.(metas := b.metas + [m])
    case GotHash(h) => b.(hashes := b.hashes + [h])
  }

  predicate MustFlush(b: Buffers, e: Event, batchSize: nat) {
    e.Tick? || |b.timings| >= batchSize
  }

  /** One iteration of the handler loop: the buffers it keeps, and the buffers it hands
      to the batch writer, in order of arrival. */
  function Iterate(b: Buffers, e: Event, batchSize: nat): (Buffers, Option<Buffers>) {
    var pushed := Push(b, e);
    if MustFlush(pushed, e, batchSize) then (NoBuffers, Some(pushed)) else (pushed, None)
  }

  /** The handler task.  Its loop body pushes what it received, and on a tick or a full
      timings buffer sorts the timings and moves all four buffers out. */
  class DbWriteHandler {
    const batchSize: nat
    var rawMsgs: seq<RawMessage>
    var timings: seq<Timing>
    var metas: seq<Metadata>
    var hashMappings: seq<HashMapping>
    var shouldFlush: bool

    ghost function View(): Buffers
      reads this
    {
      Buffers(rawMsgs, timings, metas, hashMappings)
    }

    ghost predicate AtLoopHead()
      reads this
    {
      !shouldFlush && (batchSize >= 1 ==> |timings| < batchSize)
    }

    constructor (size: nat)
      ensures batchSize == size && View() == NoBuffers && AtLoopHead()
    {
      batchSize := size;
      rawMsgs, timings, metas, hashMappings, shouldFlush := [], [], [], [], false;
    }

    method HandleEvent(e: Event) returns (batch: Option<Buffers>)
      requires AtLoopHead()
      modifies this
      ensures AtLoopHead()
      ensures View() == Iterate(old(View()), e, batchSize).0
      ensures match Iterate(old(View()), e, batchSize).1
              case None => batch == None
              case Some(b) => batch == Some(b.(timings := SortByTime(b.timings)))
    {
      match e {
        case Tick => shouldFlush := true;
        case GotRaw(r) => rawMsgs := rawMsgs + [r];
        case GotTiming(t) => timings := timings + [t];
        case GotMeta(m) => metas := metas + [m];
        case GotHash(h) => hashMappings := hashMappings + [h];
      }
      var batchFull := |timings| >= batchSize;
      batch := None;
      if shouldFlush || batchFull {
        shouldFlush := false;
        timings := SortByTime(timings);
        batch := Some(Buffers(rawMsgs, timings, metas, hashMappings));
        rawMsgs, timings, metas, hashMappings := [], [], [], [];
      }
    }
  }

  // ----- The system

  /** What the ticker is doing: waiting, waiting to signal a flush (with the message it
      will then forward, if any), or about to perform the next of four sends. */
  datatype Ticker =
    | Idle
    | AwaitFlush(next: Option<ExportedGossip>)
    | SendRaw(g: ExportedGossip)
    | SendTiming(g: ExportedGossip)
    | SendMeta(g: ExportedGossip)
    | SendHash(g: ExportedGossip)

  /** One table's channel, the batch being inserted, and the batches inserted so far. */
  datatype Lane<R> = Lane(channel: seq<R>, writing: Option<seq<R>>, batches: seq<seq<R>>)

  /** The three keyed tables ignore conflicting inserts; timings is append-only. */
  datatype Db =
    Db(
      messages: map<nat, RawMessage>,
      timings: seq<Timing>,
      metadata: map<nat, Metadata>,
      messageHashes: map<nat, HashMapping>)

  datatype State =
    State(
      batchSize: nat,
      taken: seq<ExportedGossip>,  // history: every message the ticker received
      ticker: Ticker,
      msgCounter: nat,
      ticks: nat,                  // occupancy of the one-place flush channel
      buffers: Buffers,
      raw: Lane<RawMessage>,
      timing: Lane<Timing>,
      meta: Lane<Metadata>,
      hash: Lane<HashMapping>,
      db: Db)

  function EmptyLane<R>(): Lane<R> { Lane([], None, []) }

  function Init(batchSize: nat): State {
    State(batchSize, [], Idle, 0, 0, NoBuffers, EmptyLane(), EmptyLane(), EmptyLane(), EmptyLane(),
          Db(map[], [], map[], map[]))
  }

  function RawKey(r: RawMessage): nat { r.msgHash }
  function MetaKey(m: Metadata): nat { m.msgHash }
  function HashKey(h: HashMapping): nat { h.outerHash }
  function FirstRaw(a: RawMessage, b: RawMessage): RawMessage { a }
  function FirstMeta(a: Metadata, b: Metadata): Metadata { a }
  function FirstHash(a: HashMapping, b: HashMapping): HashMapping { a }

  datatype Step =
    | TakeMessage(g: ExportedGossip)  // the ticker receives a message
    | FlushInterval                   // the ticker's flush timer fires
    | SignalFlush                     // the ticker's flush signal is accepted
    | SendNext                        // the ticker performs its next channel send
    | RecvTick | RecvRaw | RecvTiming | RecvMeta | RecvHash    // the handler's select
    | WriteRaw | WriteTiming | WriteMeta | WriteHash           // one insert task finishes

  /** The handler waits for all four inserts of a flush before it selects again. */
  predicate Writing(s: State) {
    s.raw.writing.Some? || s.timing.writing.Some? || s.meta.writing.Some? || s.hash.writing.Some?
  }

  predicate Enabled(s: State, a: Step) {
    match a
    case TakeMessage(_) => s.ticker.Idle?
    case FlushInterval => s.ticker.Idle?
    case SignalFlush => s.ticker.AwaitFlush? && s.ticks == 0
    case SendNext => s.ticker.SendRaw? || s.ticker.SendTiming? || s.ticker.SendMeta? || s.ticker.SendHash?
    case RecvTick => !Writing(s) && s.ticks > 0
    case RecvRaw => !Writing(s) && s.raw.channel != []
    case RecvTiming => !Writing(s) && s.timing.channel != []
    case RecvMeta => !Writing(s) && s.meta.channel != []
    case RecvHash => !Writing(s) && s.hash.channel != []
    case WriteRaw => s.raw.writing.Some?
    case WriteTiming => s.timing.writing.Some?
    case WriteMeta => s.meta.writing.Some?
    case WriteHash => s.hash.writing.Some?
  }

  function Apply(s: State, a: Step): State
    requires Enabled(s, a)
  {
    match a
    case TakeMessage(g) =>
      s.(taken := s.taken + [g],
         ticker := if s.msgCounter >= s.batchSize then AwaitFlush(Some(g)) else SendRaw(g),
         msgCounter := if s.msgCounter >= s.batchSize then s.msgCounter else s.msgCounter + 1)
    case FlushInterval => s.(ticker := AwaitFlush(None))
    case SignalFlush =>
      if s.ticker.next.Some?
      then s.(ticks := 1, ticker := SendRaw(s.ticker.next.value), msgCounter := 1)
      else s.(ticks := 1, ticker := Idle, msgCounter := 0)
    case SendNext =>
      (match s.ticker
       case SendRaw(g) => s.(ticker := SendTiming(g), raw := Send(s.raw, RawOf(g)))
       case SendTiming(g) => s.(ticker := SendMeta(g), timing := Send(s.timing, TimingOf(g)))
       case SendMeta(g) => s.(ticker := SendHash(g), meta := Send(s.meta, MetadataOf(g)))
       case SendHash(g) => s.(ticker := Idle, hash := Send(s.hash, HashesOf(g))))
    case RecvTick => Handle(s.(ticks := s.ticks - 1), Tick)
    case RecvRaw => Handle(s.(raw := Drop(s.raw)), GotRaw(s.raw.channel[0]))
    case RecvTiming => Handle(s.(timing := Drop(s.timing)), GotTiming(s.timing.channel[0]))
    case RecvMeta => Handle(s.(meta := Drop(s.meta)), GotMeta(s.meta.channel[0]))
    case RecvHash => Handle(s.(hash := Drop(s.hash)), GotHash(s.hash.channel[0]))
    case WriteRaw =>
      s.(raw := Done(s.raw), db := s.db.(messages := PutAll(RawKey, FirstRaw, s.db.messages, s.raw.writing.value)))
    case WriteTiming =>
      s.(timing := Done(s.timing), db := s.db.(timings := s.db.timings + SortByTime(s.timing.writing.value)))
    case WriteMeta =>
      s.(meta := Done(s.meta), db := s.db.(metadata := PutAll(MetaKey, FirstMeta, s.db.metadata, s.meta.writing.value)))
    case WriteHash =>
      s.(hash := Done(s.hash),
         db := s.db.(messageHashes := PutAll(HashKey, FirstHash, s.db.messageHashes, s.hash.writing.value)))
  }

  function Send<R>(l: Lane<R>, r: R): Lane<R> { l.(channel := l.channel + [r]) }

  function Drop<R>(l: Lane<R>): Lane<R>
    requires l.channel != []
  {
    l.(channel := l.channel[1..])
  }

  function Begin<R>(l: Lane<R>, batch: seq<R>): Lane<R> { l.(writing := Some(batch)) }

  function Done<R>(l: Lane<R>): Lane<R>
    requires l.writing.Some?
  {
    l.(writing := None, batches := l.batches + [l.writing.value])
  }

  function Handle(s: State, e: Event): State {
    var (kept, out) := Iterate(s.buffers, e, s.batchSize);
    match out
    case None => s.(buffers := kept)
    case Some(b) =>
      s.(buffers := kept, raw := Begin(s.raw, b.raws), timing := Begin(s.timing, b.timings),
         meta := Begin(s.meta, b.metas), hash := Begin(s.hash, b.hashes))
  }

  // ----- Runs

  /** `run` lists the states of a run from the empty pipeline; `steps` what was done
      between them. */
  ghost predicate IsRun(run: seq<State>, steps: seq<Step>) {
    && |run| == |steps| + 1
    && run[0] == Init(run[0].batchSize)
    && forall i :: 0 <= i < |steps| ==> IsStep(run[i], steps[i], run[i + 1])
  }

  ghost predicate IsStep(s: State, a: Step, t: State) {
    Enabled(s, a) && t == Apply(s, a)
  }
}
