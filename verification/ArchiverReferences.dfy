/**
 The foreign keys into `messages` that were dropped, in the middle of a run: when the
 references hold, what keeps them, and why the order of inserts does not
 (migrations/20260207214136_drop_foreign_keys.sql).
 */
module ArchiverReferences {
  import opened Prelude
  import opened KeyedFold
  import opened ArchiverTypes
  import opened Archiver
  import opened ArchiverProofs
  import opened ArchiverTables

  // ----- What a table refers to

  /** The tables whose foreign keys to `messages` were dropped. */
  datatype Referrer = Timings | Metadatas | Mappings

  /** The hashes under which a table refers to `messages`. */
  function HashesReferred(db: Db, table: Referrer): set<nat> {
    match table
    case Timings => set t | t in db.timings :: t.msgHash
    case Metadatas => db.metadata.Keys
    case Mappings => db.messageHashes.Keys
  }

  /** A dropped foreign key: every row refers to a stored message. */
  ghost predicate ReferencesHold(s: State, table: Referrer) {
    HashesReferred(s.db, table) <= s.db.messages.Keys
  }

  /** How many rows have been handed to each table and are inserted. */
  function RawsIn(s: State): nat { |Flatten(s.raw.batches)| }

  function RowsIn(s: State, table: Referrer): nat {
    match table
    case Timings => |Flatten(s.timing.batches)|
    case Metadatas => |Flatten(s.meta.batches)|
    case Mappings => |Flatten(s.hash.batches)|
  }

  function HashesOfMsgs(msgs: seq<ExportedGossip>): set<nat> {
    set g | g in msgs :: g.msgHash
  }

  lemma PrefixOfRows<R>(row: ExportedGossip -> R, msgs: seq<ExportedGossip>, a: seq<R>, b: seq<R>, c: seq<R>)
    requires a + b + c == Rows(row, msgs)
    ensures |a| <= |msgs| && a == Rows(row, msgs[..|a|])
  {
    assert a + b + c == a + (b + c);
    assert a == (a + (b + c))[..|a|];
  }

  lemma KeyedHashes<R(!new)>(row: ExportedGossip -> R, key: R -> nat, first: (R, R) -> R, msgs: seq<ExportedGossip>)
    requires forall g :: key(row(g)) == g.msgHash
    requires forall a, b :: first(a, b) == a
    ensures Collect(key, first, Rows(row, msgs)).Keys == HashesOfMsgs(msgs)
  {
    forall h ensures h in Collect(key, first, Rows(row, msgs)) <==> h in HashesOfMsgs(msgs) {
      FirstWriteWins(row, key, first, msgs, h);
      assert Occurs(msgs, h) <==> h in HashesOfMsgs(msgs);
    }
  }

  /** In every state of every run, each table holds the hashes of a prefix of the messages
      received, as long as the rows inserted into it. */
  lemma InsertedArePrefixes(run: seq<State>, steps: seq<Step>, i: nat, table: Referrer)
    requires IsRun(run, steps) && i < |run|
    ensures RawsIn(run[i]) <= |run[i].taken| && RowsIn(run[i], table) <= |run[i].taken|
    ensures run[i].db.messages.Keys == HashesOfMsgs(run[i].taken[..RawsIn(run[i])])
    ensures HashesReferred(run[i].db, table) == HashesOfMsgs(run[i].taken[..RowsIn(run[i], table)])
  {
    var s := run[i];
    RunsKeepInv(run, steps, i);
    hide Collect, SortedBatches, Flatten;
    RawPrefix(s);
    match table
    case Timings => TimingPrefix(s);
    case Metadatas => MetaPrefix(s);
    case Mappings => HashPrefix(s);
  }

  lemma RawPrefix(s: State)
    requires Inv(s)
    ensures RawsIn(s) <= |s.taken| && s.db.messages.Keys == HashesOfMsgs(s.taken[..RawsIn(s)])
  {
    hide Collect, SortedBatches, Bounded, HashesOfMsgs;
    PrefixOfRows(RawOf, s.taken, Flatten(s.raw.batches), InFlight(s.raw, s.buffers.raws),
                 Unsent(RawOf, Held(s.ticker), RawPending(s.ticker)));
    KeyedHashes(RawOf, RawKey, FirstRaw, s.taken[..RawsIn(s)]);
  }

  lemma MetaPrefix(s: State)
    requires Inv(s)
    ensures RowsIn(s, Metadatas) <= |s.taken|
    ensures s.db.metadata.Keys == HashesOfMsgs(s.taken[..RowsIn(s, Metadatas)])
  {
    hide Collect, SortedBatches, Bounded, HashesOfMsgs;
    PrefixOfRows(MetadataOf, s.taken, Flatten(s.meta.batches), InFlight(s.meta, s.buffers.metas),
                 Unsent(MetadataOf, Held(s.ticker), MetaPending(s.ticker)));
    KeyedHashes(MetadataOf, MetaKey, FirstMeta, s.taken[..RowsIn(s, Metadatas)]);
  }

  lemma HashPrefix(s: State)
    requires Inv(s)
    ensures RowsIn(s, Mappings) <= |s.taken|
    ensures s.db.messageHashes.Keys == HashesOfMsgs(s.taken[..RowsIn(s, Mappings)])
  {
    hide Collect, SortedBatches, Bounded, HashesOfMsgs;
    PrefixOfRows(HashesOf, s.taken, Flatten(s.hash.batches), InFlight(s.hash, s.buffers.hashes),
                 Unsent(HashesOf, Held(s.ticker), HashPending(s.ticker)));
    KeyedHashes(HashesOf, HashKey, FirstHash, s.taken[..RowsIn(s, Mappings)]);
  }

  lemma TimingPrefix(s: State)
    requires Inv(s)
    ensures RowsIn(s, Timings) <= |s.taken|
    ensures HashesReferred(s.db, Timings) == HashesOfMsgs(s.taken[..RowsIn(s, Timings)])
  {
    hide Collect, Bounded;
    PrefixOfRows(TimingOf, s.taken, Flatten(s.timing.batches), InFlight(s.timing, s.buffers.timings),
                 Unsent(TimingOf, Held(s.ticker), TimingPending(s.ticker)));
    SortedBatchesPermute(s.timing.batches);
    var msgs := s.taken[..RowsIn(s, Timings)];
    forall h ensures h in HashesReferred(s.db, Timings) <==> h in HashesOfMsgs(msgs) {
      TimingHashes(msgs, s.db.timings, h);
    }
  }

  /** A reference can dangle only for a message whose row is ahead of its raw row, and
      does unless the message repeats one whose raw row is stored. */
  lemma ReferencesHoldIff(run: seq<State>, steps: seq<Step>, i: nat, table: Referrer)
    requires IsRun(run, steps) && i < |run|
    ensures RawsIn(run[i]) <= |run[i].taken| && RowsIn(run[i], table) <= |run[i].taken|
    ensures ReferencesHold(run[i], table) <==>
            forall j :: RawsIn(run[i]) <= j < RowsIn(run[i], table) ==>
                Occurs(run[i].taken[..RawsIn(run[i])], run[i].taken[j].msgHash)
  {
    var s := run[i];
    InsertedArePrefixes(run, steps, i, table);
    hide HashesReferred, RawsIn, RowsIn;
    PrefixIncluded(s.taken, RowsIn(s, table), RawsIn(s));
  }

  lemma PrefixIncluded(msgs: seq<ExportedGossip>, m: nat, n: nat)
    requires m <= |msgs| && n <= |msgs|
    ensures HashesOfMsgs(msgs[..m]) <= HashesOfMsgs(msgs[..n])
            <==> forall j :: n <= j < m ==> Occurs(msgs[..n], msgs[j].msgHash)
  {
    forall h ensures h in HashesOfMsgs(msgs[..n]) <==> Occurs(msgs[..n], h) {
    }
    if HashesOfMsgs(msgs[..m]) <= HashesOfMsgs(msgs[..n]) {
      forall j | n <= j < m ensures Occurs(msgs[..n], msgs[j].msgHash) {
        assert msgs[j] in msgs[..m];
      }
    }
    if forall j :: n <= j < m ==> Occurs(msgs[..n], msgs[j].msgHash) {
      forall h | h in HashesOfMsgs(msgs[..m]) ensures h in HashesOfMsgs(msgs[..n]) {
        var j :| 0 <= j < m && msgs[j].msgHash == h;
        assert j < n ==> msgs[..n][j].msgHash == h;
      }
    }
  }

  ghost predicate DistinctHashes(msgs: seq<ExportedGossip>) {
    forall i, j :: 0 <= i < j < |msgs| ==> msgs[i].msgHash != msgs[j].msgHash
  }

  /** Counting rows is enough: references hold when the raw rows are not behind, and when
      no message repeats a hash they hold only then. */
  lemma RowCountsDecide(run: seq<State>, steps: seq<Step>, i: nat, table: Referrer)
    requires IsRun(run, steps) && i < |run|
    ensures RawsIn(run[i]) >= RowsIn(run[i], table) ==> ReferencesHold(run[i], table)
    ensures DistinctHashes(run[i].taken) ==>
              (ReferencesHold(run[i], table) <==> RawsIn(run[i]) >= RowsIn(run[i], table))
  {
    ReferencesHoldIff(run, steps, i, table);
    hide ReferencesHold, RawsIn, RowsIn;
    var s := run[i];
    if DistinctHashes(s.taken) && RawsIn(s) < RowsIn(s, table) {
      NoRepeat(s.taken, RawsIn(s));
    }
  }

  lemma NoRepeat(msgs: seq<ExportedGossip>, n: nat)
    requires DistinctHashes(msgs) && n < |msgs|
    ensures !Occurs(msgs[..n], msgs[n].msgHash)
  {
  }

  // ----- What keeps references in every state

  function WriteOf(table: Referrer): Step {
    match table
    case Timings => WriteTiming
    case Metadatas => WriteMeta
    case Mappings => WriteHash
  }

  /** The hashes a table is about to refer to. */
  function HashesBeingWritten(s: State, table: Referrer): set<nat>
    requires Enabled(s, WriteOf(table))
  {
    match table
    case Timings => set t | t in s.timing.writing.value :: t.msgHash
    case Metadatas => set m | m in s.meta.writing.value :: m.msgHash
    case Mappings => set h | h in s.hash.writing.value :: h.outerHash
  }

  lemma {:induction false} PutAllKeys<T, K>(key: T -> K, merge: (T, T) -> T, m: map<K, T>, batch: seq<T>)
    ensures PutAll(key, merge, m, batch).Keys == m.Keys + set x | x in batch :: key(x)
  {
    if batch != [] {
      var n := |batch| - 1;
      PutAllKeys(key, merge, m, batch[..n]);
      assert batch == batch[..n] + [batch[n]];
      assert (set x | x in batch :: key(x)) == (set x | x in batch[..n] :: key(x)) + {key(batch[n])} by {
        forall x | x in batch[..n] ensures x in batch {
        }
        assert batch[n] in batch;
      }
    }
  }

  lemma SortedHashes(batch: seq<Timing>)
    ensures (set t | t in SortByTime(batch) :: t.msgHash) == (set t | t in batch :: t.msgHash)
  {
    SortByTimeStable(batch, 0);
    forall t ensures t in SortByTime(batch) <==> t in batch {
      assert t in multiset(SortByTime(batch)) <==> t in multiset(batch);
    }
  }

  /** Messages are only added; a table gains references only when its insert finishes. */
  lemma StepAddsReferences(s: State, a: Step, table: Referrer)
    requires Enabled(s, a)
    ensures s.db.messages.Keys <= Apply(s, a).db.messages.Keys
    ensures a != WriteOf(table) ==> HashesReferred(Apply(s, a).db, table) == HashesReferred(s.db, table)
    ensures a == WriteOf(table) ==>
              && HashesReferred(Apply(s, a).db, table) == HashesReferred(s.db, table) + HashesBeingWritten(s, table)
              && Apply(s, a).db.messages == s.db.messages
  {
    hide PutAll, SortByTime;
    match a
    case WriteRaw => PutAllKeys(RawKey, FirstRaw, s.db.messages, s.raw.writing.value);
    case WriteTiming => SortedHashes(s.timing.writing.value);
    case WriteMeta => PutAllKeys(MetaKey, FirstMeta, s.db.metadata, s.meta.writing.value);
    case WriteHash => PutAllKeys(HashKey, FirstHash, s.db.messageHashes, s.hash.writing.value);
    case _ =>
  }

  ghost predicate AlwaysHold(run: seq<State>, table: Referrer) {
    forall i :: 0 <= i < |run| ==> ReferencesHold(run[i], table)
  }

  /** If the step finishes an insert into the table, every message the inserted rows refer
      to is stored already. */
  ghost predicate WaitsForMessages(s: State, a: Step, table: Referrer) {
    a == WriteOf(table) && Enabled(s, a) ==> HashesBeingWritten(s, table) <= s.db.messages.Keys
  }

  /** The guard that replaces the foreign key, on the one step that can break it:
      references hold in every state of a run if and only if no insert into the table
      finishes before the messages it refers to are stored. */
  lemma ReferencesAlwaysHoldIff(run: seq<State>, steps: seq<Step>, table: Referrer)
    requires IsRun(run, steps)
    ensures AlwaysHold(run, table) <==> forall i :: 0 <= i < |steps| ==> WaitsForMessages(run[i], steps[i], table)
  {
    if AlwaysHold(run, table) {
      forall i | 0 <= i < |steps| ensures WaitsForMessages(run[i], steps[i], table) {
        assert IsStep(run[i], steps[i], run[i + 1]);
        StepKeepsReferencesIff(run[i], steps[i], table);
      }
    }
    if forall i :: 0 <= i < |steps| ==> WaitsForMessages(run[i], steps[i], table) {
      forall i | 0 <= i < |run| ensures ReferencesHold(run[i], table) {
        WaitingKeepsReferences(run, steps, table, i);
      }
    }
  }

  lemma StepKeepsReferencesIff(s: State, a: Step, table: Referrer)
    requires Enabled(s, a) && ReferencesHold(s, table)
    ensures ReferencesHold(Apply(s, a), table) <==> WaitsForMessages(s, a, table)
  {
    StepAddsReferences(s, a, table);
    hide HashesReferred, HashesBeingWritten, WriteOf, Apply, Enabled;
  }

  lemma {:induction false} WaitingKeepsReferences(run: seq<State>, steps: seq<Step>, table: Referrer, i: nat)
    requires IsRun(run, steps) && i < |run|
    requires forall i :: 0 <= i < |steps| ==> WaitsForMessages(run[i], steps[i], table)
    ensures ReferencesHold(run[i], table)
  {
    if i > 0 {
      WaitingKeepsReferences(run, steps, table, i - 1);
      assert IsStep(run[i - 1], steps[i - 1], run[i]);
      StepKeepsReferencesIff(run[i - 1], steps[i - 1], table);
    }
  }

  // ----- Inserting into `messages` first is not enough

  /** Within every flush, the insert into `messages` finishes before the others. */
  ghost predicate MessagesFirst(run: seq<State>, steps: seq<Step>)
    requires |run| == |steps| + 1
  {
    forall i :: 0 <= i < |steps| ==> RawDone(run[i], steps[i])
  }

  predicate RawDone(s: State, a: Step) {
    a.WriteTiming? || a.WriteMeta? || a.WriteHash? ==> s.raw.writing.None?
  }

  lemma OneMoreStep(run: seq<State>, steps: seq<Step>, s: State, a: Step, t: State)
    returns (longer: seq<State>, more: seq<Step>)
    requires IsRun(run, steps) && MessagesFirst(run, steps) && run[|run| - 1] == s
    requires Enabled(s, a) && RawDone(s, a) && Apply(s, a) == t
    ensures longer == run + [t] && more == steps + [a]
    ensures IsRun(longer, more) && MessagesFirst(longer, more)
  {
    longer, more := run + [t], steps + [a];
    forall i | 0 <= i < |more| ensures IsStep(longer[i], more[i], longer[i + 1]) && RawDone(longer[i], more[i]) {
      if i < |steps| {
        assert IsStep(run[i], steps[i], run[i + 1]) && RawDone(run[i], steps[i]);
      }
    }
    hide IsStep, RawDone, Init;
  }

  const EmptyDb := Db(map[], [], map[], map[])

  /** The pipeline once `g` is queued for all four tables. */
  function Forwarded(g: ExportedGossip): State {
    State(1, [g], Idle, 1, 0, NoBuffers,
          Lane([RawOf(g)], None, []), Lane([TimingOf(g)], None, []), Lane([MetadataOf(g)], None, []),
          Lane([HashesOf(g)], None, []), EmptyDb)
  }

  /** Every row of it is flushed but the raw one, which is still queued; the flush's
      insert into `messages` is empty. */
  function FlushedAhead(g: ExportedGossip): State {
    Forwarded(g).(
      raw := Lane([RawOf(g)], Some([]), []), timing := Lane([], Some([TimingOf(g)]), []),
      meta := Lane([], Some([MetadataOf(g)]), []), hash := Lane([], Some([HashesOf(g)]), []))
  }

  lemma ReachForwarded(g: ExportedGossip) returns (run: seq<State>, steps: seq<Step>)
    ensures IsRun(run, steps) && MessagesFirst(run, steps) && run[|run| - 1] == Forwarded(g)
  {
    var s0 := Init(1);
    var s1 := Apply(s0, TakeMessage(g));
    var s2 := Apply(s1, SendNext);
    var s3 := Apply(s2, SendNext);
    var s4 := Apply(s3, SendNext);
    run, steps := [s0], [];
    assert Apply(s4, SendNext) == Forwarded(g);
    hide Apply, IsRun, MessagesFirst;
    run, steps := OneMoreStep(run, steps, s0, TakeMessage(g), s1);
    run, steps := OneMoreStep(run, steps, s1, SendNext, s2);
    run, steps := OneMoreStep(run, steps, s2, SendNext, s3);
    run, steps := OneMoreStep(run, steps, s3, SendNext, s4);
    run, steps := OneMoreStep(run, steps, s4, SendNext, Forwarded(g));
  }

  lemma BufferMeta(s: State, m: Metadata)
    requires !Writing(s) && s.meta.channel == [m] && |s.buffers.timings| < s.batchSize
    ensures Apply(s, RecvMeta)
            == s.(meta := s.meta.(channel := []), buffers := s.buffers.(metas := s.buffers.metas + [m]))
  {
  }

  lemma BufferHash(s: State, h: HashMapping)
    requires !Writing(s) && s.hash.channel == [h] && |s.buffers.timings| < s.batchSize
    ensures Apply(s, RecvHash)
            == s.(hash := s.hash.(channel := []), buffers := s.buffers.(hashes := s.buffers.hashes + [h]))
  {
  }

  lemma FlushOnTiming(g: ExportedGossip, s: State)
    requires s == Forwarded(g).(meta := EmptyLane(), hash := EmptyLane(),
                                buffers := Buffers([], [], [MetadataOf(g)], [HashesOf(g)]))
    ensures Apply(s, RecvTiming) == FlushedAhead(g)
  {
    var pushed := Buffers([], [TimingOf(g)], [MetadataOf(g)], [HashesOf(g)]);
    assert Push(s.buffers, GotTiming(TimingOf(g))) == pushed;
    assert Iterate(s.buffers, GotTiming(TimingOf(g)), 1) == (NoBuffers, Some(pushed));
    assert Drop(s.timing) == EmptyLane();
  }

  lemma ReachFlushedAhead(g: ExportedGossip) returns (run: seq<State>, steps: seq<Step>)
    ensures IsRun(run, steps) && MessagesFirst(run, steps) && run[|run| - 1] == FlushedAhead(g)
  {
    var s0 := Forwarded(g);
    var s1 := s0.(meta := EmptyLane(), buffers := NoBuffers.(metas := [MetadataOf(g)]));
    var s2 := s1.(hash := EmptyLane(), buffers := s1.buffers.(hashes := [HashesOf(g)]));
    BufferMeta(s0, MetadataOf(g));
    BufferHash(s1, HashesOf(g));
    hide Apply, IsRun, MessagesFirst;
    FlushOnTiming(g, s2);
    run, steps := ReachForwarded(g);
    run, steps := OneMoreStep(run, steps, s0, RecvMeta, s1);
    run, steps := OneMoreStep(run, steps, s1, RecvHash, s2);
    run, steps := OneMoreStep(run, steps, s2, RecvTiming, FlushedAhead(g));
  }

  lemma InsertNothing(s: State)
    requires s.raw.writing == Some([])
    ensures Apply(s, WriteRaw) == s.(raw := Done(s.raw))
  {
  }

  lemma InsertTiming(s: State, t: Timing)
    requires s.timing.writing == Some([t]) && s.db.timings == []
    ensures Apply(s, WriteTiming) == s.(timing := Done(s.timing), db := s.db.(timings := [t]))
  {
    SortsAlone(t);
    hide SortByTime;
  }

  lemma SortsAlone(t: Timing)
    ensures SortByTime([t]) == [t]
  {
    assert [t][..0] == [];
    assert SortByTime([t]) == InsertByTime(SortByTime([]), t);
  }

  lemma InsertMeta(s: State, m: Metadata)
    requires s.meta.writing == Some([m]) && s.db.metadata == map[]
    ensures Apply(s, WriteMeta) == s.(meta := Done(s.meta), db := s.db.(metadata := map[m.msgHash := m]))
  {
    assert [m][..0] == [];
    assert PutAll(MetaKey, FirstMeta, map[], [m]) == map[m.msgHash := m];
    hide PutAll;
  }

  lemma InsertHash(s: State, h: HashMapping)
    requires s.hash.writing == Some([h]) && s.db.messageHashes == map[]
    ensures Apply(s, WriteHash) == s.(hash := Done(s.hash), db := s.db.(messageHashes := map[h.outerHash := h]))
  {
    assert [h][..0] == [];
    assert PutAll(HashKey, FirstHash, map[], [h]) == map[h.outerHash := h];
    hide PutAll;
  }

  lemma InsertInOrder(s0: State, t: Timing, m: Metadata, h: HashMapping)
    returns (s1: State, s2: State, s3: State, s4: State)
    requires s0.raw.writing == Some([]) && s0.timing.writing == Some([t])
    requires s0.meta.writing == Some([m]) && s0.hash.writing == Some([h]) && s0.db == EmptyDb
    ensures Enabled(s0, WriteRaw) && Apply(s0, WriteRaw) == s1
    ensures Enabled(s1, WriteTiming) && RawDone(s1, WriteTiming) && Apply(s1, WriteTiming) == s2
    ensures Enabled(s2, WriteMeta) && RawDone(s2, WriteMeta) && Apply(s2, WriteMeta) == s3
    ensures Enabled(s3, WriteHash) && RawDone(s3, WriteHash) && Apply(s3, WriteHash) == s4
    ensures s4.db == Db(map[], [t], map[m.msgHash := m], map[h.outerHash := h])
  {
    hide Apply;
    InsertNothing(s0);
    s1 := Apply(s0, WriteRaw);
    InsertTiming(s1, t);
    s2 := Apply(s1, WriteTiming);
    InsertMeta(s2, m);
    s3 := Apply(s2, WriteMeta);
    InsertHash(s3, h);
    s4 := Apply(s3, WriteHash);
  }

  /** The order of inserts within a flush does not replace the foreign keys: even with
      `messages` always first, rows in all three tables can refer to no message, because
      the handler can flush them while the raw row is still queued. */
  lemma ReferencesCanDangle(g: ExportedGossip) returns (run: seq<State>, steps: seq<Step>)
    ensures IsRun(run, steps) && MessagesFirst(run, steps)
    ensures !ReferencesHold(run[|run| - 1], Timings)
    ensures !ReferencesHold(run[|run| - 1], Metadatas)
    ensures !ReferencesHold(run[|run| - 1], Mappings)
  {
    var s1, s2, s3, s4 := InsertInOrder(FlushedAhead(g), TimingOf(g), MetadataOf(g), HashesOf(g));
    assert TimingOf(g) in s4.db.timings && g.msgHash in HashesReferred(s4.db, Timings);
    run, steps := ReachFlushedAhead(g);
    hide Apply, IsRun, MessagesFirst;
    run, steps := OneMoreStep(run, steps, FlushedAhead(g), WriteRaw, s1);
    run, steps := OneMoreStep(run, steps, s1, WriteTiming, s2);
    run, steps := OneMoreStep(run, steps, s2, WriteMeta, s3);
    run, steps := OneMoreStep(run, steps, s3, WriteHash, s4);
  }
}
