/**
 Consequences of the pipeline invariant for the database: what each table holds in the
 middle of a run, and that the four agree at quiescence.
 */
module ArchiverTables {
  import opened Prelude
  import opened KeyedFold
  import opened ArchiverTypes
  import opened Archiver
  import opened ArchiverProofs

  // ----- First write wins

  ghost predicate FirstOf(msgs: seq<ExportedGossip>, h: nat, j: int) {
    0 <= j < |msgs| && msgs[j].msgHash == h && forall i :: 0 <= i < j ==> msgs[i].msgHash != h
  }

  ghost predicate Occurs(msgs: seq<ExportedGossip>, h: nat) {
    exists j :: 0 <= j < |msgs| && msgs[j].msgHash == h
  }

  /** A first-write-wins table fed with the rows of some messages holds exactly their
      hashes, each with the row of the first message carrying it. */
  lemma {:induction false} FirstWriteWins<R(!new)>(row: ExportedGossip -> R, key: R -> nat, first: (R, R) -> R,
                                                   msgs: seq<ExportedGossip>, h: nat)
    requires forall g :: key(row(g)) == g.msgHash
    requires forall a, b :: first(a, b) == a
    ensures h in Collect(key, first, Rows(row, msgs)) <==> Occurs(msgs, h)
    ensures forall j :: FirstOf(msgs, h, j) ==> h in Collect(key, first, Rows(row, msgs))
                                                && Collect(key, first, Rows(row, msgs))[h] == row(msgs[j])
  {
    if msgs != [] {
      var n := |msgs| - 1;
      var before, g := msgs[..n], msgs[n];
      assert msgs == before + [g];
      FirstWriteWins(row, key, first, before, h);
      RowsSnoc(row, before, g);
      CollectSnoc(key, first, Rows(row, before), row(g));
      assert Occurs(msgs, h) <==> Occurs(before, h) || g.msgHash == h by {
        if Occurs(before, h) {
          var j :| 0 <= j < n && before[j].msgHash == h;
          assert msgs[j].msgHash == h;
        }
        if g.msgHash == h {
          assert msgs[n].msgHash == h;
        }
        if Occurs(msgs, h) && g.msgHash != h {
          var j :| 0 <= j < |msgs| && msgs[j].msgHash == h;
          assert before[j].msgHash == h;
        }
      }
      forall j | FirstOf(msgs, h, j)
        ensures h in Collect(key, first, Rows(row, msgs)) && Collect(key, first, Rows(row, msgs))[h] == row(msgs[j])
      {
        if j < n {
          assert FirstOf(before, h, j);
        } else {
          assert !Occurs(before, h);
        }
      }
    }
  }

  lemma {:induction false} FirstExists(msgs: seq<ExportedGossip>, h: nat) returns (j: nat)
    requires Occurs(msgs, h)
    ensures FirstOf(msgs, h, j)
  {
    var n := |msgs| - 1;
    if Occurs(msgs[..n], h) {
      j := FirstExists(msgs[..n], h);
    } else {
      j := n;
      forall i | 0 <= i < n ensures msgs[i].msgHash != h {
        assert msgs[..n][i] == msgs[i];
      }
    }
  }

  // ----- Timings

  lemma {:induction false} SortedBatchesPermute(batches: seq<seq<Timing>>)
    ensures multiset(SortedBatches(batches)) == multiset(Flatten(batches))
  {
    if batches != [] {
      var n := |batches| - 1;
      SortedBatchesPermute(batches[..n]);
      SortByTimeStable(batches[n], 0);
    }
  }

  /** In every state of every run: timings rows inserted, being inserted, buffered,
      queued and unsent are, as a multiset, the timings rows of the messages received. */
  lemma TimingsConserved(run: seq<State>, steps: seq<Step>, i: nat)
    requires IsRun(run, steps) && i < |run|
    ensures var s := run[i];
            multiset(s.db.timings) + multiset(InFlight(s.timing, s.buffers.timings))
            + multiset(Unsent(TimingOf, Held(s.ticker), TimingPending(s.ticker)))
            == multiset(Rows(TimingOf, s.taken))
  {
    var s := run[i];
    RunsKeepInv(run, steps, i);
    SortedBatchesPermute(s.timing.batches);
    var a, b, c := Flatten(s.timing.batches), InFlight(s.timing, s.buffers.timings),
        Unsent(TimingOf, Held(s.ticker), TimingPending(s.ticker));
    assert Rows(TimingOf, s.taken) == a + b + c;
    assert multiset(a + b + c) == multiset(a) + multiset(b) + multiset(c);
  }

  lemma SortedLength(batches: seq<seq<Timing>>, batch: seq<Timing>)
    ensures |SortedBatches(batches)| == |Flatten(batches)| && |SortByTime(batch)| == |batch|
  {
    SortedBatchesPermute(batches);
    SortByTimeStable(batch, 0);
    assert |multiset(SortedBatches(batches))| == |multiset(Flatten(batches))|;
    assert |multiset(SortByTime(batch))| == |multiset(batch)|;
  }

  lemma Segments<T>(a: seq<T>, b: seq<T>, from: nat, to: nat)
    ensures (a + b)[|a|..|a| + |b|] == b
    ensures from <= to <= |a| ==> (a + b)[from..to] == a[from..to]
  {
  }

  /** The part of the timings that comes from one batch. */
  function Segment(batches: seq<seq<Timing>>, b: nat, table: seq<Timing>): seq<Timing>
    requires b < |batches| && |Flatten(batches[..b])| + |batches[b]| <= |table|
  {
    table[|Flatten(batches[..b])|..|Flatten(batches[..b])| + |batches[b]|]
  }

  lemma {:induction false} SortedSegment(batches: seq<seq<Timing>>, b: nat)
    requires b < |batches|
    ensures |Flatten(batches[..b])| + |batches[b]| <= |SortedBatches(batches)| == |Flatten(batches)|
    ensures Segment(batches, b, SortedBatches(batches)) == SortByTime(batches[b])
  {
    var n := |batches| - 1;
    var front, last := SortedBatches(batches[..n]), SortByTime(batches[n]);
    assert SortedBatches(batches) == front + last;
    SortedLength(batches, []);
    SortedLength(batches[..n], batches[n]);
    if b == n {
      Segments(front, last, 0, 0);
    } else {
      SortedSegment(batches[..n], b);
      assert batches[..n][..b] == batches[..b];
      var from := |Flatten(batches[..b])|;
      Segments(front, last, from, from + |batches[b]|);
    }
  }

  /** In every state of every run the timings table is a run of segments, one per batch
      inserted: each has the rows of its batch, in order of time, and rows of equal time in
      the order they arrived. */
  lemma TimingsInSegments(run: seq<State>, steps: seq<Step>, i: nat, b: nat, k: int)
    requires IsRun(run, steps) && i < |run| && b < |run[i].timing.batches|
    ensures var batches, table := run[i].timing.batches, run[i].db.timings;
            && |Flatten(batches[..b])| + |batches[b]| <= |table| == |Flatten(batches)|
            && SortedByTime(Segment(batches, b, table))
            && multiset(Segment(batches, b, table)) == multiset(batches[b])
            && At(TimeKey, Segment(batches, b, table), k) == At(TimeKey, batches[b], k)
  {
    TableOfTimings(run, steps, i);
    hide IsRun;
    SortedSegment(run[i].timing.batches, b);
    SortByTimeStable(run[i].timing.batches[b], k);
    hide *;
  }

  lemma TableOfTimings(run: seq<State>, steps: seq<Step>, i: nat)
    requires IsRun(run, steps) && i < |run|
    ensures run[i].db.timings == SortedBatches(run[i].timing.batches)
  {
    RunsKeepInv(run, steps, i);
    hide Conserved, Bounded, SortedBatches, Collect;
  }

  // ----- Quiescence

  ghost predicate Quiescent(s: State) {
    && s.ticker.Idle? && s.buffers == NoBuffers && !Writing(s)
    && s.raw.channel == [] && s.timing.channel == [] && s.meta.channel == [] && s.hash.channel == []
  }

  /** Once nothing is in flight, the three keyed tables have the same hashes, exactly
      those occurring in timings, and the three rows of a hash come from one message:
      the first one received with it.  Timings holds one row per message received. */
  lemma QuiescentTablesAgree(run: seq<State>, steps: seq<Step>, i: nat)
    requires IsRun(run, steps) && i < |run| && Quiescent(run[i])
    ensures var s := run[i];
            && multiset(s.db.timings) == multiset(Rows(TimingOf, s.taken))
            && (forall h :: h in s.db.messages <==> exists t :: t in s.db.timings && t.msgHash == h)
            && s.db.metadata.Keys == s.db.messages.Keys == s.db.messageHashes.Keys
            && (forall h :: h in s.db.messages ==> RowsOfOneMessage(s.db, s.taken, h))
  {
    var s := run[i];
    QuiescentTables(run, steps, i);
    hide *;
    forall h
      ensures h in s.db.messages <==> h in s.db.metadata
      ensures h in s.db.messages <==> h in s.db.messageHashes
      ensures h in s.db.messages <==> exists t :: t in s.db.timings && t.msgHash == h
      ensures h in s.db.messages ==> RowsOfOneMessage(s.db, s.taken, h)
    {
      TablesOfAll(s.db, s.taken, h);
    }
  }

  /** Every table is the one all messages received give. */
  lemma QuiescentTables(run: seq<State>, steps: seq<Step>, i: nat)
    requires IsRun(run, steps) && i < |run| && Quiescent(run[i])
    ensures run[i].db.messages == Collect(RawKey, FirstRaw, Rows(RawOf, run[i].taken))
    ensures run[i].db.metadata == Collect(MetaKey, FirstMeta, Rows(MetadataOf, run[i].taken))
    ensures run[i].db.messageHashes == Collect(HashKey, FirstHash, Rows(HashesOf, run[i].taken))
    ensures multiset(run[i].db.timings) == multiset(Rows(TimingOf, run[i].taken))
  {
    RunsKeepInv(run, steps, i);
    TimingsConserved(run, steps, i);
    hide IsRun, Inv, Collect, Rows;
    QuiescentLanes(run[i]);
  }

  /** The three keyed rows of a hash all come from the first message carrying it. */
  ghost predicate RowsOfOneMessage(db: Db, msgs: seq<ExportedGossip>, h: nat) {
    exists j :: FirstOf(msgs, h, j)
      && h in db.messages && db.messages[h] == RawOf(msgs[j])
      && h in db.metadata && db.metadata[h] == MetadataOf(msgs[j])
      && h in db.messageHashes && db.messageHashes[h] == HashesOf(msgs[j])
  }

  lemma TablesOfAll(db: Db, msgs: seq<ExportedGossip>, h: nat)
    requires db.messages == Collect(RawKey, FirstRaw, Rows(RawOf, msgs))
    requires db.metadata == Collect(MetaKey, FirstMeta, Rows(MetadataOf, msgs))
    requires db.messageHashes == Collect(HashKey, FirstHash, Rows(HashesOf, msgs))
    requires multiset(db.timings) == multiset(Rows(TimingOf, msgs))
    ensures h in db.messages <==> h in db.metadata
    ensures h in db.messages <==> h in db.messageHashes
    ensures h in db.messages <==> exists t :: t in db.timings && t.msgHash == h
    ensures h in db.messages ==> RowsOfOneMessage(db, msgs, h)
  {
    FirstWriteWins(RawOf, RawKey, FirstRaw, msgs, h);
    FirstWriteWins(MetadataOf, MetaKey, FirstMeta, msgs, h);
    FirstWriteWins(HashesOf, HashKey, FirstHash, msgs, h);
    TimingHashes(msgs, db.timings, h);
    if h in db.messages {
      var j := FirstExists(msgs, h);
    }
  }

  lemma QuiescentLanes(s: State)
    requires Inv(s) && Quiescent(s)
    ensures s.db.messages == Collect(RawKey, FirstRaw, Rows(RawOf, s.taken))
    ensures s.db.metadata == Collect(MetaKey, FirstMeta, Rows(MetadataOf, s.taken))
    ensures s.db.messageHashes == Collect(HashKey, FirstHash, Rows(HashesOf, s.taken))
    ensures Flatten(s.raw.batches) == Rows(RawOf, s.taken)
    ensures Flatten(s.meta.batches) == Rows(MetadataOf, s.taken)
    ensures Flatten(s.hash.batches) == Rows(HashesOf, s.taken)
  {
    assert Contents(s.raw, []) == Flatten(s.raw.batches);
    assert Contents(s.meta, []) == Flatten(s.meta.batches);
    assert Contents(s.hash, []) == Flatten(s.hash.batches);
  }

  lemma TimingHashes(msgs: seq<ExportedGossip>, timings: seq<Timing>, h: nat)
    requires multiset(timings) == multiset(Rows(TimingOf, msgs))
    ensures Occurs(msgs, h) <==> exists t :: t in timings && t.msgHash == h
  {
    if Occurs(msgs, h) {
      var j :| 0 <= j < |msgs| && msgs[j].msgHash == h;
      assert Rows(TimingOf, msgs)[j] in multiset(timings);
      assert Rows(TimingOf, msgs)[j] in timings;
    }
    if t :| t in timings && t.msgHash == h {
      assert t in multiset(Rows(TimingOf, msgs));
      var j :| 0 <= j < |msgs| && Rows(TimingOf, msgs)[j] == t;
      assert msgs[j].msgHash == h;
    }
  }
}
