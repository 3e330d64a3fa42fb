/**
 Exporter, wire format and decoder together: what the archiver decodes from a batch
 the exporter published.
 */
module EndToEnd {
  import opened Prelude
  import opened Text
  import opened WireFormat
  import opened ArchiverTypes
  import X = Exporter

  /** Every message the node exported so far is the printed form of a clean record. */
  ghost predicate ExportsClean(codec: Codec, s: X.State, exports: seq<Export>) {
    && |exports| == |s.exported|
    && forall j :: 0 <= j < |exports| ==>
        s.exported[j] == Join(Fields(exports[j]), INTRA) && Clean(codec, exports[j], s.collector)
  }

  /** The record behind one message of a published batch. */
  lemma RecordOf(run: seq<X.State>, steps: seq<X.Step>, i: nat, b: nat, k: nat, codec: Codec, exports: seq<Export>)
    returns (j: nat)
    requires X.IsRun(run, steps) && i < |run| && ExportsClean(codec, run[i], exports)
    requires b < |run[i].published| && k < |run[i].published[b]|
    ensures j < |exports| && j < |run[i].received|
    ensures run[i].published[b][k] == Line(exports[j], run[i].collector)
    ensures X.PeerField(run[i].published[b][k]).Some?
            && X.PeerField(run[i].published[b][k]).value !in run[i].received[j].pending
  {
    hide X.PeerField;
    j := X.NothingPendingIsPublished(run, steps, i, b, k);
    X.RunsKeepInv(run, steps, i);
  }

  /** Message `m` is the line of record `origin`, received while its peer was not pending. */
  ghost predicate ComesFrom(s: X.State, exports: seq<Export>, m: string, origin: nat) {
    && origin < |exports| && origin < |s.received|
    && m == Line(exports[origin], s.collector)
    && X.PeerField(m).Some? && X.PeerField(m).value !in s.received[origin].pending
  }

  lemma OriginsOf(run: seq<X.State>, steps: seq<X.Step>, i: nat, b: nat, codec: Codec, exports: seq<Export>)
    returns (origin: seq<nat>)
    requires X.IsRun(run, steps) && i < |run| && ExportsClean(codec, run[i], exports) && b < |run[i].published|
    ensures |origin| == |run[i].published[b]|
    ensures forall k :: 0 <= k < |origin| ==> ComesFrom(run[i], exports, run[i].published[b][k], origin[k])
  {
    origin := [];
    while |origin| < |run[i].published[b]|
      invariant |origin| <= |run[i].published[b]|
      invariant forall k :: 0 <= k < |origin| ==> ComesFrom(run[i], exports, run[i].published[b][k], origin[k])
    {
      hide X.IsRun, ExportsClean, X.PeerField, Line;
      var j := RecordOf(run, steps, i, b, |origin|, codec, exports);
      origin := origin + [j];
    }
  }

  /** Each published batch decodes without error, to as many messages as the batch size,
      and each decoded message is a record the node exported, from a peer that was not
      pending when the exporter received it. */
  lemma PublishedBatchDecodes(run: seq<X.State>, steps: seq<X.Step>, i: nat, b: nat, codec: Codec, exports: seq<Export>)
    returns (sent: seq<ExportedGossip>, origin: seq<nat>)
    requires X.IsRun(run, steps) && i < |run| && ExportsClean(codec, run[i], exports) && b < |run[i].published|
    ensures DecodeLines(codec, Split(Join(run[i].published[b], ';'), ';')) == (sent, true)
    ensures |sent| == |origin| == run[i].batchSize
    ensures forall k :: 0 <= k < |sent| ==>
              && origin[k] < |exports| && origin[k] < |run[i].received|
              && Matches(codec, exports[origin[k]], run[i].collector, sent[k])
              && sent[k].peer !in run[i].received[origin[k]].pending
  {
    X.RunsKeepInv(run, steps, i);
    origin := OriginsOf(run, steps, i, b, codec, exports);
    sent := BatchDecodes(run[i], run[i].published[b], codec, exports, origin);
  }

  lemma BatchDecodes(s: X.State, batch: seq<string>, codec: Codec, exports: seq<Export>, origin: seq<nat>)
    returns (sent: seq<ExportedGossip>)
    requires ExportsClean(codec, s, exports) && batch != [] && |origin| == |batch|
    requires forall k :: 0 <= k < |origin| ==> ComesFrom(s, exports, batch[k], origin[k])
    ensures DecodeLines(codec, Split(Join(batch, INTER), INTER)) == (sent, true) && |sent| == |batch|
    ensures forall k :: 0 <= k < |sent| ==>
              && origin[k] < |exports| && origin[k] < |s.received|
              && Matches(codec, exports[origin[k]], s.collector, sent[k])
              && sent[k].peer !in s.received[origin[k]].pending
  {
    hide X.PeerField, Matches, Clean, DecodeMsg, DecodeLines, Line, Fields, Join, Split;
    var es := seq(|batch|, k requires 0 <= k < |batch| => exports[origin[k]]);
    assert Lines(es, s.collector) == batch;
    RoundTripIff(codec, es, s.collector);
    sent := DecodeLines(codec, Split(Payload(es, s.collector), INTER)).0;
    forall k | 0 <= k < |sent| ensures sent[k].peer !in s.received[origin[k]].pending {
      LinePeer(codec, es, s.collector, k, sent);
    }
  }

  /** The peer of a decoded message is the field the exporter looked at. */
  lemma LinePeer(codec: Codec, es: seq<Export>, collector: string, k: nat, sent: seq<ExportedGossip>)
    requires es != [] && k < |es| && RoundTrips(codec, es, collector)
    requires sent == DecodeLines(codec, Split(Payload(es, collector), INTER)).0
    ensures k < |sent| && X.PeerField(Line(es[k], collector)) == Some(sent[k].peer)
  {
    RoundTripIff(codec, es, collector);
    forall p | p in Lines(es, collector) ensures INTER !in p {
      var j :| 0 <= j < |es| && Lines(es, collector)[j] == p;
      LineContains(es[j], collector);
    }
    SplitJoin(Lines(es, collector), INTER);
    DecodedInOrder(codec, Lines(es, collector));
    FilteredFieldIsPeer(codec, Line(es[k], collector));
  }
}
