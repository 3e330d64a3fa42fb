/**
 Decoded gossip messages and the four database rows each is split into
 (gossip_archiver/src/lib.rs).
 */
module ArchiverTypes {
  import opened Prelude
  import opened KeyedFold

  datatype ExportedGossip =
    ExportedGossip(
      netTimestamp: int,
      origTimestamp: Option<int>,
      collector: string,
      peer: string,
      peerHash: nat,
      origNode: Option<string>,
      msgType: nat,
      msgDir: nat,
      msgSize: nat,
      scid: Option<nat>,
      msg: string,
      msgHash: nat,
      innerHash: nat)

  datatype RawMessage = RawMessage(msgHash: nat, msg: string)

  datatype Timing =
    Timing(
      msgHash: nat,
      innerHash: nat,
      collector: string,
      peer: string,
      peerHash: nat,
      dir: nat,
      netTimestamp: int,
      origTimestamp: Option<int>)

  datatype Metadata =
    Metadata(msgHash: nat, innerHash: nat, msgType: nat, msgSize: nat, origNode: Option<string>, scid: Option<nat>)

  datatype HashMapping = HashMapping(outerHash: nat, innerHash: nat)

  // One row per table; together these are the split of a decoded message.

  function RawOf(g: ExportedGossip): RawMessage {
    RawMessage(g.msgHash, g.msg)
  }

  function TimingOf(g: ExportedGossip): Timing {
    Timing(g.msgHash, g.innerHash, g.collector, g.peer, g.peerHash, g.msgDir, g.netTimestamp, g.origTimestamp)
  }

  function MetadataOf(g: ExportedGossip): Metadata {
    Metadata(g.msgHash, g.innerHash, g.msgType, g.msgSize, g.origNode, g.scid)
  }

  function HashesOf(g: ExportedGossip): HashMapping {
    HashMapping(g.msgHash, g.innerHash)
  }

  /** The message the four rows of a split came from. */
  function Rebuild(raw: RawMessage, timing: Timing, meta: Metadata, hashes: HashMapping): ExportedGossip {
    ExportedGossip(
      timing.netTimestamp, timing.origTimestamp, timing.collector, timing.peer, timing.peerHash, meta.origNode,
      meta.msgType, timing.dir, meta.msgSize, meta.scid, raw.msg, raw.msgHash, hashes.innerHash)
  }

  /** The split loses nothing, and every row carries the hash of its message. */
  lemma SplitLosesNothing(g: ExportedGossip)
    ensures Rebuild(RawOf(g), TimingOf(g), MetadataOf(g), HashesOf(g)) == g
    ensures RawOf(g).msgHash == TimingOf(g).msgHash == MetadataOf(g).msgHash == HashesOf(g).outerHash
    ensures TimingOf(g).innerHash == MetadataOf(g).innerHash == HashesOf(g).innerHash
    ensures RawOf(g).msg == g.msg && RawOf(g).msgHash == g.msgHash && HashesOf(g).innerHash == g.innerHash
    ensures TimingOf(g).collector == g.collector && TimingOf(g).peer == g.peer && TimingOf(g).peerHash == g.peerHash
    ensures TimingOf(g).dir == g.msgDir && TimingOf(g).netTimestamp == g.netTimestamp
    ensures TimingOf(g).origTimestamp == g.origTimestamp && MetadataOf(g).origNode == g.origNode
    ensures MetadataOf(g).msgType == g.msgType && MetadataOf(g).msgSize == g.msgSize && MetadataOf(g).scid == g.scid
  {
  }

  // ----- Stable sort by network timestamp

  function TimeKey(t: Timing): int { t.netTimestamp }

  ghost predicate SortedByTime(s: seq<Timing>) {
    forall i, j :: 0 <= i < j < |s| ==> s[i].netTimestamp <= s[j].netTimestamp
  }

  /** Places `x` after every row that is not later. */
  function InsertByTime(s: seq<Timing>, x: Timing): seq<Timing> {
    if s == [] || s[|s| - 1].netTimestamp <= x.netTimestamp then s + [x]
    else InsertByTime(s[..|s| - 1], x) + [s[|s| - 1]]
  }

  function SortByTime(s: seq<Timing>): seq<Timing> {
    if s == [] then [] else InsertByTime(SortByTime(s[..|s| - 1]), s[|s| - 1])
  }

  lemma {:induction false} InsertByTimeMember(s: seq<Timing>, x: Timing, t: Timing)
    ensures t in InsertByTime(s, x) <==> t in s || t == x
  {
    if s == [] || s[|s| - 1].netTimestamp <= x.netTimestamp {
    } else {
      InsertByTimeMember(s[..|s| - 1], x, t);
      assert s == s[..|s| - 1] + [s[|s| - 1]];
    }
  }

  lemma {:induction false} InsertByTimeSorts(s: seq<Timing>, x: Timing)
    requires SortedByTime(s)
    ensures SortedByTime(InsertByTime(s, x))
  {
    if s == [] || s[|s| - 1].netTimestamp <= x.netTimestamp {
    } else {
      var n := |s| - 1;
      var front := InsertByTime(s[..n], x);
      InsertByTimeSorts(s[..n], x);
      forall i | 0 <= i < |front| ensures front[i].netTimestamp <= s[n].netTimestamp {
        InsertByTimeMember(s[..n], x, front[i]);
      }
    }
  }

  lemma {:induction false} InsertByTimeStable(s: seq<Timing>, x: Timing, k: int)
    requires SortedByTime(s)
    ensures At(TimeKey, InsertByTime(s, x), k) == At(TimeKey, s, k) + (if x.netTimestamp == k then [x] else [])
  {
    if s == [] || s[|s| - 1].netTimestamp <= x.netTimestamp {
      assert (s + [x])[..|s|] == s;
    } else {
      var n := |s| - 1;
      InsertByTimeStable(s[..n], x, k);
      assert InsertByTime(s, x)[..|InsertByTime(s, x)| - 1] == InsertByTime(s[..n], x);
      if x.netTimestamp == k {
        assert s[n].netTimestamp != k;
      }
    }
  }

  lemma {:induction false} SortKeepsOrderOfEqualTimes(s: seq<Timing>, k: int)
    ensures SortedByTime(SortByTime(s))
    ensures At(TimeKey, SortByTime(s), k) == At(TimeKey, s, k)
  {
    if s != [] {
      var n := |s| - 1;
      SortKeepsOrderOfEqualTimes(s[..n], k);
      hide InsertByTime;
      InsertByTimeSorts(SortByTime(s[..n]), s[n]);
      InsertByTimeStable(SortByTime(s[..n]), s[n], k);
    }
  }

  /** The sort orders the rows, loses and invents none, and keeps rows of equal time
      in their order of arrival. */
  lemma SortByTimeStable(s: seq<Timing>, k: int)
    ensures SortedByTime(SortByTime(s))
    ensures multiset(SortByTime(s)) == multiset(s)
    ensures At(TimeKey, SortByTime(s), k) == At(TimeKey, s, k)
  {
    SortKeepsOrderOfEqualTimes(s, k);
    forall t ensures multiset(SortByTime(s))[t] == multiset(s)[t] {
      SortKeepsOrderOfEqualTimes(s, TimeKey(t));
      AtMultiset(TimeKey, s, TimeKey(t), t);
      AtMultiset(TimeKey, SortByTime(s), TimeKey(t), t);
    }
  }
}
