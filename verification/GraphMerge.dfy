/**
 First pass of compute_graph_differences: folding every collector's view into one
 "newest" view, in whatever order the collectors are visited
 (observer_controller/src/collector_manager.rs).
 */
module GraphMerge {
  import opened Prelude
  import opened GossipTypes
  import opened KeyedFold

  datatype CollectorGraph = CollectorGraph(nodes: seq<GossipNodeInfo>, channels: seq<ChannelInfo>)

  type Graphs = map<string, CollectorGraph>

  function NodeKey(n: GossipNodeInfo): PublicKey { n.pubkey }

  function ChannelKey(c: ChannelInfo): Scid { c.scid }

  /** Merge into an occupied node entry: only a strictly newer record replaces it. */
  function KeepNewer(current: GossipNodeInfo, next: GossipNodeInfo): GossipNodeInfo {
    if next.IsNewer(current) then next else current
  }

  function MergeChannels(current: ChannelInfo, next: ChannelInfo): ChannelInfo {
    current.MergeToNewest(next)
  }

  function NodeLists(graphs: Graphs): map<string, seq<GossipNodeInfo>> {
    map u | u in graphs :: graphs[u].nodes
  }

  function ChannelLists(graphs: Graphs): map<string, seq<ChannelInfo>> {
    map u | u in graphs :: graphs[u].channels
  }

  /** Everything seen when the collectors are visited in the given order. */
  function Listing<T>(lists: map<string, seq<T>>, order: seq<string>): seq<T>
    requires forall u :: u in order ==> u in lists
  {
    if order == [] then []
    else Listing(lists, order[..|order| - 1]) + lists[order[|order| - 1]]
  }

  function CombinedNodes(graphs: Graphs, order: seq<string>): map<PublicKey, GossipNodeInfo>
    requires forall u :: u in order ==> u in graphs
  {
    Collect(NodeKey, KeepNewer, Listing(NodeLists(graphs), order))
  }

  function CombinedChannels(graphs: Graphs, order: seq<string>): map<Scid, ChannelInfo>
    requires forall u :: u in order ==> u in graphs
  {
    Collect(ChannelKey, MergeChannels, Listing(ChannelLists(graphs), order))
  }

  /** All observations of one key, from any collector. */
  ghost function Observed<T(!new), K(!new)>(lists: map<string, seq<T>>, key: T -> K, k: K): set<T> {
    set u, x | u in lists && x in lists[u] && key(x) == k :: x
  }

  // ----- Listings

  lemma {:induction false} ListingConcat<T>(lists: map<string, seq<T>>, a: seq<string>, b: seq<string>)
    requires forall u :: u in a ==> u in lists
    requires forall u :: u in b ==> u in lists
    ensures Listing(lists, a + b) == Listing(lists, a) + Listing(lists, b)
  {
    if b == [] {
      assert a + b == a;
    } else {
      var n := |b| - 1;
      assert (a + b)[..|a + b| - 1] == a + b[..n];
      ListingConcat(lists, a, b[..n]);
    }
  }

  lemma ListingOne<T>(lists: map<string, seq<T>>, u: string)
    requires u in lists
    ensures Listing(lists, [u]) == lists[u]
  {
    assert [u][..0] == [];
  }

  lemma {:induction false} ListingMember<T>(lists: map<string, seq<T>>, order: seq<string>, x: T)
    requires forall u :: u in order ==> u in lists
    ensures x in Listing(lists, order) <==> exists u :: u in order && x in lists[u]
  {
    if order != [] {
      var n := |order| - 1;
      ListingMember(lists, order[..n], x);
      assert order == order[..n] + [order[n]];
    }
  }

  /** The observations listed under a key are those of all collectors. */
  lemma ListedAreObserved<T(!new), K(!new)>(lists: map<string, seq<T>>, key: T -> K, order: seq<string>, k: K)
    requires Enumerates(order, lists.Keys)
    ensures forall x :: x in At(key, Listing(lists, order), k) <==> x in Observed(lists, key, k)
  {
    forall x ensures x in At(key, Listing(lists, order), k) <==> x in Observed(lists, key, k) {
      AtMember(key, Listing(lists, order), k, x);
      ListingMember(lists, order, x);
    }
  }

  /** Per collector, its own records of one key. */
  ghost function OwnRecords<T(!new), K(!new)>(lists: map<string, seq<T>>, key: T -> K, k: K): map<string, seq<T>> {
    map u | u in lists :: At(key, lists[u], k)
  }

  /** The observations listed under a key are the collectors' own, in visiting order. */
  lemma {:induction false} ListedByOwner<T(!new), K(!new)>(lists: map<string, seq<T>>, key: T -> K,
                                                           order: seq<string>, k: K)
    requires forall u :: u in order ==> u in lists
    ensures At(key, Listing(lists, order), k) == Listing(OwnRecords(lists, key, k), order)
  {
    if order != [] {
      var n := |order| - 1;
      ListedByOwner(lists, key, order[..n], k);
      AtConcat(key, Listing(lists, order[..n]), lists[order[n]], k);
    }
  }

  // ----- What a fold of observations leaves: nodes

  /** A folded node entry is the first observation carrying the largest timestamp. */
  lemma {:induction false} NodeFoldIsFirstNewest(obs: seq<GossipNodeInfo>) returns (i: nat)
    requires obs != []
    ensures i < |obs| && Fold(KeepNewer, obs) == obs[i]
    ensures forall j :: 0 <= j < |obs| ==> NodeStamp(obs[j]) <= NodeStamp(obs[i])
    ensures forall j :: 0 <= j < i ==> NodeStamp(obs[j]) < NodeStamp(obs[i])
  {
    if |obs| == 1 {
      i := 0;
    } else {
      var n := |obs| - 1;
      i := NodeFoldIsFirstNewest(obs[..n]);
      assert forall j :: 0 <= j < n ==> obs[..n][j] == obs[j];
      if obs[n].IsNewer(obs[i]) {
        i := n;
      }
    }
  }

  ghost predicate TopNode(s: set<GossipNodeInfo>, x: GossipNodeInfo) {
    x in s && forall z :: z in s ==> NodeStamp(z) <= NodeStamp(x)
  }

  /** Observations of one node whose newest records agree. */
  ghost predicate NodeSettled(s: set<GossipNodeInfo>) {
    forall x, y :: TopNode(s, x) && TopNode(s, y) ==> x == y
  }

  lemma NodeFoldSettled(s: set<GossipNodeInfo>, a: seq<GossipNodeInfo>, b: seq<GossipNodeInfo>)
    requires a != [] && b != []
    requires forall z :: z in a <==> z in s
    requires forall z :: z in b <==> z in s
    requires NodeSettled(s)
    ensures Fold(KeepNewer, a) == Fold(KeepNewer, b)
  {
    var i := NodeFoldIsFirstNewest(a);
    var j := NodeFoldIsFirstNewest(b);
    assert TopNode(s, a[i]);
    assert TopNode(s, b[j]);
  }

  // ----- What a fold of observations leaves: channels

  /** A folded direction is the last observation of it carrying the largest
      timestamp; it is absent only if every observation lacks it. */
  lemma {:induction false} DirectionFoldIsLastNewest(obs: seq<ChannelInfo>, side: Side) returns (i: nat)
    requires obs != []
    ensures i < |obs| && Dir(Fold(MergeChannels, obs), side) == Dir(obs[i], side)
    ensures forall j :: 0 <= j < |obs| ==> DirStamp(Dir(obs[j], side)) <= DirStamp(Dir(obs[i], side))
    ensures forall j :: i < j < |obs| ==> DirStamp(Dir(obs[j], side)) < DirStamp(Dir(obs[i], side))
    ensures Dir(obs[i], side).None? <==> forall j :: 0 <= j < |obs| ==> Dir(obs[j], side).None?
  {
    if |obs| == 1 {
      i := 0;
    } else {
      var n := |obs| - 1;
      i := DirectionFoldIsLastNewest(obs[..n], side);
      assert forall j :: 0 <= j < n ==> obs[..n][j] == obs[j];
      if DirStamp(Dir(obs[i], side)) <= DirStamp(Dir(obs[n], side)) {
        i := n;
      }
    }
  }

  /** Identity and endpoints come from the first observation; the timestamp is the
      largest of all. */
  lemma {:induction false} ChannelFoldHeader(obs: seq<ChannelInfo>)
    requires obs != []
    ensures var r := Fold(MergeChannels, obs);
            && r.scid == obs[0].scid && r.nodeOne == obs[0].nodeOne && r.nodeTwo == obs[0].nodeTwo
            && (forall j :: 0 <= j < |obs| ==> ChannelStamp(obs[j]) <= ChannelStamp(r))
            && (exists j :: 0 <= j < |obs| && ChannelStamp(obs[j]) == ChannelStamp(r))
            && (r.capacitySats.None? <==> forall j :: 0 <= j < |obs| ==> obs[j].capacitySats.None?)
  {
    var r := Fold(MergeChannels, obs);
    if |obs| == 1 {
      assert ChannelStamp(obs[0]) == ChannelStamp(r);
    } else {
      var n := |obs| - 1;
      ChannelFoldHeader(obs[..n]);
      var q := Fold(MergeChannels, obs[..n]);
      assert forall j :: 0 <= j < n ==> obs[..n][j] == obs[j];
      if ChannelStamp(q) > ChannelStamp(obs[n]) {
        var j :| 0 <= j < n && ChannelStamp(obs[..n][j]) == ChannelStamp(q);
        assert ChannelStamp(obs[j]) == ChannelStamp(r);
      } else {
        assert ChannelStamp(obs[n]) == ChannelStamp(r);
      }
      if q.capacitySats.Some? {
        var j :| 0 <= j < n && obs[..n][j].capacitySats.Some?;
        assert obs[j].capacitySats.Some?;
      }
    }
  }

  /** No observation with a capacity is newer than `x`. */
  ghost predicate CoversCapacities(s: set<ChannelInfo>, x: ChannelInfo) {
    x in s && forall z :: z in s && z.capacitySats.Some? ==> ChannelStamp(z) <= ChannelStamp(x)
  }

  /** The observations whose capacity some visiting order leaves in the combined
      view: the newest ones with a capacity, or all of them when a record without
      a capacity is at least as new. */
  ghost predicate Contender(s: set<ChannelInfo>, x: ChannelInfo) {
    && x in s && x.capacitySats.Some?
    && (CoversCapacities(s, x) || exists n :: CoversCapacities(s, n) && n.capacitySats.None?)
  }

  function Elements<T>(obs: seq<T>): set<T> { set x | x in obs }

  /** Whatever the order, the folded capacity is a contender's. */
  lemma {:induction false} CapacityFoldIsContender(obs: seq<ChannelInfo>) returns (x: ChannelInfo)
    requires obs != [] && Fold(MergeChannels, obs).capacitySats.Some?
    ensures Contender(Elements(obs), x) && x.capacitySats == Fold(MergeChannels, obs).capacitySats
  {
    var s := Elements(obs);
    if |obs| == 1 {
      x := obs[0];
      assert CoversCapacities(s, x);
    } else {
      var n := |obs| - 1;
      var last, before, s' := obs[n], obs[..n], Elements(obs[..n]);
      var q := Fold(MergeChannels, before);
      assert s == s' + {last} by {
        assert obs == before + [last];
      }
      ChannelFoldHeader(before);
      if q.capacitySats.Some? && (last.capacitySats.None? || ChannelStamp(last) <= ChannelStamp(q)) {
        x := CapacityFoldIsContender(before);
        ContenderKept(before, last, x);
      } else {
        x := last;
        assert CoversCapacities(s, last) by {
          forall z | z in s && z.capacitySats.Some? ensures ChannelStamp(z) <= ChannelStamp(last) {
            if z in s' {
              var j :| 0 <= j < n && before[j] == z;
            }
          }
        }
      }
    }
  }

  /** A contender of the earlier observations stays one when the fold keeps it. */
  lemma ContenderKept(before: seq<ChannelInfo>, last: ChannelInfo, x: ChannelInfo)
    requires before != [] && Contender(Elements(before), x)
    requires last.capacitySats.None? || ChannelStamp(last) <= ChannelStamp(Fold(MergeChannels, before))
    ensures Contender(Elements(before) + {last}, x)
  {
    var s', q := Elements(before), Fold(MergeChannels, before);
    var s := s' + {last};
    ChannelFoldHeader(before);
    var w := if CoversCapacities(s', x) then x else
               var n :| CoversCapacities(s', n) && n.capacitySats.None?; n;
    if last.capacitySats.None? || ChannelStamp(last) <= ChannelStamp(w) {
      assert CoversCapacities(s, w);
    } else {
      // Some earlier record is at least as new as `last`, hence newer than every
      // earlier capacity: it carries none itself.
      var j :| 0 <= j < |before| && ChannelStamp(before[j]) == ChannelStamp(q);
      assert before[j] in s';
      assert CoversCapacities(s, before[j]);
      assert before[j].capacitySats.None?;
    }
  }

  /** Observations of one channel that leave nothing to the visiting order. */
  ghost predicate ChannelSettled(s: set<ChannelInfo>) {
    && (forall x, y :: x in s && y in s ==> x.nodeOne == y.nodeOne && x.nodeTwo == y.nodeTwo)
    && (forall side, x, y :: TopDir(s, x, side) && TopDir(s, y, side) ==> Dir(x, side) == Dir(y, side))
    && (forall x, y :: Contender(s, x) && Contender(s, y) ==> x.capacitySats == y.capacitySats)
  }

  ghost predicate TopDir(s: set<ChannelInfo>, x: ChannelInfo, side: Side) {
    x in s && forall z :: z in s ==> DirStamp(Dir(z, side)) <= DirStamp(Dir(x, side))
  }

  lemma DirectionFoldSettled(s: set<ChannelInfo>, a: seq<ChannelInfo>, b: seq<ChannelInfo>, side: Side)
    requires a != [] && b != []
    requires forall z :: z in a <==> z in s
    requires forall z :: z in b <==> z in s
    requires ChannelSettled(s)
    ensures Dir(Fold(MergeChannels, a), side) == Dir(Fold(MergeChannels, b), side)
  {
    var i := DirectionFoldIsLastNewest(a, side);
    var j := DirectionFoldIsLastNewest(b, side);
    assert TopDir(s, a[i], side);
    assert TopDir(s, b[j], side);
  }

  lemma CapacityFoldSettled(s: set<ChannelInfo>, a: seq<ChannelInfo>, b: seq<ChannelInfo>)
    requires a != [] && b != []
    requires forall z :: z in a <==> z in s
    requires forall z :: z in b <==> z in s
    requires ChannelSettled(s)
    ensures Fold(MergeChannels, a).capacitySats == Fold(MergeChannels, b).capacitySats
  {
    ChannelFoldHeader(a);
    ChannelFoldHeader(b);
    assert Elements(a) == s == Elements(b);
    if Fold(MergeChannels, a).capacitySats.Some? {
      var x := CapacityFoldIsContender(a);
      assert x in b;
      var y := CapacityFoldIsContender(b);
    } else {
      forall j | 0 <= j < |b| ensures b[j].capacitySats.None? {
        assert b[j] in a;
      }
    }
  }

  lemma ChannelFoldSettled(s: set<ChannelInfo>, a: seq<ChannelInfo>, b: seq<ChannelInfo>)
    requires a != [] && b != []
    requires forall z :: z in a <==> z in s
    requires forall z :: z in b <==> z in s
    requires forall x, y :: x in s && y in s ==> x.scid == y.scid
    requires ChannelSettled(s)
    ensures Fold(MergeChannels, a) == Fold(MergeChannels, b)
  {
    var p, q := Fold(MergeChannels, a), Fold(MergeChannels, b);
    ChannelFoldHeader(a);
    ChannelFoldHeader(b);
    assert a[0] in s && b[0] in s;
    assert ChannelStamp(p) == ChannelStamp(q) by {
      var i :| 0 <= i < |a| && ChannelStamp(a[i]) == ChannelStamp(p);
      var j :| 0 <= j < |b| && ChannelStamp(b[j]) == ChannelStamp(q);
      assert a[i] in b && b[j] in a;
    }
    CapacityFoldSettled(s, a, b);
    DirectionFoldSettled(s, a, b, OneToTwo);
    DirectionFoldSettled(s, a, b, TwoToOne);
  }
}
