/**
 The combined graph: what every entry is whatever the order in which collectors are
 visited, and a condition on single records under which the order does not matter.
 */
module GraphOrder {
  import opened Prelude
  import opened GossipTypes
  import opened KeyedFold
  import opened GraphMerge

  // ----- The combined view against its plain reading

  /** A combined node exists iff some collector lists it, and is an observation of it
      carrying the largest timestamp any collector has for it. */
  lemma CombinedNodeIsNewest(graphs: Graphs, order: seq<string>, k: PublicKey)
    requires Enumerates(order, graphs.Keys)
    ensures k in CombinedNodes(graphs, order) <==> Observed(NodeLists(graphs), NodeKey, k) != {}
    ensures k in CombinedNodes(graphs, order) ==>
              TopNode(Observed(NodeLists(graphs), NodeKey, k), CombinedNodes(graphs, order)[k])
  {
    var obs := At(NodeKey, Listing(NodeLists(graphs), order), k);
    CollectRefinesFold(NodeKey, KeepNewer, Listing(NodeLists(graphs), order), k);
    ListedAreObserved(NodeLists(graphs), NodeKey, order, k);
    if obs != [] {
      var i := NodeFoldIsFirstNewest(obs);
      assert obs[i] in Observed(NodeLists(graphs), NodeKey, k);
    }
  }

  /** `r` is the newest view of the observations `s` of one channel: its endpoints and
      its timestamp are observed ones, the timestamp the largest; each direction is an
      observed one with the largest timestamp, present iff any observation has it; the
      capacity is a contender's, present iff any observation has one. */
  ghost predicate NewestChannel(s: set<ChannelInfo>, r: ChannelInfo) {
    && (exists x :: x in s && x.nodeOne == r.nodeOne && x.nodeTwo == r.nodeTwo)
    && (forall x :: x in s ==> ChannelStamp(x) <= ChannelStamp(r))
    && (exists x :: x in s && ChannelStamp(x) == ChannelStamp(r))
    && (forall side :: NewestDirection(s, r, side))
    && (r.capacitySats.None? <==> forall x :: x in s ==> x.capacitySats.None?)
    && (r.capacitySats.Some? ==> exists x :: Contender(s, x) && x.capacitySats == r.capacitySats)
  }

  ghost predicate NewestDirection(s: set<ChannelInfo>, r: ChannelInfo, side: Side) {
    && (exists x :: TopDir(s, x, side) && Dir(x, side) == Dir(r, side))
    && (Dir(r, side).None? <==> forall x :: x in s ==> Dir(x, side).None?)
  }

  lemma FoldIsNewestChannel(obs: seq<ChannelInfo>)
    requires obs != []
    ensures NewestChannel(Elements(obs), Fold(MergeChannels, obs))
  {
    var s, r := Elements(obs), Fold(MergeChannels, obs);
    assert obs[0] in s;
    ChannelFoldHeader(obs);
    forall side ensures NewestDirection(s, r, side) {
      var i := DirectionFoldIsLastNewest(obs, side);
      assert TopDir(s, obs[i], side);
    }
    if r.capacitySats.Some? {
      var x := CapacityFoldIsContender(obs);
    }
  }

  /** A combined channel exists iff some collector lists it, and is the newest view of
      its observations. */
  lemma CombinedChannelIsNewest(graphs: Graphs, order: seq<string>, k: Scid)
    requires Enumerates(order, graphs.Keys)
    ensures k in CombinedChannels(graphs, order) <==> Observed(ChannelLists(graphs), ChannelKey, k) != {}
    ensures k in CombinedChannels(graphs, order) ==>
              && CombinedChannels(graphs, order)[k].scid == k
              && NewestChannel(Observed(ChannelLists(graphs), ChannelKey, k), CombinedChannels(graphs, order)[k])
  {
    var s := Observed(ChannelLists(graphs), ChannelKey, k);
    var obs := At(ChannelKey, Listing(ChannelLists(graphs), order), k);
    CollectRefinesFold(ChannelKey, MergeChannels, Listing(ChannelLists(graphs), order), k);
    ListedAreObserved(ChannelLists(graphs), ChannelKey, order, k);
    if obs != [] {
      assert Elements(obs) == s;
      FoldIsNewestChannel(obs);
      ChannelFoldHeader(obs);
      assert obs[0] in s;
    }
  }

  /** When every upload satisfies the channel timestamp invariant, so does every
      combined channel. */
  lemma CombinedChannelsWellStamped(graphs: Graphs, order: seq<string>, k: Scid)
    requires forall u :: u in order ==> u in graphs
    requires forall u, c :: u in graphs && c in graphs[u].channels ==> WellStamped(c)
    requires k in CombinedChannels(graphs, order)
    ensures WellStamped(CombinedChannels(graphs, order)[k])
  {
    var all := Listing(ChannelLists(graphs), order);
    CollectRefinesFold(ChannelKey, MergeChannels, all, k);
    forall c | c in At(ChannelKey, all, k) ensures WellStamped(c) {
      AtMember(ChannelKey, all, k, c);
      ListingMember(ChannelLists(graphs), order, c);
    }
    FoldWellStamped(At(ChannelKey, all, k));
  }

  lemma {:induction false} FoldWellStamped(obs: seq<ChannelInfo>)
    requires obs != [] && forall c :: c in obs ==> WellStamped(c)
    ensures WellStamped(Fold(MergeChannels, obs))
  {
    if |obs| > 1 {
      FoldWellStamped(obs[..|obs| - 1]);
      WellStampedPreserved(Fold(MergeChannels, obs[..|obs| - 1]), obs[|obs| - 1]);
    }
  }

  // ----- Order independence

  ghost predicate OrderIndependent(graphs: Graphs) {
    forall a, b :: Enumerates(a, graphs.Keys) && Enumerates(b, graphs.Keys) ==>
                     && CombinedNodes(graphs, a) == CombinedNodes(graphs, b)
                     && CombinedChannels(graphs, a) == CombinedChannels(graphs, b)
  }

  /** Nothing in the uploads is left to the visiting order: the newest records of a
      node agree, the newest updates of a channel direction agree, the endpoints of a
      channel agree, and so do the capacities that could win. */
  ghost predicate Unambiguous(graphs: Graphs) {
    && (forall k :: NodeSettled(Observed(NodeLists(graphs), NodeKey, k)))
    && (forall k :: ChannelSettled(Observed(ChannelLists(graphs), ChannelKey, k)))
  }

  /** Uploads that leave nothing ambiguous combine to the same view in every order. */
  lemma UnambiguousImpliesOrderIndependent(graphs: Graphs)
    requires Unambiguous(graphs)
    ensures OrderIndependent(graphs)
  {
    forall a, b | Enumerates(a, graphs.Keys) && Enumerates(b, graphs.Keys)
      ensures CombinedNodes(graphs, a) == CombinedNodes(graphs, b)
      ensures CombinedChannels(graphs, a) == CombinedChannels(graphs, b)
    {
      NodesAgree(graphs, a, b);
      ChannelsAgree(graphs, a, b);
    }
  }

  lemma NodesAgree(graphs: Graphs, a: seq<string>, b: seq<string>)
    requires Unambiguous(graphs)
    requires Enumerates(a, graphs.Keys) && Enumerates(b, graphs.Keys)
    ensures CombinedNodes(graphs, a) == CombinedNodes(graphs, b)
  {
    var s, t := Listing(NodeLists(graphs), a), Listing(NodeLists(graphs), b);
    forall k
      ensures At(NodeKey, s, k) == [] <==> At(NodeKey, t, k) == []
      ensures At(NodeKey, s, k) != [] && At(NodeKey, t, k) != [] ==>
              Fold(KeepNewer, At(NodeKey, s, k)) == Fold(KeepNewer, At(NodeKey, t, k))
    {
      var o := Observed(NodeLists(graphs), NodeKey, k);
      ListedAreObserved(NodeLists(graphs), NodeKey, a, k);
      ListedAreObserved(NodeLists(graphs), NodeKey, b, k);
      SameEmptiness(At(NodeKey, s, k), At(NodeKey, t, k), o);
      if At(NodeKey, s, k) != [] {
        NodeFoldSettled(o, At(NodeKey, s, k), At(NodeKey, t, k));
      }
    }
    CollectEqual(NodeKey, KeepNewer, s, t);
  }

  lemma SameEmptiness<T(!new)>(a: seq<T>, b: seq<T>, s: set<T>)
    requires forall x :: x in a <==> x in s
    requires forall x :: x in b <==> x in s
    ensures a == [] <==> b == []
  {
    if a != [] { assert a[0] in b; }
    if b != [] { assert b[0] in a; }
  }

  lemma ChannelsAgree(graphs: Graphs, a: seq<string>, b: seq<string>)
    requires Unambiguous(graphs)
    requires Enumerates(a, graphs.Keys) && Enumerates(b, graphs.Keys)
    ensures CombinedChannels(graphs, a) == CombinedChannels(graphs, b)
  {
    var s, t := Listing(ChannelLists(graphs), a), Listing(ChannelLists(graphs), b);
    forall k
      ensures At(ChannelKey, s, k) == [] <==> At(ChannelKey, t, k) == []
      ensures At(ChannelKey, s, k) != [] && At(ChannelKey, t, k) != [] ==>
              Fold(MergeChannels, At(ChannelKey, s, k)) == Fold(MergeChannels, At(ChannelKey, t, k))
    {
      var o := Observed(ChannelLists(graphs), ChannelKey, k);
      ListedAreObserved(ChannelLists(graphs), ChannelKey, a, k);
      ListedAreObserved(ChannelLists(graphs), ChannelKey, b, k);
      SameEmptiness(At(ChannelKey, s, k), At(ChannelKey, t, k), o);
      if At(ChannelKey, s, k) != [] {
        ChannelFoldSettled(o, At(ChannelKey, s, k), At(ChannelKey, t, k));
      }
    }
    CollectEqual(ChannelKey, MergeChannels, s, t);
  }

  /** A plainer sufficient condition: records of one key with equal timestamps are
      equal in content, and the endpoints and present capacities of a channel agree. */
  ghost predicate Consistent(graphs: Graphs) {
    && (forall k :: ConsistentNodes(Observed(NodeLists(graphs), NodeKey, k)))
    && (forall k :: ConsistentChannels(Observed(ChannelLists(graphs), ChannelKey, k)))
  }

  ghost predicate ConsistentNodes(s: set<GossipNodeInfo>) {
    forall x, y :: x in s && y in s && NodeStamp(x) == NodeStamp(y) ==> x == y
  }

  ghost predicate ConsistentChannels(s: set<ChannelInfo>) {
    forall x, y :: x in s && y in s ==>
      && x.nodeOne == y.nodeOne && x.nodeTwo == y.nodeTwo
      && (x.capacitySats.Some? && y.capacitySats.Some? ==> x.capacitySats == y.capacitySats)
      && (forall side :: DirStamp(Dir(x, side)) == DirStamp(Dir(y, side)) ==> Dir(x, side) == Dir(y, side))
  }

  lemma ConsistentImpliesOrderIndependent(graphs: Graphs)
    requires Consistent(graphs)
    ensures OrderIndependent(graphs)
  {
    forall k ensures ChannelSettled(Observed(ChannelLists(graphs), ChannelKey, k)) {
      assert ConsistentChannels(Observed(ChannelLists(graphs), ChannelKey, k));
    }
    forall k ensures NodeSettled(Observed(NodeLists(graphs), NodeKey, k)) {
      assert ConsistentNodes(Observed(NodeLists(graphs), NodeKey, k));
    }
    UnambiguousImpliesOrderIndependent(graphs);
  }
}
