/**
 Exactly when the combined graph does not depend on the order in which the collectors
 are visited, for all uploads, including those that list a key several times.
 */
module OrderIndependence {
  import opened Prelude
  import opened GossipTypes
  import opened KeyedFold
  import opened GraphMerge
  import opened CapacityOrder
  import opened GraphOrder

  // ----- What the order decides: nodes

  /** The combined entry of a key is the fold of the collectors' own records of it. */
  lemma CombinedByOwner(graphs: Graphs, order: seq<string>, node: PublicKey, channel: Scid)
    requires Enumerates(order, graphs.Keys)
    ensures var own := OwnRecords(NodeLists(graphs), NodeKey, node);
            && own.Keys == graphs.Keys
            && (node in CombinedNodes(graphs, order) <==> Listing(own, order) != [])
            && (node in CombinedNodes(graphs, order) ==>
                  CombinedNodes(graphs, order)[node] == Fold(KeepNewer, Listing(own, order)))
    ensures var own := OwnRecords(ChannelLists(graphs), ChannelKey, channel);
            && own.Keys == graphs.Keys
            && (channel in CombinedChannels(graphs, order) <==> Listing(own, order) != [])
            && (channel in CombinedChannels(graphs, order) ==>
                  CombinedChannels(graphs, order)[channel] == Fold(MergeChannels, Listing(own, order)))
  {
    ListedByOwner(NodeLists(graphs), NodeKey, order, node);
    ListedByOwner(ChannelLists(graphs), ChannelKey, order, channel);
    CollectRefinesFold(NodeKey, KeepNewer, Listing(NodeLists(graphs), order), node);
    CollectRefinesFold(ChannelKey, MergeChannels, Listing(ChannelLists(graphs), order), channel);
  }

  /** Node merge associates: a fold can be taken upload by upload. */
  lemma {:induction false} NodeFoldConcat(a: seq<GossipNodeInfo>, b: seq<GossipNodeInfo>)
    requires a != [] && b != []
    ensures Fold(KeepNewer, a + b) == KeepNewer(Fold(KeepNewer, a), Fold(KeepNewer, b))
  {
    var n := |b| - 1;
    assert a + b == (a + b[..n]) + [b[n]];
    FoldSnoc(KeepNewer, a + b[..n], b[n]);
    if n == 0 {
      assert a + b[..n] == a;
    } else {
      NodeFoldConcat(a, b[..n]);
    }
  }

  type NodeRecords = map<string, seq<GossipNodeInfo>>

  /** Among the collectors listing a node, `u` folds its records to a newest one. */
  ghost predicate NewestNodeOwner(own: NodeRecords, u: string) {
    && u in own && own[u] != []
    && forall v :: v in own && own[v] != [] ==> NodeStamp(Fold(KeepNewer, own[v])) <= NodeStamp(Fold(KeepNewer, own[u]))
  }

  /** The fold of some uploads is one upload's own, and no older than any of them. */
  lemma {:induction false} NodeFoldOwner(own: NodeRecords, order: seq<string>) returns (u: string)
    requires (forall v :: v in order ==> v in own) && Listing(own, order) != []
    ensures u in order && own[u] != [] && Fold(KeepNewer, Listing(own, order)) == Fold(KeepNewer, own[u])
    ensures forall v :: v in order && own[v] != [] ==>
            NodeStamp(Fold(KeepNewer, own[v])) <= NodeStamp(Fold(KeepNewer, own[u]))
  {
    var n := |order| - 1;
    var before, last := Listing(own, order[..n]), own[order[n]];
    assert order == order[..n] + [order[n]];
    if before == [] {
      u := order[n];
      assert before + last == last;
      forall v | v in order[..n] ensures own[v] == [] {
        NothingListed(own, order[..n], v);
      }
    } else {
      u := NodeFoldOwner(own, order[..n]);
      if last == [] {
        assert before + last == before;
      } else {
        NodeFoldConcat(before, last);
        if Fold(KeepNewer, last).IsNewer(Fold(KeepNewer, before)) {
          u := order[n];
        }
      }
    }
  }

  lemma {:induction false} NothingListed<T>(own: map<string, seq<T>>, order: seq<string>, v: string)
    requires (forall u :: u in order ==> u in own) && Listing(own, order) == [] && v in order
    ensures own[v] == []
  {
    var n := |order| - 1;
    assert order == order[..n] + [order[n]];
    if v != order[n] {
      NothingListed(own, order[..n], v);
    }
  }

  lemma OrdersAround(keys: set<string>, u: string) returns (rest: seq<string>)
    requires u in keys
    ensures Enumerates(rest, keys - {u})
    ensures Enumerates([u] + rest, keys) && Enumerates(rest + [u], keys)
  {
    rest := EnumerationExists(keys - {u});
    var a, b := [u] + rest, rest + [u];
    forall x | x in keys ensures x in a && x in b {
      if x != u { assert x in rest; }
    }
  }

  /** Visited first, a newest owner's record is the result. */
  lemma NodeVisitedFirstWins(own: NodeRecords, u: string) returns (order: seq<string>)
    requires NewestNodeOwner(own, u)
    ensures Enumerates(order, own.Keys) && Listing(own, order) != []
    ensures Fold(KeepNewer, Listing(own, order)) == Fold(KeepNewer, own[u])
  {
    var rest := OrdersAround(own.Keys, u);
    order := [u] + rest;
    ListingConcat(own, [u], rest);
    ListingOne(own, u);
    var later := Listing(own, rest);
    if later == [] {
      assert own[u] + later == own[u];
    } else {
      NodeFoldConcat(own[u], later);
      var v := NodeFoldOwner(own, rest);
    }
  }

  /** All orders fold the records of a node alike. */
  ghost predicate NodeOrderFree(own: NodeRecords) {
    forall a, b :: Enumerates(a, own.Keys) && Enumerates(b, own.Keys) ==> SameNodeFold(own, a, b)
  }

  ghost predicate SameNodeFold(own: NodeRecords, a: seq<string>, b: seq<string>)
    requires Enumerates(a, own.Keys) && Enumerates(b, own.Keys)
  {
    Listing(own, a) != [] && Listing(own, b) != [] ==>
      Fold(KeepNewer, Listing(own, a)) == Fold(KeepNewer, Listing(own, b))
  }

  ghost predicate NodeOwnersAgree(own: NodeRecords) {
    forall u, v :: NewestNodeOwner(own, u) && NewestNodeOwner(own, v) ==>
        Fold(KeepNewer, own[u]) == Fold(KeepNewer, own[v])
  }

  lemma NodeOrderFreeIff(own: NodeRecords)
    ensures NodeOrderFree(own) <==> NodeOwnersAgree(own)
  {
    if NodeOrderFree(own) {
      forall u, v | NewestNodeOwner(own, u) && NewestNodeOwner(own, v)
        ensures Fold(KeepNewer, own[u]) == Fold(KeepNewer, own[v])
      {
        var a := NodeVisitedFirstWins(own, u);
        var b := NodeVisitedFirstWins(own, v);
        assert SameNodeFold(own, a, b);
      }
    }
    if NodeOwnersAgree(own) {
      forall a, b | Enumerates(a, own.Keys) && Enumerates(b, own.Keys) ensures SameNodeFold(own, a, b) {
        if Listing(own, a) != [] && Listing(own, b) != [] {
          var u := NodeFoldOwner(own, a);
          var v := NodeFoldOwner(own, b);
          assert NewestNodeOwner(own, u) && NewestNodeOwner(own, v);
        }
      }
    }
  }

  // ----- What the order decides: channels

  function OwnChannel(own: Records, u: string): ChannelInfo
    requires u in own && own[u] != []
  {
    Fold(MergeChannels, own[u])
  }

  /** Up to the capacity, channel merge associates too. */
  lemma {:induction false} ChannelFoldConcat(a: seq<ChannelInfo>, b: seq<ChannelInfo>, side: Side)
    requires a != [] && b != []
    ensures var r, p, q := Fold(MergeChannels, a + b), Fold(MergeChannels, a), Fold(MergeChannels, b);
            && r.scid == p.scid && r.nodeOne == p.nodeOne && r.nodeTwo == p.nodeTwo
            && Dir(r, side) == MergeDirections(Dir(p, side), Dir(q, side))
  {
    var n := |b| - 1;
    assert a + b == (a + b[..n]) + [b[n]];
    FoldSnoc(MergeChannels, a + b[..n], b[n]);
    if n == 0 {
      assert a + b[..n] == a;
    } else {
      ChannelFoldConcat(a, b[..n], side);
      DirectionMergeMonoid(Dir(Fold(MergeChannels, a), side), Dir(Fold(MergeChannels, b[..n]), side), Dir(b[n], side));
    }
  }

  /** Among the collectors listing a channel, `u` folds a direction to a newest one. */
  ghost predicate NewestDirOwner(own: Records, u: string, side: Side) {
    && u in own && own[u] != []
    && forall v :: v in own && own[v] != [] ==>
        DirStamp(Dir(OwnChannel(own, v), side)) <= DirStamp(Dir(OwnChannel(own, u), side))
  }

  /** A folded direction is one upload's own, and no older than any. */
  lemma {:induction false} DirFoldOwner(own: Records, order: seq<string>, side: Side) returns (u: string)
    requires (forall v :: v in order ==> v in own) && Listing(own, order) != []
    ensures u in order && own[u] != []
            && Dir(Fold(MergeChannels, Listing(own, order)), side) == Dir(OwnChannel(own, u), side)
    ensures forall v :: v in order && own[v] != [] ==>
            DirStamp(Dir(OwnChannel(own, v), side)) <= DirStamp(Dir(OwnChannel(own, u), side))
  {
    var n := |order| - 1;
    var before, last := Listing(own, order[..n]), own[order[n]];
    assert order == order[..n] + [order[n]];
    if before == [] {
      u := order[n];
      assert before + last == last;
      forall v | v in order[..n] ensures own[v] == [] {
        NothingListed(own, order[..n], v);
      }
    } else {
      u := DirFoldOwner(own, order[..n], side);
      if last == [] {
        assert before + last == before;
      } else {
        ChannelFoldConcat(before, last, side);
        if DirStamp(Dir(OwnChannel(own, u), side)) <= DirStamp(Dir(OwnChannel(own, order[n]), side)) {
          u := order[n];
        }
      }
    }
  }

  /** Visited last, a newest owner's direction is the result. */
  lemma DirectionVisitedLastWins(own: Records, u: string, side: Side) returns (order: seq<string>)
    requires NewestDirOwner(own, u, side)
    ensures Enumerates(order, own.Keys) && Listing(own, order) != []
    ensures Dir(Fold(MergeChannels, Listing(own, order)), side) == Dir(OwnChannel(own, u), side)
  {
    var rest := OrdersAround(own.Keys, u);
    order := rest + [u];
    ListingConcat(own, rest, [u]);
    ListingOne(own, u);
    var earlier := Listing(own, rest);
    if earlier == [] {
      assert earlier + own[u] == own[u];
    } else {
      ChannelFoldConcat(earlier, own[u], side);
      var v := DirFoldOwner(own, rest, side);
    }
  }

  /** Visited first, an upload gives its endpoints. */
  lemma EndpointsVisitedFirstWin(own: Records, u: string) returns (order: seq<string>)
    requires u in own && own[u] != []
    ensures Enumerates(order, own.Keys) && Listing(own, order) != []
    ensures SameEndpoints(Fold(MergeChannels, Listing(own, order)), OwnChannel(own, u))
  {
    var rest := OrdersAround(own.Keys, u);
    order := [u] + rest;
    ListingConcat(own, [u], rest);
    ListingOne(own, u);
    ChannelFoldHeader(own[u]);
    ChannelFoldHeader(Listing(own, order));
  }

  predicate SameEndpoints(a: ChannelInfo, b: ChannelInfo) {
    a.scid == b.scid && a.nodeOne == b.nodeOne && a.nodeTwo == b.nodeTwo
  }

  lemma {:induction false} EndpointsOwner(own: Records, order: seq<string>) returns (u: string)
    requires (forall v :: v in order ==> v in own) && Listing(own, order) != []
    ensures u in order && own[u] != [] && SameEndpoints(Fold(MergeChannels, Listing(own, order)), OwnChannel(own, u))
  {
    var n := |order| - 1;
    var before, last := Listing(own, order[..n]), own[order[n]];
    assert order == order[..n] + [order[n]];
    if before == [] {
      u := order[n];
      assert before + last == last;
    } else {
      u := EndpointsOwner(own, order[..n]);
      ChannelFoldHeader(before);
      ChannelFoldHeader(before + last);
    }
  }

  /** All orders fold the records of a channel alike. */
  ghost predicate ChannelOrderFree(own: Records) {
    forall a, b :: Enumerates(a, own.Keys) && Enumerates(b, own.Keys) ==> SameChannelFold(own, a, b)
  }

  ghost predicate SameChannelFold(own: Records, a: seq<string>, b: seq<string>)
    requires Enumerates(a, own.Keys) && Enumerates(b, own.Keys)
  {
    Listing(own, a) != [] && Listing(own, b) != [] ==>
      Fold(MergeChannels, Listing(own, a)) == Fold(MergeChannels, Listing(own, b))
  }

  /** The owners agree on the endpoints, the newest on each direction, and only one
      capacity is possible. */
  ghost predicate ChannelOwnersAgree(own: Records) {
    && (forall u, v :: u in own && own[u] != [] && v in own && own[v] != [] ==>
          SameEndpoints(OwnChannel(own, u), OwnChannel(own, v)))
    && (forall side, u, v :: NewestDirOwner(own, u, side) && NewestDirOwner(own, v, side) ==>
          Dir(OwnChannel(own, u), side) == Dir(OwnChannel(own, v), side))
    && (forall c, d :: Possible(own, c) && Possible(own, d) ==> c == d)
  }

  /** Every order sees the same records. */
  lemma SameRecordsListed<T(!new)>(own: map<string, seq<T>>, a: seq<string>, b: seq<string>, x: T)
    requires Enumerates(a, own.Keys) && Enumerates(b, own.Keys)
    ensures x in Listing(own, a) <==> x in Listing(own, b)
  {
    ListingMember(own, a, x);
    ListingMember(own, b, x);
  }

  lemma SameStampListed(own: Records, a: seq<string>, b: seq<string>)
    requires Enumerates(a, own.Keys) && Enumerates(b, own.Keys)
    requires Listing(own, a) != [] && Listing(own, b) != []
    ensures var p, q := Fold(MergeChannels, Listing(own, a)), Fold(MergeChannels, Listing(own, b));
            p.lastUpdate == q.lastUpdate && (p.capacitySats.None? <==> q.capacitySats.None?)
  {
    var s, t := Listing(own, a), Listing(own, b);
    ChannelFoldHeader(s);
    ChannelFoldHeader(t);
    var p, q := Fold(MergeChannels, s), Fold(MergeChannels, t);
    forall x ensures x in s <==> x in t {
      SameRecordsListed(own, a, b, x);
    }
    assert ChannelStamp(p) == ChannelStamp(q) by {
      var i :| 0 <= i < |s| && ChannelStamp(s[i]) == ChannelStamp(p);
      var j :| 0 <= j < |t| && ChannelStamp(t[j]) == ChannelStamp(q);
      assert s[i] in t && t[j] in s;
    }
    if p.capacitySats.None? {
      forall j | 0 <= j < |t| ensures t[j].capacitySats.None? {
        assert t[j] in s;
      }
    } else if q.capacitySats.None? {
      forall j | 0 <= j < |s| ensures s[j].capacitySats.None? {
        assert s[j] in t;
      }
    }
  }

  lemma AgreeingOwnersFoldAlike(own: Records, a: seq<string>, b: seq<string>)
    requires ChannelOwnersAgree(own)
    requires Enumerates(a, own.Keys) && Enumerates(b, own.Keys)
    ensures SameChannelFold(own, a, b)
  {
    if Listing(own, a) != [] && Listing(own, b) != [] {
      var p, q := Fold(MergeChannels, Listing(own, a)), Fold(MergeChannels, Listing(own, b));
      SameStampListed(own, a, b);
      var u := EndpointsOwner(own, a);
      var v := EndpointsOwner(own, b);
      assert SameEndpoints(OwnChannel(own, u), OwnChannel(own, v));
      forall side ensures Dir(p, side) == Dir(q, side) {
        var x := DirFoldOwner(own, a, side);
        var y := DirFoldOwner(own, b, side);
        assert NewestDirOwner(own, x, side) && NewestDirOwner(own, y, side);
      }
      assert Dir(p, OneToTwo) == Dir(q, OneToTwo) && Dir(p, TwoToOne) == Dir(q, TwoToOne);
      if p.capacitySats.Some? {
        OutcomeIsPossible(own, a, p.capacitySats.value);
        OutcomeIsPossible(own, b, q.capacitySats.value);
      }
    }
  }

  lemma OrderFreeOwnersAgree(own: Records)
    requires ChannelOrderFree(own)
    ensures ChannelOwnersAgree(own)
  {
    forall u, v | u in own && own[u] != [] && v in own && own[v] != []
      ensures SameEndpoints(OwnChannel(own, u), OwnChannel(own, v))
    {
      var a := EndpointsVisitedFirstWin(own, u);
      var b := EndpointsVisitedFirstWin(own, v);
      assert SameChannelFold(own, a, b);
    }
    forall side, u, v | NewestDirOwner(own, u, side) && NewestDirOwner(own, v, side)
      ensures Dir(OwnChannel(own, u), side) == Dir(OwnChannel(own, v), side)
    {
      var a := DirectionVisitedLastWins(own, u, side);
      var b := DirectionVisitedLastWins(own, v, side);
      assert SameChannelFold(own, a, b);
    }
    forall c: nat, d: nat | Possible(own, c) && Possible(own, d) ensures c == d {
      OneCapacityLeft(own, c, d);
    }
  }

  lemma OneCapacityLeft(own: Records, c: nat, d: nat)
    requires ChannelOrderFree(own)
    ensures Possible(own, c) && Possible(own, d) ==> c == d
  {
    LeftIffPossible(own, c);
    LeftIffPossible(own, d);
    hide Possible;
    if Possible(own, c) && Possible(own, d) {
      var a :| Enumerates(a, own.Keys) && CapacityOf(Listing(own, a)) == Some(c);
      var b :| Enumerates(b, own.Keys) && CapacityOf(Listing(own, b)) == Some(d);
      assert SameChannelFold(own, a, b);
    }
  }

  lemma ChannelOrderFreeIff(own: Records)
    ensures ChannelOrderFree(own) <==> ChannelOwnersAgree(own)
  {
    if ChannelOrderFree(own) {
      OrderFreeOwnersAgree(own);
    }
    if ChannelOwnersAgree(own) {
      forall a, b | Enumerates(a, own.Keys) && Enumerates(b, own.Keys) ensures SameChannelFold(own, a, b) {
        AgreeingOwnersFoldAlike(own, a, b);
      }
    }
  }

  // ----- The exact condition

  ghost function NodesOf(graphs: Graphs, k: PublicKey): NodeRecords {
    OwnRecords(NodeLists(graphs), NodeKey, k)
  }

  ghost function ChannelsOf(graphs: Graphs, k: Scid): Records {
    OwnRecords(ChannelLists(graphs), ChannelKey, k)
  }

  /** For every key, the uploads listing it agree on all that the order could decide. */
  ghost predicate UploadsAgree(graphs: Graphs) {
    && (forall k :: NodeOwnersAgree(NodesOf(graphs, k)))
    && (forall k :: ChannelOwnersAgree(ChannelsOf(graphs, k)))
  }

  lemma SameEntries<T(!new)>(own: map<string, seq<T>>, a: seq<string>, b: seq<string>)
    requires Enumerates(a, own.Keys) && Enumerates(b, own.Keys)
    ensures Listing(own, a) == [] <==> Listing(own, b) == []
  {
    if Listing(own, a) != [] {
      SameRecordsListed(own, a, b, Listing(own, a)[0]);
    }
    if Listing(own, b) != [] {
      SameRecordsListed(own, a, b, Listing(own, b)[0]);
    }
  }

  lemma AgreementSuffices(graphs: Graphs, a: seq<string>, b: seq<string>)
    requires UploadsAgree(graphs)
    requires Enumerates(a, graphs.Keys) && Enumerates(b, graphs.Keys)
    ensures CombinedNodes(graphs, a) == CombinedNodes(graphs, b)
    ensures CombinedChannels(graphs, a) == CombinedChannels(graphs, b)
  {
    var m, n := CombinedNodes(graphs, a), CombinedNodes(graphs, b);
    forall k ensures k in m <==> k in n ensures k in m && k in n ==> m[k] == n[k] {
      CombinedByOwner(graphs, a, k, 0);
      CombinedByOwner(graphs, b, k, 0);
      SameEntries(NodesOf(graphs, k), a, b);
      NodeOrderFreeIff(NodesOf(graphs, k));
      assert SameNodeFold(NodesOf(graphs, k), a, b);
    }
    var p, q := CombinedChannels(graphs, a), CombinedChannels(graphs, b);
    forall k ensures k in p <==> k in q ensures k in p && k in q ==> p[k] == q[k] {
      CombinedByOwner(graphs, a, "", k);
      CombinedByOwner(graphs, b, "", k);
      SameEntries(ChannelsOf(graphs, k), a, b);
      AgreeingOwnersFoldAlike(ChannelsOf(graphs, k), a, b);
    }
  }

  lemma AgreementNeeded(graphs: Graphs)
    requires OrderIndependent(graphs)
    ensures UploadsAgree(graphs)
  {
    forall k ensures NodeOwnersAgree(NodesOf(graphs, k)) {
      var own := NodesOf(graphs, k);
      forall a, b | Enumerates(a, own.Keys) && Enumerates(b, own.Keys) ensures SameNodeFold(own, a, b) {
        assert own.Keys == graphs.Keys;
        CombinedByOwner(graphs, a, k, 0);
        CombinedByOwner(graphs, b, k, 0);
        assert CombinedNodes(graphs, a) == CombinedNodes(graphs, b);
      }
      NodeOrderFreeIff(own);
    }
    forall k ensures ChannelOwnersAgree(ChannelsOf(graphs, k)) {
      var own := ChannelsOf(graphs, k);
      forall a, b | Enumerates(a, own.Keys) && Enumerates(b, own.Keys) ensures SameChannelFold(own, a, b) {
        assert own.Keys == graphs.Keys;
        CombinedByOwner(graphs, a, "", k);
        CombinedByOwner(graphs, b, "", k);
        assert CombinedChannels(graphs, a) == CombinedChannels(graphs, b);
      }
      OrderFreeOwnersAgree(own);
    }
  }

  /** The exact condition, for all uploads: the combined graph is the same for every
      visiting order if and only if the uploads agree. */
  lemma OrderIndependentIff(graphs: Graphs)
    ensures OrderIndependent(graphs) <==> UploadsAgree(graphs)
  {
    if OrderIndependent(graphs) {
      AgreementNeeded(graphs);
    }
    if UploadsAgree(graphs) {
      forall a, b | Enumerates(a, graphs.Keys) && Enumerates(b, graphs.Keys)
        ensures CombinedNodes(graphs, a) == CombinedNodes(graphs, b)
        ensures CombinedChannels(graphs, a) == CombinedChannels(graphs, b)
      {
        AgreementSuffices(graphs, a, b);
      }
    }
  }

  // ----- Uploads that list a key once

  /** No single collector lists the same key twice. */
  ghost predicate KeysOnce<T, K>(lists: map<string, seq<T>>, key: T -> K) {
    forall u, i, j :: u in lists && 0 <= i < j < |lists[u]| ==> key(lists[u][i]) != key(lists[u][j])
  }

  lemma {:induction false} SoleRecord<T(!new), K(!new)>(key: T -> K, s: seq<T>, k: K)
    requires forall i, j :: 0 <= i < j < |s| ==> key(s[i]) != key(s[j])
    ensures |At(key, s, k)| <= 1
  {
    if s != [] {
      var n := |s| - 1;
      SoleRecord(key, s[..n], k);
      if key(s[n]) == k && At(key, s[..n], k) != [] {
        var y := At(key, s[..n], k)[0];
        AtMember(key, s[..n], k, y);
        assert false;
      }
    }
  }

  /** Then the own records of a key are its observations, one per collector. */
  lemma OwnedOnce<T(!new), K(!new)>(lists: map<string, seq<T>>, key: T -> K, k: K)
    requires KeysOnce(lists, key)
    ensures var own := OwnRecords(lists, key, k);
            && (forall u :: u in own && own[u] != [] ==> |own[u]| == 1 && own[u][0] in Observed(lists, key, k))
            && (forall x :: x in Observed(lists, key, k) ==> exists u :: u in own && own[u] == [x])
  {
    var own := OwnRecords(lists, key, k);
    hide At;
    forall u | u in own
      ensures |own[u]| <= 1
      ensures forall x :: x in own[u] <==> x in lists[u] && key(x) == k
    {
      SoleRecord(key, lists[u], k);
      forall x ensures x in own[u] <==> x in lists[u] && key(x) == k {
        AtMember(key, lists[u], k, x);
      }
    }
    forall u | u in own && own[u] != [] ensures own[u][0] in Observed(lists, key, k) {
      assert own[u][0] in own[u];
    }
    forall x | x in Observed(lists, key, k) ensures exists u :: u in own && own[u] == [x] {
      var u :| u in lists && x in lists[u];
      assert x in own[u];
    }
  }

  lemma NodeOwnersOnce(graphs: Graphs, k: PublicKey)
    requires KeysOnce(NodeLists(graphs), NodeKey) && NodeOwnersAgree(NodesOf(graphs, k))
    ensures NodeSettled(Observed(NodeLists(graphs), NodeKey, k))
  {
    var own, s := NodesOf(graphs, k), Observed(NodeLists(graphs), NodeKey, k);
    OwnedOnce(NodeLists(graphs), NodeKey, k);
    forall x, y | TopNode(s, x) && TopNode(s, y) ensures x == y {
      var u :| u in own && own[u] == [x];
      var v :| v in own && own[v] == [y];
      assert NewestNodeOwner(own, u) && NewestNodeOwner(own, v);
    }
  }

  lemma OneRecord(x: ChannelInfo)
    ensures CapacityOf([x]) == x.capacitySats && Top([x]) == ChannelStamp(x)
    ensures DecisiveStamp([x]) == if x.capacitySats.Some? then ChannelStamp(x) else BELOW_ALL
  {
    assert [x][..0] == [];
    assert Decisive([]) == None;
  }

  /** A contender among single records is a possible capacity. */
  lemma ContenderPossible(own: Records, s: set<ChannelInfo>, x: ChannelInfo)
    requires forall u :: u in own && own[u] != [] ==> |own[u]| == 1 && own[u][0] in s
    requires forall z :: z in s ==> exists u :: u in own && own[u] == [z]
    requires Contender(s, x)
    ensures Possible(own, x.capacitySats.value)
  {
    var u :| u in own && own[u] == [x];
    OneRecord(x);
    forall w | w in own && DecisiveStamp(own[w]) > BELOW_ALL
      ensures exists z :: z in s && z.capacitySats.Some? && DecisiveStamp(own[w]) == ChannelStamp(z)
    {
      assert own[w] == [own[w][0]];
      OneRecord(own[w][0]);
    }
    forall t | t >= ChannelStamp(x) ensures CanPass(own, t) {
      if !CoversCapacities(s, x) {
        var n :| CoversCapacities(s, n) && n.capacitySats.None?;
        var v :| v in own && own[v] == [n];
        OneRecord(n);
      }
    }
    assert OwnKept(own, u);
  }

  lemma ChannelOwnersOnce(graphs: Graphs, k: Scid)
    requires KeysOnce(ChannelLists(graphs), ChannelKey) && ChannelOwnersAgree(ChannelsOf(graphs, k))
    ensures ChannelSettled(Observed(ChannelLists(graphs), ChannelKey, k))
  {
    var own, s := ChannelsOf(graphs, k), Observed(ChannelLists(graphs), ChannelKey, k);
    OwnedOnce(ChannelLists(graphs), ChannelKey, k);
    forall x, y | x in s && y in s ensures x.nodeOne == y.nodeOne && x.nodeTwo == y.nodeTwo {
      var u :| u in own && own[u] == [x];
      var v :| v in own && own[v] == [y];
      assert SameEndpoints(OwnChannel(own, u), OwnChannel(own, v));
    }
    forall side, x, y | TopDir(s, x, side) && TopDir(s, y, side) ensures Dir(x, side) == Dir(y, side) {
      var u :| u in own && own[u] == [x];
      var v :| v in own && own[v] == [y];
      assert NewestDirOwner(own, u, side) && NewestDirOwner(own, v, side);
    }
    forall x, y | Contender(s, x) && Contender(s, y) ensures x.capacitySats == y.capacitySats {
      ContenderPossible(own, s, x);
      ContenderPossible(own, s, y);
    }
  }

  /** When no collector lists a key twice, the condition comes down to the one on single
      records. */
  lemma ListedOnceIff(graphs: Graphs)
    requires KeysOnce(NodeLists(graphs), NodeKey) && KeysOnce(ChannelLists(graphs), ChannelKey)
    ensures UploadsAgree(graphs) <==> Unambiguous(graphs)
  {
    if UploadsAgree(graphs) {
      forall k ensures NodeSettled(Observed(NodeLists(graphs), NodeKey, k)) {
        NodeOwnersOnce(graphs, k);
      }
      forall k ensures ChannelSettled(Observed(ChannelLists(graphs), ChannelKey, k)) {
        ChannelOwnersOnce(graphs, k);
      }
    }
    if Unambiguous(graphs) {
      UnambiguousImpliesOrderIndependent(graphs);
      OrderIndependentIff(graphs);
    }
  }
}
