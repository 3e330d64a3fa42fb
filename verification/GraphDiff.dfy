/**
 compute_graph_differences: the combined view of all uploads and, per collector,
 ten counters describing how its own view differs from it
 (observer_controller/src/collector_manager.rs).
 */
module GraphDiff {
  import opened Prelude
  import opened GossipTypes
  import opened KeyedFold
  import opened GraphMerge
  import opened GraphOrder

  type NodeMap = map<PublicKey, GossipNodeInfo>

  type ChannelMap = map<Scid, ChannelInfo>

  datatype Diff =
    Diff(
      knownNodes: nat,
      missingNodes: nat,
      matchingNodeInfo: nat,
      missingNodeInfo: nat,
      staleNodeInfo: nat,
      knownChannels: nat,
      missingChannels: nat,
      matchingDirection: nat,
      missingDirection: nat,
      staleDirection: nat)

  const NoDiff := Diff(0, 0, 0, 0, 0, 0, 0, 0, 0, 0)

  datatype FullGraphDiff =
    FullGraphDiff(diffs: map<string, Diff>, graphs: Graphs, controllerGraph: CollectorGraph)

  /** Building a map from an iterator keeps the last value of a repeated key. */
  function LastNode(current: GossipNodeInfo, next: GossipNodeInfo): GossipNodeInfo { next }

  function LastChannel(current: ChannelInfo, next: ChannelInfo): ChannelInfo { next }

  function NodeView(graph: CollectorGraph): NodeMap {
    Collect(NodeKey, LastNode, graph.nodes)
  }

  function ChannelView(graph: CollectorGraph): ChannelMap {
    Collect(ChannelKey, LastChannel, graph.channels)
  }

  /** `i` is where a list of nodes has its last record of a key. */
  ghost predicate LastNodeAt(list: seq<GossipNodeInfo>, k: PublicKey, i: int) {
    0 <= i < |list| && list[i].pubkey == k && forall j :: i < j < |list| ==> list[j].pubkey != k
  }

  ghost predicate LastChannelAt(list: seq<ChannelInfo>, k: Scid, i: int) {
    0 <= i < |list| && list[i].scid == k && forall j :: i < j < |list| ==> list[j].scid != k
  }

  /** A collector's view has the nodes it lists, each as its last record of it. */
  lemma NodeViewIsLast(graph: CollectorGraph, k: PublicKey)
    ensures k in NodeView(graph) <==> exists i :: 0 <= i < |graph.nodes| && graph.nodes[i].pubkey == k
    ensures k in NodeView(graph) ==> exists i :: LastNodeAt(graph.nodes, k, i)
    ensures forall i :: LastNodeAt(graph.nodes, k, i) ==> k in NodeView(graph) && NodeView(graph)[k] == graph.nodes[i]
  {
    CollectDomain(NodeKey, LastNode, graph.nodes, k);
    if k in NodeView(graph) {
      var i := LastListed(NodeKey, graph.nodes, k);
      assert LastNodeAt(graph.nodes, k, i);
    }
    forall i | LastNodeAt(graph.nodes, k, i) ensures k in NodeView(graph) && NodeView(graph)[k] == graph.nodes[i] {
      CollectLast(NodeKey, LastNode, graph.nodes, i);
    }
  }

  /** The same for channels. */
  lemma ChannelViewIsLast(graph: CollectorGraph, k: Scid)
    ensures k in ChannelView(graph) <==> exists i :: 0 <= i < |graph.channels| && graph.channels[i].scid == k
    ensures k in ChannelView(graph) ==> exists i :: LastChannelAt(graph.channels, k, i)
    ensures forall i :: LastChannelAt(graph.channels, k, i) ==>
              k in ChannelView(graph) && ChannelView(graph)[k] == graph.channels[i]
  {
    CollectDomain(ChannelKey, LastChannel, graph.channels, k);
    if k in ChannelView(graph) {
      var i := LastListed(ChannelKey, graph.channels, k);
      assert LastChannelAt(graph.channels, k, i);
    }
    forall i | LastChannelAt(graph.channels, k, i)
      ensures k in ChannelView(graph) && ChannelView(graph)[k] == graph.channels[i]
    {
      CollectLast(ChannelKey, LastChannel, graph.channels, i);
    }
  }

  lemma {:induction false} LastListed<T(!new), K(!new)>(key: T -> K, s: seq<T>, k: K) returns (i: nat)
    requires exists j :: 0 <= j < |s| && key(s[j]) == k
    ensures i < |s| && key(s[i]) == k && forall j :: i < j < |s| ==> key(s[j]) != k
  {
    var n := |s| - 1;
    if key(s[n]) == k {
      i := n;
    } else {
      var j :| 0 <= j < |s| && key(s[j]) == k;
      assert key(s[..n][j]) == k;
      i := LastListed(key, s[..n], k);
      forall m | i < m < |s| ensures key(s[m]) != k {
        if m < n {
          assert s[..n][m] == s[m];
        }
      }
    }
  }

  // ----- What the counters count

  ghost function Known<K, A, B>(all: map<K, A>, view: map<K, B>): set<K> {
    all.Keys * view.Keys
  }

  ghost function Unknown<K, A, B>(all: map<K, A>, view: map<K, B>): set<K> {
    all.Keys - view.Keys
  }

  ghost predicate NodeInfoAgrees(a: Option<NodeAnnouncementInfo>, b: Option<NodeAnnouncementInfo>) {
    if a.Some? && b.Some? then a.value.SameInfo(b.value) else a.None? && b.None?
  }

  ghost predicate DirectionAgrees(a: Option<DirectionInfo>, b: Option<DirectionInfo>) {
    if a.Some? && b.Some? then a.value.SameInfo(b.value) else a.None? && b.None?
  }

  ghost function MatchingInfo(all: NodeMap, view: NodeMap): set<PublicKey> {
    set k | k in all && k in view && NodeInfoAgrees(all[k].info, view[k].info)
  }

  ghost function MissingInfo(all: NodeMap, view: NodeMap): set<PublicKey> {
    set k | k in all && (k in view ==> all[k].info.Some? && view[k].info.None?)
  }

  ghost function StaleInfo(all: NodeMap, view: NodeMap): set<PublicKey> {
    set k | k in all && k in view && all[k].info.Some? && view[k].info.Some?
            && !NodeInfoAgrees(all[k].info, view[k].info)
  }

  ghost function MatchingDirs(all: ChannelMap, view: ChannelMap, side: Side): set<Scid> {
    set k | k in all && k in view && DirectionAgrees(Dir(all[k], side), Dir(view[k], side))
  }

  ghost function MissingDirs(all: ChannelMap, view: ChannelMap, side: Side): set<Scid> {
    set k | k in all && k in view && Dir(all[k], side).Some? && Dir(view[k], side).None?
  }

  ghost function StaleDirs(all: ChannelMap, view: ChannelMap, side: Side): set<Scid> {
    set k | k in all && k in view && Dir(all[k], side).Some? && Dir(view[k], side).Some?
            && !DirectionAgrees(Dir(all[k], side), Dir(view[k], side))
  }

  /** How many of the listed keys are in a set. */
  ghost function Tally<K>(a: set<K>, done: seq<K>): nat {
    if done == [] then 0 else Tally(a, done[..|done| - 1]) + (if done[|done| - 1] in a then 1 else 0)
  }

  /** The node counters after comparing the combined keys in `done`. */
  ghost predicate CountsNodes(d: Diff, all: NodeMap, view: NodeMap, done: seq<PublicKey>) {
    && d.knownNodes == Tally(Known(all, view), done)
    && d.missingNodes == Tally(Unknown(all, view), done)
    && d.matchingNodeInfo == Tally(MatchingInfo(all, view), done)
    && d.missingNodeInfo == Tally(MissingInfo(all, view), done)
    && d.staleNodeInfo == Tally(StaleInfo(all, view), done)
  }

  ghost predicate CountsChannels(d: Diff, all: ChannelMap, view: ChannelMap, done: seq<Scid>) {
    && d.knownChannels == Tally(Known(all, view), done)
    && d.missingChannels == Tally(Unknown(all, view), done)
    && d.matchingDirection
       == Tally(MatchingDirs(all, view, OneToTwo), done) + Tally(MatchingDirs(all, view, TwoToOne), done)
    && d.missingDirection
       == Tally(MissingDirs(all, view, OneToTwo), done) + Tally(MissingDirs(all, view, TwoToOne), done)
    && d.staleDirection == Tally(StaleDirs(all, view, OneToTwo), done) + Tally(StaleDirs(all, view, TwoToOne), done)
  }

  lemma TallySnoc<K>(a: set<K>, done: seq<K>, k: K)
    ensures Tally(a, done + [k]) == Tally(a, done) + (if k in a then 1 else 0)
  {
    assert (done + [k])[..|done|] == done;
  }

  /** Counting a set along an enumeration of a larger one gives its size. */
  lemma {:induction false} TallyIsSize<K>(a: set<K>, done: seq<K>)
    requires Distinct(done) && forall x :: x in a ==> x in done
    ensures Tally(a, done) == |a|
  {
    if done == [] {
      assert a == {};
    } else {
      var n := |done| - 1;
      TallyIgnores(a, done[..n], done[n]);
      TallyIsSize(a - {done[n]}, done[..n]);
    }
  }

  lemma {:induction false} TallyIgnores<K>(a: set<K>, done: seq<K>, k: K)
    requires k !in done
    ensures Tally(a - {k}, done) == Tally(a, done)
  {
    if done != [] {
      TallyIgnores(a, done[..|done| - 1], k);
    }
  }

  /** The node counters of a finished comparison. */
  ghost predicate NodeCounters(d: Diff, all: NodeMap, view: NodeMap) {
    && d.knownNodes == |Known(all, view)|
    && d.missingNodes == |Unknown(all, view)|
    && d.matchingNodeInfo == |MatchingInfo(all, view)|
    && d.missingNodeInfo == |MissingInfo(all, view)|
    && d.staleNodeInfo == |StaleInfo(all, view)|
  }

  /** The channel counters of a finished comparison: the two directions of a channel
      are counted apart. */
  ghost predicate ChannelCounters(d: Diff, all: ChannelMap, view: ChannelMap) {
    && d.knownChannels == |Known(all, view)|
    && d.missingChannels == |Unknown(all, view)|
    && d.matchingDirection == |MatchingDirs(all, view, OneToTwo)| + |MatchingDirs(all, view, TwoToOne)|
    && d.missingDirection == |MissingDirs(all, view, OneToTwo)| + |MissingDirs(all, view, TwoToOne)|
    && d.staleDirection == |StaleDirs(all, view, OneToTwo)| + |StaleDirs(all, view, TwoToOne)|
  }

  ghost predicate IsDiff(d: Diff, nodes: NodeMap, channels: ChannelMap, graph: CollectorGraph) {
    NodeCounters(d, nodes, NodeView(graph)) && ChannelCounters(d, channels, ChannelView(graph))
  }

  // ----- Second pass

  function One(b: bool): nat { if b then 1 else 0 }

  /** `e` counts one more combined node; `own` is the collector's record of it, if any. */
  ghost predicate CountsOneNode(d: Diff, e: Diff, combined: GossipNodeInfo, own: Option<GossipNodeInfo>) {
    && e.knownNodes == d.knownNodes + One(own.Some?)
    && e.missingNodes == d.missingNodes + One(own.None?)
    && e.matchingNodeInfo == d.matchingNodeInfo + One(own.Some? && NodeInfoAgrees(combined.info, own.value.info))
    && e.missingNodeInfo == d.missingNodeInfo + One(own.None? || (combined.info.Some? && own.value.info.None?))
    && e.staleNodeInfo == d.staleNodeInfo
       + One(own.Some? && combined.info.Some? && own.value.info.Some? && !NodeInfoAgrees(combined.info, own.value.info))
    && SameChannelCounters(d, e)
  }

  ghost predicate CountsOneDirection(d: Diff, e: Diff, combined: Option<DirectionInfo>, own: Option<DirectionInfo>) {
    && e.matchingDirection == d.matchingDirection + One(DirectionAgrees(combined, own))
    && e.missingDirection == d.missingDirection + One(combined.Some? && own.None?)
    && e.staleDirection == d.staleDirection + One(combined.Some? && own.Some? && !DirectionAgrees(combined, own))
    && e.knownChannels == d.knownChannels && e.missingChannels == d.missingChannels
    && SameNodeCounters(d, e)
  }

  ghost predicate SameNodeCounters(d: Diff, e: Diff) {
    && d.knownNodes == e.knownNodes && d.missingNodes == e.missingNodes
    && d.matchingNodeInfo == e.matchingNodeInfo
    && d.missingNodeInfo == e.missingNodeInfo && d.staleNodeInfo == e.staleNodeInfo
  }

  ghost predicate SameChannelCounters(d: Diff, e: Diff) {
    && d.knownChannels == e.knownChannels && d.missingChannels == e.missingChannels
    && d.matchingDirection == e.matchingDirection
    && d.missingDirection == e.missingDirection && d.staleDirection == e.staleDirection
  }

  function Lookup<K, T>(m: map<K, T>, k: K): Option<T> {
    if k in m then Some(m[k]) else None
  }

  /** Which of the counted sets hold a combined key. */
  lemma NodeMembership(all: NodeMap, view: NodeMap, k: PublicKey)
    requires k in all
    ensures k in Known(all, view) <==> k in view
    ensures k in Unknown(all, view) <==> k !in view
    ensures k in MatchingInfo(all, view) <==> k in view && NodeInfoAgrees(all[k].info, view[k].info)
    ensures k in MissingInfo(all, view) <==> k !in view || (all[k].info.Some? && view[k].info.None?)
    ensures k in StaleInfo(all, view) <==>
            k in view && all[k].info.Some? && view[k].info.Some? && !NodeInfoAgrees(all[k].info, view[k].info)
  {
  }

  lemma DirectionMembership(all: ChannelMap, view: ChannelMap, side: Side, k: Scid)
    requires k in all
    ensures k in MatchingDirs(all, view, side) <==> k in view && DirectionAgrees(Dir(all[k], side), Dir(view[k], side))
    ensures k in MissingDirs(all, view, side) <==> k in view && Dir(all[k], side).Some? && Dir(view[k], side).None?
    ensures k in StaleDirs(all, view, side) <==>
            k in view && Dir(all[k], side).Some? && Dir(view[k], side).Some?
            && !DirectionAgrees(Dir(all[k], side), Dir(view[k], side))
  {
  }

  /** One combined node against a collector's record of it.  When only the collector
      has an announcement, the node is counted as known and nothing else. */
  method DiffNode(combined: GossipNodeInfo, own: Option<GossipNodeInfo>, start: Diff) returns (d: Diff)
    ensures CountsOneNode(start, d, combined, own)
  {
    d := start;
    if own.None? {
      d := d.(missingNodes := d.missingNodes + 1, missingNodeInfo := d.missingNodeInfo + 1);
      return;
    }
    d := d.(knownNodes := d.knownNodes + 1);
    match (combined.info, own.value.info) {
      case (None, None) => d := d.(matchingNodeInfo := d.matchingNodeInfo + 1);
      case (None, Some(_)) =>
      case (Some(c), Some(o)) =>
        if c.SameInfo(o) {
          d := d.(matchingNodeInfo := d.matchingNodeInfo + 1);
        } else {
          d := d.(staleNodeInfo := d.staleNodeInfo + 1);
        }
      case (Some(_), None) => d := d.(missingNodeInfo := d.missingNodeInfo + 1);
    }
  }

  /** One direction of a channel both sides know.  A direction only the collector has
      is not counted at all. */
  method DiffDirection(combined: Option<DirectionInfo>, own: Option<DirectionInfo>, start: Diff) returns (d: Diff)
    ensures CountsOneDirection(start, d, combined, own)
  {
    d := start;
    match (combined, own) {
      case (None, None) => d := d.(matchingDirection := d.matchingDirection + 1);
      case (None, Some(_)) =>
      case (Some(_), None) => d := d.(missingDirection := d.missingDirection + 1);
      case (Some(c), Some(o)) =>
        if c.SameInfo(o) {
          d := d.(matchingDirection := d.matchingDirection + 1);
        } else {
          d := d.(staleDirection := d.staleDirection + 1);
        }
    }
  }

  /** Compares one collector's nodes with the combined ones, key by key in any order. */
  method DiffNodes(all: NodeMap, view: NodeMap, start: Diff) returns (d: Diff)
    requires start.knownNodes == start.missingNodes == 0
    requires start.matchingNodeInfo == start.missingNodeInfo == start.staleNodeInfo == 0
    ensures NodeCounters(d, all, view)
    ensures SameChannelCounters(start, d)
  {
    d := start;
    var todo := all.Keys;
    ghost var done: seq<PublicKey> := [];
    hide NodeCounters, Known, Unknown, MatchingInfo, MissingInfo, StaleInfo, NodeInfoAgrees;
    while todo != {}
      invariant todo <= all.Keys && Enumerates(done, all.Keys - todo)
      invariant CountsNodes(d, all, view, done) && SameChannelCounters(start, d)
      decreases todo
    {
      hide CountsNodes;
      var k :| k in todo;
      var e := DiffNode(all[k], Lookup(view, k), d);
      CountNode(all, view, done, k, d, e);
      EnumeratesSnoc(done, all.Keys - todo, k);
      assert all.Keys - (todo - {k}) == (all.Keys - todo) + {k};
      d, todo, done := e, todo - {k}, done + [k];
    }
    assert all.Keys - todo == all.Keys;
    AllNodesCounted(d, all, view, done);
  }

  method DiffChannels(all: ChannelMap, view: ChannelMap, start: Diff) returns (d: Diff)
    requires start.knownChannels == start.missingChannels == 0
    requires start.matchingDirection == start.missingDirection == start.staleDirection == 0
    ensures ChannelCounters(d, all, view)
    ensures SameNodeCounters(start, d)
  {
    d := start;
    var todo := all.Keys;
    ghost var done: seq<Scid> := [];
    hide ChannelCounters, Known, Unknown, MatchingDirs, MissingDirs, StaleDirs, DirectionAgrees;
    while todo != {}
      invariant todo <= all.Keys && Enumerates(done, all.Keys - todo)
      invariant CountsChannels(d, all, view, done) && SameNodeCounters(start, d)
      decreases todo
    {
      hide CountsChannels;
      var k :| k in todo;
      if k in view {
        var e := DiffDirection(all[k].oneToTwo, view[k].oneToTwo, d.(knownChannels := d.knownChannels + 1));
        var f := DiffDirection(all[k].twoToOne, view[k].twoToOne, e);
        CountKnownChannel(all, view, done, k, d, e, f);
        d := f;
      } else {
        CountMissingChannel(all, view, done, k, d);
        d := d.(missingChannels := d.missingChannels + 1);
      }
      EnumeratesSnoc(done, all.Keys - todo, k);
      assert all.Keys - (todo - {k}) == (all.Keys - todo) + {k};
      todo, done := todo - {k}, done + [k];
    }
    assert all.Keys - todo == all.Keys;
    AllChannelsCounted(d, all, view, done);
  }

  lemma EnumeratesSnoc<K>(done: seq<K>, keys: set<K>, k: K)
    requires Enumerates(done, keys) && k !in keys
    ensures Enumerates(done + [k], keys + {k})
  {
    forall x | x in keys + {k} ensures x in done + [k] {
      if x in keys { assert x in done; }
    }
  }

  lemma CountNode(all: NodeMap, view: NodeMap, done: seq<PublicKey>, k: PublicKey, d: Diff, e: Diff)
    requires k in all && CountsNodes(d, all, view, done) && CountsOneNode(d, e, all[k], Lookup(view, k))
    ensures CountsNodes(e, all, view, done + [k])
  {
    NodeMembership(all, view, k);
    hide Known, Unknown, MatchingInfo, MissingInfo, StaleInfo, NodeInfoAgrees, Tally;
    TallySnoc(Known(all, view), done, k);
    TallySnoc(Unknown(all, view), done, k);
    TallySnoc(MatchingInfo(all, view), done, k);
    TallySnoc(MissingInfo(all, view), done, k);
    TallySnoc(StaleInfo(all, view), done, k);
  }

  lemma CountDirection(all: ChannelMap, view: ChannelMap, side: Side, done: seq<Scid>, k: Scid)
    ensures Tally(MatchingDirs(all, view, side), done + [k])
            == Tally(MatchingDirs(all, view, side), done) + One(k in MatchingDirs(all, view, side))
    ensures Tally(MissingDirs(all, view, side), done + [k])
            == Tally(MissingDirs(all, view, side), done) + One(k in MissingDirs(all, view, side))
    ensures Tally(StaleDirs(all, view, side), done + [k])
            == Tally(StaleDirs(all, view, side), done) + One(k in StaleDirs(all, view, side))
  {
    hide MatchingDirs, MissingDirs, StaleDirs;
    TallySnoc(MatchingDirs(all, view, side), done, k);
    TallySnoc(MissingDirs(all, view, side), done, k);
    TallySnoc(StaleDirs(all, view, side), done, k);
  }

  lemma CountMissingChannel(all: ChannelMap, view: ChannelMap, done: seq<Scid>, k: Scid, d: Diff)
    requires k in all && k !in view && CountsChannels(d, all, view, done)
    ensures CountsChannels(d.(missingChannels := d.missingChannels + 1), all, view, done + [k])
  {
    DirectionMembership(all, view, OneToTwo, k);
    DirectionMembership(all, view, TwoToOne, k);
    TallySnoc(Known(all, view), done, k);
    TallySnoc(Unknown(all, view), done, k);
    hide MatchingDirs, MissingDirs, StaleDirs, Tally;
    CountDirection(all, view, OneToTwo, done, k);
    CountDirection(all, view, TwoToOne, done, k);
  }

  lemma CountKnownChannel(all: ChannelMap, view: ChannelMap, done: seq<Scid>, k: Scid, d: Diff, e: Diff, f: Diff)
    requires k in all && k in view && CountsChannels(d, all, view, done)
    requires CountsOneDirection(d.(knownChannels := d.knownChannels + 1), e, all[k].oneToTwo, view[k].oneToTwo)
    requires CountsOneDirection(e, f, all[k].twoToOne, view[k].twoToOne)
    ensures CountsChannels(f, all, view, done + [k])
  {
    DirectionMembership(all, view, OneToTwo, k);
    DirectionMembership(all, view, TwoToOne, k);
    TallySnoc(Known(all, view), done, k);
    TallySnoc(Unknown(all, view), done, k);
    hide MatchingDirs, MissingDirs, StaleDirs, DirectionAgrees, Tally;
    CountDirection(all, view, OneToTwo, done, k);
    CountDirection(all, view, TwoToOne, done, k);
  }

  lemma AllNodesCounted(d: Diff, all: NodeMap, view: NodeMap, done: seq<PublicKey>)
    requires CountsNodes(d, all, view, done) && Enumerates(done, all.Keys)
    ensures NodeCounters(d, all, view)
  {
    TallyIsSize(Known(all, view), done);
    TallyIsSize(Unknown(all, view), done);
    TallyIsSize(MatchingInfo(all, view), done);
    TallyIsSize(MissingInfo(all, view), done);
    TallyIsSize(StaleInfo(all, view), done);
  }

  lemma AllChannelsCounted(d: Diff, all: ChannelMap, view: ChannelMap, done: seq<Scid>)
    requires CountsChannels(d, all, view, done) && Enumerates(done, all.Keys)
    ensures ChannelCounters(d, all, view)
  {
    TallyIsSize(Known(all, view), done);
    TallyIsSize(Unknown(all, view), done);
    AllDirectionsCounted(all, view, OneToTwo, done);
    AllDirectionsCounted(all, view, TwoToOne, done);
  }

  lemma AllDirectionsCounted(all: ChannelMap, view: ChannelMap, side: Side, done: seq<Scid>)
    requires Enumerates(done, all.Keys)
    ensures Tally(MatchingDirs(all, view, side), done) == |MatchingDirs(all, view, side)|
    ensures Tally(MissingDirs(all, view, side), done) == |MissingDirs(all, view, side)|
    ensures Tally(StaleDirs(all, view, side), done) == |StaleDirs(all, view, side)|
  {
    TallyIsSize(MatchingDirs(all, view, side), done);
    TallyIsSize(MissingDirs(all, view, side), done);
    TallyIsSize(StaleDirs(all, view, side), done);
  }

  method DiffOne(nodes: NodeMap, channels: ChannelMap, graph: CollectorGraph) returns (d: Diff)
    ensures IsDiff(d, nodes, channels, graph)
  {
    hide NodeCounters, ChannelCounters;
    var e := DiffNodes(nodes, NodeView(graph), NoDiff);
    d := DiffChannels(channels, ChannelView(graph), e);
    NodeCountersCarryOver(e, d, nodes, NodeView(graph));
  }

  lemma NodeCountersCarryOver(d: Diff, e: Diff, all: NodeMap, view: NodeMap)
    requires SameNodeCounters(d, e) && NodeCounters(d, all, view)
    ensures NodeCounters(e, all, view)
  {
  }

  // ----- The whole computation

  /** `order` is the arbitrary order in which the map of uploads is iterated. */
  method ComputeGraphDifferences(graphs: Graphs, order: seq<string>) returns (full: FullGraphDiff)
    requires Enumerates(order, graphs.Keys)
    ensures full.graphs == graphs && full.diffs.Keys == graphs.Keys
    ensures forall u :: u in graphs ==>
            IsDiff(full.diffs[u], CombinedNodes(graphs, order), CombinedChannels(graphs, order), graphs[u])
    ensures NodeView(full.controllerGraph) == CombinedNodes(graphs, order)
    ensures ChannelView(full.controllerGraph) == CombinedChannels(graphs, order)
    ensures |full.controllerGraph.nodes| == |CombinedNodes(graphs, order)|
    ensures |full.controllerGraph.channels| == |CombinedChannels(graphs, order)|
  {
    if |graphs| == 0 {
      NoUploads(graphs, order);
      return FullGraphDiff(map[], map[], CollectorGraph([], []));
    }
    hide *;
    var nodes, channels := Combine(graphs, order);
    var diffs := DiffAll(graphs, order, nodes, channels);
    var nodeValues := Values(NodeKey, LastNode, nodes);
    var channelValues := Values(ChannelKey, LastChannel, channels);
    full := FullGraphDiff(diffs, graphs, CollectorGraph(nodeValues, channelValues));
    ControllerViews(full.controllerGraph);
  }

  lemma NoUploads(graphs: Graphs, order: seq<string>)
    requires Enumerates(order, graphs.Keys) && |graphs| == 0
    ensures graphs == map[] && CombinedNodes(graphs, order) == map[] && CombinedChannels(graphs, order) == map[]
    ensures NodeView(CollectorGraph([], [])) == map[] && ChannelView(CollectorGraph([], [])) == map[]
  {
    assert forall i :: 0 <= i < |order| ==> order[i] in graphs.Keys;
  }

  lemma ControllerViews(graph: CollectorGraph)
    ensures NodeView(graph) == Collect(NodeKey, LastNode, graph.nodes)
    ensures ChannelView(graph) == Collect(ChannelKey, LastChannel, graph.channels)
  {
  }

  method DiffAll(graphs: Graphs, order: seq<string>, nodes: NodeMap, channels: ChannelMap)
    returns (diffs: map<string, Diff>)
    requires Enumerates(order, graphs.Keys)
    ensures diffs.Keys == graphs.Keys
    ensures forall u :: u in graphs ==> IsDiff(diffs[u], nodes, channels, graphs[u])
  {
    hide IsDiff;
    diffs := map[];
    for i := 0 to |order|
      invariant forall u :: u in diffs <==> u in order[..i]
      invariant forall u :: u in diffs ==> u in graphs && IsDiff(diffs[u], nodes, channels, graphs[u])
    {
      var d := DiffOne(nodes, channels, graphs[order[i]]);
      diffs := diffs[order[i] := d];
      assert order[..i + 1] == order[..i] + [order[i]];
    }
    assert order[..|order|] == order;
  }

  /** First pass: every record of every upload is merged into the running maps. */
  method Combine(graphs: Graphs, order: seq<string>) returns (nodes: NodeMap, channels: ChannelMap)
    requires forall u :: u in order ==> u in graphs
    ensures nodes == CombinedNodes(graphs, order)
    ensures channels == CombinedChannels(graphs, order)
    ensures forall k :: k in nodes ==> NodeKey(nodes[k]) == k
    ensures forall k :: k in channels ==> ChannelKey(channels[k]) == k
  {
    nodes, channels := map[], map[];
    for i := 0 to |order|
      invariant nodes == CombinedNodes(graphs, order[..i])
      invariant channels == CombinedChannels(graphs, order[..i])
      invariant forall k :: k in nodes ==> NodeKey(nodes[k]) == k
      invariant forall k :: k in channels ==> ChannelKey(channels[k]) == k
    {
      var graph := graphs[order[i]];
      assert order[..i + 1][..i] == order[..i];
      ghost var seenNodes := Listing(NodeLists(graphs), order[..i]);
      ghost var seenChannels := Listing(ChannelLists(graphs), order[..i]);
      nodes := CombineNodes(nodes, graph.nodes, seenNodes);
      channels := CombineChannels(channels, graph.channels, seenChannels);
    }
    assert order[..|order|] == order;
  }

  method CombineNodes(start: NodeMap, list: seq<GossipNodeInfo>, ghost seen: seq<GossipNodeInfo>)
    returns (nodes: NodeMap)
    requires start == Collect(NodeKey, KeepNewer, seen)
    requires forall k :: k in start ==> NodeKey(start[k]) == k
    ensures nodes == Collect(NodeKey, KeepNewer, seen + list)
    ensures forall k :: k in nodes ==> NodeKey(nodes[k]) == k
  {
    nodes := start;
    assert seen + list[..0] == seen;
    for i := 0 to |list|
      invariant nodes == Collect(NodeKey, KeepNewer, seen + list[..i])
      invariant forall k :: k in nodes ==> NodeKey(nodes[k]) == k
    {
      var node := list[i];
      CollectSnoc(NodeKey, KeepNewer, seen + list[..i], node);
      assert seen + list[..i + 1] == seen + list[..i] + [node];
      if node.pubkey in nodes {
        if node.IsNewer(nodes[node.pubkey]) {
          nodes := nodes[node.pubkey := node];
        }
      } else {
        nodes := nodes[node.pubkey := node];
      }
    }
    assert list[..|list|] == list;
  }

  method CombineChannels(start: ChannelMap, list: seq<ChannelInfo>, ghost seen: seq<ChannelInfo>)
    returns (channels: ChannelMap)
    requires start == Collect(ChannelKey, MergeChannels, seen)
    requires forall k :: k in start ==> ChannelKey(start[k]) == k
    ensures channels == Collect(ChannelKey, MergeChannels, seen + list)
    ensures forall k :: k in channels ==> ChannelKey(channels[k]) == k
  {
    channels := start;
    assert seen + list[..0] == seen;
    for i := 0 to |list|
      invariant channels == Collect(ChannelKey, MergeChannels, seen + list[..i])
      invariant forall k :: k in channels ==> ChannelKey(channels[k]) == k
    {
      var channel := list[i];
      CollectSnoc(ChannelKey, MergeChannels, seen + list[..i], channel);
      assert seen + list[..i + 1] == seen + list[..i] + [channel];
      if channel.scid in channels {
        channels := channels[channel.scid := channels[channel.scid].MergeToNewest(channel)];
      } else {
        channels := channels[channel.scid := channel];
      }
    }
    assert list[..|list|] == list;
  }

  /** The values of a map, in an arbitrary order, collect back to the map. */
  method Values<T, K(==)>(key: T -> K, last: (T, T) -> T, m: map<K, T>) returns (values: seq<T>)
    requires forall k :: k in m ==> key(m[k]) == k
    ensures Collect(key, last, values) == m
    ensures |values| == |m|
  {
    values := [];
    var todo := m.Keys;
    while todo != {}
      invariant todo <= m.Keys
      invariant |values| + |todo| == |m.Keys|
      invariant Collect(key, last, values) == m - todo
      decreases todo
    {
      var k :| k in todo;
      CollectSnoc(key, last, values, m[k]);
      values := values + [m[k]];
      todo := todo - {k};
    }
    assert m - {} == m;
  }

  // ----- What the counters say

  /** A collector's own record of a key is one of the observations of it. */
  lemma ViewsAreObserved(graphs: Graphs, u: string)
    requires u in graphs
    ensures forall k :: k in NodeView(graphs[u]) ==> NodeView(graphs[u])[k] in Observed(NodeLists(graphs), NodeKey, k)
    ensures forall k :: k in ChannelView(graphs[u]) ==>
            ChannelView(graphs[u])[k] in Observed(ChannelLists(graphs), ChannelKey, k)
  {
    forall k | k in NodeView(graphs[u]) ensures NodeView(graphs[u])[k] in Observed(NodeLists(graphs), NodeKey, k) {
      CollectRefinesFold(NodeKey, LastNode, graphs[u].nodes, k);
      LastOf(LastNode, At(NodeKey, graphs[u].nodes, k));
      AtMember(NodeKey, graphs[u].nodes, k, NodeView(graphs[u])[k]);
      assert NodeLists(graphs)[u] == graphs[u].nodes;
    }
    forall k | k in ChannelView(graphs[u])
      ensures ChannelView(graphs[u])[k] in Observed(ChannelLists(graphs), ChannelKey, k)
    {
      CollectRefinesFold(ChannelKey, LastChannel, graphs[u].channels, k);
      LastOf(LastChannel, At(ChannelKey, graphs[u].channels, k));
      AtMember(ChannelKey, graphs[u].channels, k, ChannelView(graphs[u])[k]);
      assert ChannelLists(graphs)[u] == graphs[u].channels;
    }
  }

  lemma LastOf<T(!new)>(last: (T, T) -> T, obs: seq<T>)
    requires obs != [] && forall a, b :: last(a, b) == b
    ensures Fold(last, obs) == obs[|obs| - 1] && Fold(last, obs) in obs
  {
  }

  /** The three "should never happen" branches are dead, even when an upload repeats
      keys: the combined view has an announcement whenever the collector's own view
      has one, and the collector's record is never newer. */
  lemma OwnNodesNeverExceedCombined(graphs: Graphs, order: seq<string>, u: string, k: PublicKey)
    requires Enumerates(order, graphs.Keys) && u in graphs && k in NodeView(graphs[u])
    ensures k in CombinedNodes(graphs, order)
    ensures NodeView(graphs[u])[k].info.Some? ==> CombinedNodes(graphs, order)[k].info.Some?
    ensures NodeStamp(NodeView(graphs[u])[k]) <= NodeStamp(CombinedNodes(graphs, order)[k])
  {
    ViewsAreObserved(graphs, u);
    CombinedNodeIsNewest(graphs, order, k);
  }

  /** The same for both directions of a channel. */
  lemma OwnDirectionsNeverExceedCombined(graphs: Graphs, order: seq<string>, u: string, k: Scid, side: Side)
    requires Enumerates(order, graphs.Keys) && u in graphs && k in ChannelView(graphs[u])
    ensures k in CombinedChannels(graphs, order)
    ensures Dir(ChannelView(graphs[u])[k], side).Some? ==> Dir(CombinedChannels(graphs, order)[k], side).Some?
    ensures DirStamp(Dir(ChannelView(graphs[u])[k], side)) <= DirStamp(Dir(CombinedChannels(graphs, order)[k], side))
  {
    ViewsAreObserved(graphs, u);
    CombinedChannelIsNewest(graphs, order, k);
    assert NewestDirection(Observed(ChannelLists(graphs), ChannelKey, k), CombinedChannels(graphs, order)[k], side);
  }

  /** `view` never knows more than `all`. */
  ghost predicate NodesWithin(all: NodeMap, view: NodeMap) {
    forall k :: k in view ==> k in all && (view[k].info.Some? ==> all[k].info.Some?)
  }

  ghost predicate ChannelsWithin(all: ChannelMap, view: ChannelMap) {
    forall k :: k in view ==>
      && k in all
      && (view[k].oneToTwo.Some? ==> all[k].oneToTwo.Some?)
      && (view[k].twoToOne.Some? ==> all[k].twoToOne.Some?)
  }

  lemma ViewsWithinCombined(graphs: Graphs, order: seq<string>, u: string)
    requires Enumerates(order, graphs.Keys) && u in graphs
    ensures NodesWithin(CombinedNodes(graphs, order), NodeView(graphs[u]))
    ensures ChannelsWithin(CombinedChannels(graphs, order), ChannelView(graphs[u]))
  {
    hide CombinedNodes, CombinedChannels, NodeView, ChannelView;
    forall k | k in NodeView(graphs[u])
      ensures k in CombinedNodes(graphs, order)
      ensures NodeView(graphs[u])[k].info.Some? ==> CombinedNodes(graphs, order)[k].info.Some?
    {
      OwnNodesNeverExceedCombined(graphs, order, u, k);
    }
    forall k | k in ChannelView(graphs[u])
      ensures k in CombinedChannels(graphs, order)
      ensures ChannelView(graphs[u])[k].oneToTwo.Some? ==> CombinedChannels(graphs, order)[k].oneToTwo.Some?
      ensures ChannelView(graphs[u])[k].twoToOne.Some? ==> CombinedChannels(graphs, order)[k].twoToOne.Some?
    {
      OwnDirectionsNeverExceedCombined(graphs, order, u, k, OneToTwo);
      OwnDirectionsNeverExceedCombined(graphs, order, u, k, TwoToOne);
    }
  }

  // ----- What is counted, in terms of a collector's last records

  /** How a combined node is counted that the collector lists: its info matches when both
      lack one or both have the same, is missing when only the combined view has one, and
      stale when both have one and they differ. */
  lemma ListedNodeCounted(all: NodeMap, graph: CollectorGraph, k: PublicKey, i: int)
    requires k in all && LastNodeAt(graph.nodes, k, i)
    ensures var combined, own, view := all[k].info, graph.nodes[i].info, NodeView(graph);
            && k in Known(all, view) && k !in Unknown(all, view)
            && (combined.None? && own.None? ==> k in MatchingInfo(all, view))
            && (combined.Some? && own.None? ==> k in MissingInfo(all, view))
            && (combined.Some? && own.Some? && combined.value.SameInfo(own.value) ==> k in MatchingInfo(all, view))
            && (combined.Some? && own.Some? && !combined.value.SameInfo(own.value) ==> k in StaleInfo(all, view))
  {
    NodeViewIsLast(graph, k);
    hide NodeView;
  }

  /** One it does not list is missing, and its info too. */
  lemma UnlistedNodeCounted(all: NodeMap, graph: CollectorGraph, k: PublicKey)
    requires k in all && forall i :: 0 <= i < |graph.nodes| ==> graph.nodes[i].pubkey != k
    ensures k in Unknown(all, NodeView(graph)) && k in MissingInfo(all, NodeView(graph))
  {
    NodeViewIsLast(graph, k);
    hide NodeView;
  }

  /** The same for the directions of a channel. */
  lemma ListedDirectionCounted(all: ChannelMap, graph: CollectorGraph, side: Side, k: Scid, i: int)
    requires k in all && LastChannelAt(graph.channels, k, i)
    ensures var combined, own, view := Dir(all[k], side), Dir(graph.channels[i], side), ChannelView(graph);
            && k in Known(all, view) && k !in Unknown(all, view)
            && (combined.None? && own.None? ==> k in MatchingDirs(all, view, side))
            && (combined.Some? && own.None? ==> k in MissingDirs(all, view, side))
            && (combined.Some? && own.Some? && combined.value.SameInfo(own.value) ==>
                  k in MatchingDirs(all, view, side))
            && (combined.Some? && own.Some? && !combined.value.SameInfo(own.value) ==>
                  k in StaleDirs(all, view, side))
  {
    ChannelViewIsLast(graph, k);
    hide ChannelView;
  }

  /** A channel the collector does not list is missing, and no direction of it is counted. */
  lemma UnlistedChannelCounted(all: ChannelMap, graph: CollectorGraph, side: Side, k: Scid)
    requires k in all && forall i :: 0 <= i < |graph.channels| ==> graph.channels[i].scid != k
    ensures k in Unknown(all, ChannelView(graph))
    ensures k !in MatchingDirs(all, ChannelView(graph), side) && k !in MissingDirs(all, ChannelView(graph), side)
    ensures k !in StaleDirs(all, ChannelView(graph), side)
  {
    ChannelViewIsLast(graph, k);
    hide ChannelView;
  }

  /** Every combined key is counted exactly once in each family of counters. */
  lemma DiffIdentities(graphs: Graphs, order: seq<string>, u: string, d: Diff)
    requires Enumerates(order, graphs.Keys) && u in graphs
    requires IsDiff(d, CombinedNodes(graphs, order), CombinedChannels(graphs, order), graphs[u])
    ensures d.knownNodes + d.missingNodes == |CombinedNodes(graphs, order)|
    ensures d.matchingNodeInfo + d.missingNodeInfo + d.staleNodeInfo == |CombinedNodes(graphs, order)|
    ensures d.knownChannels + d.missingChannels == |CombinedChannels(graphs, order)|
    ensures d.matchingDirection + d.missingDirection + d.staleDirection == 2 * d.knownChannels
    ensures d.knownNodes == |NodeView(graphs[u])| && d.knownChannels == |ChannelView(graphs[u])|
  {
    hide NodeCounters, ChannelCounters, CombinedNodes, CombinedChannels, NodeView, ChannelView;
    ViewsWithinCombined(graphs, order, u);
    NodeIdentities(d, CombinedNodes(graphs, order), NodeView(graphs[u]));
    ChannelIdentities(d, CombinedChannels(graphs, order), ChannelView(graphs[u]));
  }

  lemma NodeIdentities(d: Diff, all: NodeMap, view: NodeMap)
    requires NodeCounters(d, all, view) && NodesWithin(all, view)
    ensures d.knownNodes + d.missingNodes == |all| && d.knownNodes == |view|
    ensures d.matchingNodeInfo + d.missingNodeInfo + d.staleNodeInfo == |all|
  {
    KnownPartition(all, view);
    InfoPartition(all, view);
    hide Known, Unknown, MatchingInfo, MissingInfo, StaleInfo;
    ThreeParts(all.Keys, MatchingInfo(all, view), MissingInfo(all, view), StaleInfo(all, view));
  }

  lemma KnownPartition<K, A, B>(all: map<K, A>, view: map<K, B>)
    requires view.Keys <= all.Keys
    ensures |Known(all, view)| == |view| && |Known(all, view)| + |Unknown(all, view)| == |all|
  {
    assert Known(all, view) == view.Keys;
    assert Known(all, view) + Unknown(all, view) == all.Keys;
  }

  lemma InfoPartition(all: NodeMap, view: NodeMap)
    requires NodesWithin(all, view)
    ensures var a, b, c := MatchingInfo(all, view), MissingInfo(all, view), StaleInfo(all, view);
            a + b + c == all.Keys && a !! b && a !! c && b !! c
    ensures Unknown(all, view) <= MissingInfo(all, view)
  {
  }

  lemma ChannelIdentities(d: Diff, all: ChannelMap, view: ChannelMap)
    requires ChannelCounters(d, all, view) && ChannelsWithin(all, view)
    ensures d.knownChannels + d.missingChannels == |all| && d.knownChannels == |view|
    ensures d.matchingDirection + d.missingDirection + d.staleDirection == 2 * d.knownChannels
  {
    KnownPartition(all, view);
    hide Known, Unknown, MatchingDirs, MissingDirs, StaleDirs;
    DirectionsPartition(all, view, OneToTwo);
    DirectionsPartition(all, view, TwoToOne);
    ThreeParts(view.Keys, MatchingDirs(all, view, OneToTwo), MissingDirs(all, view, OneToTwo),
               StaleDirs(all, view, OneToTwo));
    ThreeParts(view.Keys, MatchingDirs(all, view, TwoToOne), MissingDirs(all, view, TwoToOne),
               StaleDirs(all, view, TwoToOne));
  }

  lemma DirectionsPartition(all: ChannelMap, view: ChannelMap, side: Side)
    requires ChannelsWithin(all, view)
    ensures view.Keys <= all.Keys
    ensures var a, b, c := MatchingDirs(all, view, side), MissingDirs(all, view, side), StaleDirs(all, view, side);
            a + b + c == view.Keys && a !! b && a !! c && b !! c
  {
  }

  lemma ThreeParts<T>(all: set<T>, a: set<T>, b: set<T>, c: set<T>)
    requires a + b + c == all && a !! b && a !! c && b !! c
    ensures |a| + |b| + |c| == |all|
  {
    assert |a + b| == |a| + |b|;
    assert |(a + b) + c| == |a + b| + |c|;
  }

  /** Nothing missing and nothing stale: the collector lists every combined key, and its
      last record of it agrees with the combined one up to timestamps. */
  ghost predicate UpToDate(nodes: NodeMap, channels: ChannelMap, graph: CollectorGraph) {
    && (forall k :: k in nodes ==> LastNodeAgrees(nodes[k], graph.nodes, k))
    && (forall k :: k in channels ==> LastChannelAgrees(channels[k], graph.channels, k))
  }

  ghost predicate LastNodeAgrees(combined: GossipNodeInfo, list: seq<GossipNodeInfo>, k: PublicKey) {
    exists i :: LastNodeAt(list, k, i) && NodeInfoAgrees(combined.info, list[i].info)
  }

  ghost predicate LastChannelAgrees(combined: ChannelInfo, list: seq<ChannelInfo>, k: Scid) {
    exists i :: LastChannelAt(list, k, i)
                && DirectionAgrees(combined.oneToTwo, list[i].oneToTwo)
                && DirectionAgrees(combined.twoToOne, list[i].twoToOne)
  }

  lemma NodesUpToDateIff(nodes: NodeMap, graph: CollectorGraph)
    ensures (forall k :: k in nodes ==> LastNodeAgrees(nodes[k], graph.nodes, k)) <==>
            forall k :: k in nodes ==> k in NodeView(graph) && NodeInfoAgrees(nodes[k].info, NodeView(graph)[k].info)
  {
    hide NodeView, NodeInfoAgrees;
    forall k | k in nodes
      ensures LastNodeAgrees(nodes[k], graph.nodes, k) <==>
              k in NodeView(graph) && NodeInfoAgrees(nodes[k].info, NodeView(graph)[k].info)
    {
      NodeViewIsLast(graph, k);
    }
  }

  lemma ChannelsUpToDateIff(channels: ChannelMap, graph: CollectorGraph)
    ensures (forall k :: k in channels ==> LastChannelAgrees(channels[k], graph.channels, k)) <==>
            ChannelsUpToDate(channels, ChannelView(graph))
  {
    hide ChannelView, DirectionAgrees;
    forall k | k in channels
      ensures LastChannelAgrees(channels[k], graph.channels, k) <==>
              && k in ChannelView(graph)
              && DirectionAgrees(channels[k].oneToTwo, ChannelView(graph)[k].oneToTwo)
              && DirectionAgrees(channels[k].twoToOne, ChannelView(graph)[k].twoToOne)
    {
      ChannelViewIsLast(graph, k);
    }
  }

  ghost predicate ChannelsUpToDate(all: ChannelMap, view: ChannelMap) {
    forall k :: k in all ==>
      && k in view
      && DirectionAgrees(all[k].oneToTwo, view[k].oneToTwo)
      && DirectionAgrees(all[k].twoToOne, view[k].twoToOne)
  }

  ghost predicate NothingToReport(d: Diff) {
    && d.missingNodes == d.missingNodeInfo == d.staleNodeInfo == 0
    && d.missingChannels == d.missingDirection == d.staleDirection == 0
  }

  /** All missing and stale counters are zero if and only if the collector is up to date. */
  lemma ZeroIffUpToDate(graphs: Graphs, order: seq<string>, u: string, d: Diff)
    requires Enumerates(order, graphs.Keys) && u in graphs
    requires IsDiff(d, CombinedNodes(graphs, order), CombinedChannels(graphs, order), graphs[u])
    ensures NothingToReport(d) <==> UpToDate(CombinedNodes(graphs, order), CombinedChannels(graphs, order), graphs[u])
  {
    hide NodeCounters, ChannelCounters, CombinedNodes, CombinedChannels, NodeView, ChannelView, ChannelsUpToDate;
    hide LastNodeAgrees, LastChannelAgrees, NodeInfoAgrees;
    ViewsWithinCombined(graphs, order, u);
    NodesUpToDateIff(CombinedNodes(graphs, order), graphs[u]);
    ChannelsUpToDateIff(CombinedChannels(graphs, order), graphs[u]);
    ZeroNodes(d, CombinedNodes(graphs, order), NodeView(graphs[u]));
    ZeroChannels(d, CombinedChannels(graphs, order), ChannelView(graphs[u]));
  }

  lemma ZeroNodes(d: Diff, all: NodeMap, view: NodeMap)
    requires NodeCounters(d, all, view) && NodesWithin(all, view)
    ensures d.missingNodes == d.missingNodeInfo == d.staleNodeInfo == 0
            <==> forall k :: k in all ==> k in view && NodeInfoAgrees(all[k].info, view[k].info)
  {
    InfoPartition(all, view);
    assert MatchingInfo(all, view) == all.Keys
           <==> forall k :: k in all ==> k in view && NodeInfoAgrees(all[k].info, view[k].info);
    if MatchingInfo(all, view) == all.Keys {
      assert MissingInfo(all, view) == {} && StaleInfo(all, view) == {};
    }
  }

  lemma ZeroChannels(d: Diff, all: ChannelMap, view: ChannelMap)
    requires ChannelCounters(d, all, view) && ChannelsWithin(all, view)
    ensures d.missingChannels == d.missingDirection == d.staleDirection == 0 <==> ChannelsUpToDate(all, view)
  {
    assert Unknown(all, view) == {} <==> forall k :: k in all ==> k in view;
    ZeroDirections(all, view, OneToTwo);
    ZeroDirections(all, view, TwoToOne);
  }

  lemma ZeroDirections(all: ChannelMap, view: ChannelMap, side: Side)
    requires ChannelsWithin(all, view)
    ensures |MissingDirs(all, view, side)| == |StaleDirs(all, view, side)| == 0
            <==> forall k :: k in view ==> DirectionAgrees(Dir(all[k], side), Dir(view[k], side))
  {
    DirectionsPartition(all, view, side);
    assert MatchingDirs(all, view, side) == view.Keys
           <==> forall k :: k in view ==> DirectionAgrees(Dir(all[k], side), Dir(view[k], side));
    if MatchingDirs(all, view, side) == view.Keys {
      assert MissingDirs(all, view, side) == {} && StaleDirs(all, view, side) == {};
    }
  }
}
