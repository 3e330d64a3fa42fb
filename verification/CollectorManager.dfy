/**
 The controller's collector manager: heartbeats, expected collectors and uploaded
 graphs, all behind one mailbox (observer_controller/src/collector_manager.rs).
 */
module CollectorManager {
  import opened Prelude
  import opened GossipTypes
  import opened GraphMerge

  datatype CollectorInfo =
    CollectorInfo(uuid: string, grpcSocket: string, peerCount: nat, targetCount: nat, eligiblePeers: nat)

  datatype Heartbeat = Heartbeat(info: CollectorInfo, timestamp: int)

  datatype CommunityStats = CommunityStats(connectionCount: nat)

  datatype MemberRecord = MemberRecord(pubkey: string, sockets: Option<string>)

  datatype Config =
    Config(
      collectorMapping: map<string, nat>,
      communityMembers: map<nat, seq<MemberRecord>>,
      communityStats: map<nat, CommunityStats>)

  datatype State =
    State(
      config: Config,
      registered: map<string, seq<Heartbeat>>,
      expected: set<string>,
      graphs: Graphs)

  datatype Msg =
    | AddCollector(info: CollectorInfo)
    | SweepHeartbeats(expiry: int)
    | GetCollectorByUuid(uuid: string)
    | PushGossipNodes(from: string, nodes: seq<GossipNodeInfo>)
    | PushGossipChannels(from: string, channels: seq<ChannelInfo>)
    | DumpCollectorGraphs

  datatype CollectorStatus = New | Active

  datatype Reply =
    | NoReply
    | Status(status: CollectorStatus)
    | Found(heartbeat: Option<Heartbeat>)
    | Dumped(graphs: Graphs)

  function Init(config: Config): State {
    State(config, map[], config.collectorMapping.Keys, map[])
  }

  function Fresh(list: seq<Heartbeat>, now: int, expiry: int): seq<Heartbeat> {
    if list == [] then []
    else
      var last := list[|list| - 1];
      Fresh(list[..|list| - 1], now, expiry) + (if now - last.timestamp < expiry then [last] else [])
  }

  function RetainFresh(registered: map<string, seq<Heartbeat>>, now: int, expiry: int): map<string, seq<Heartbeat>> {
    map u | u in registered :: Fresh(registered[u], now, expiry)
  }

  function Silent(registered: map<string, seq<Heartbeat>>): set<string> {
    set u | u in registered && registered[u] == []
  }

  function DropSilent(registered: map<string, seq<Heartbeat>>): map<string, seq<Heartbeat>> {
    map u | u in registered && registered[u] != [] :: registered[u]
  }

  function GraphOf(s: State, u: string): CollectorGraph {
    if u in s.graphs then s.graphs[u] else CollectorGraph([], [])
  }

  /** The state after one message, handled at time `now`. */
  function Handle(s: State, m: Msg, now: int): State {
    match m
    case AddCollector(info) =>
      var hb := Heartbeat(info, now);
      var list := if info.uuid in s.registered then s.registered[info.uuid] + [hb] else [hb];
      s.(registered := s.registered[info.uuid := list])
    case SweepHeartbeats(expiry) =>
      var kept := RetainFresh(s.registered, now, expiry);
      s.(registered := DropSilent(kept), expected := s.expected - Silent(kept))
    case GetCollectorByUuid(_) => s
    case PushGossipNodes(u, nodes) =>
      s.(graphs := s.graphs[u := GraphOf(s, u).(nodes := GraphOf(s, u).nodes + nodes)])
    case PushGossipChannels(u, channels) =>
      s.(graphs := s.graphs[u := GraphOf(s, u).(channels := GraphOf(s, u).channels + channels)])
    case DumpCollectorGraphs => s.(graphs := map[])
  }

  function ReplyTo(s: State, m: Msg): Reply {
    match m
    case AddCollector(info) => Status(if info.uuid in s.registered then Active else New)
    case GetCollectorByUuid(u) =>
      Found(if u in s.registered && s.registered[u] != [] then Some(s.registered[u][|s.registered[u]| - 1]) else None)
    case DumpCollectorGraphs => Dumped(s.graphs)
    case _ => NoReply
  }

  /** The actor with its maps and set updated in place. */
  class Manager {
    const config: Config
    var registeredCollectors: map<string, seq<Heartbeat>>
    var expectedCollectors: set<string>
    var gossipGraphs: Graphs

    ghost function View(): State
      reads this
    {
      State(config, registeredCollectors, expectedCollectors, gossipGraphs)
    }

    constructor (cfg: Config)
      ensures config == cfg && View() == Init(cfg)
    {
      config := cfg;
      registeredCollectors, expectedCollectors, gossipGraphs := map[], cfg.collectorMapping.Keys, map[];
    }

    method HandleMsg(m: Msg, now: int) returns (reply: Reply)
      modifies this
      ensures View() == Handle(old(View()), m, now)
      ensures reply == ReplyTo(old(View()), m)
    {
      reply := NoReply;
      match m {
        case AddCollector(info) =>
          var hb := Heartbeat(info, now);
          if info.uuid in registeredCollectors {
            registeredCollectors := registeredCollectors[info.uuid := registeredCollectors[info.uuid] + [hb]];
            reply := Status(Active);
          } else {
            registeredCollectors := registeredCollectors[info.uuid := [hb]];
            reply := Status(New);
          }
        case SweepHeartbeats(expiry) => Sweep(expiry, now);
        case GetCollectorByUuid(u) =>
          reply := Found(None);
          if u in registeredCollectors && registeredCollectors[u] != [] {
            reply := Found(Some(registeredCollectors[u][|registeredCollectors[u]| - 1]));
          }
        case PushGossipNodes(u, nodes) =>
          var graph := if u in gossipGraphs then gossipGraphs[u] else CollectorGraph([], []);
          gossipGraphs := gossipGraphs[u := graph.(nodes := graph.nodes + nodes)];
        case PushGossipChannels(u, channels) =>
          var graph := if u in gossipGraphs then gossipGraphs[u] else CollectorGraph([], []);
          gossipGraphs := gossipGraphs[u := graph.(channels := graph.channels + channels)];
        case DumpCollectorGraphs =>
          reply := Dumped(gossipGraphs);
          gossipGraphs := map[];
      }
    }

    /** Three passes over the registered collectors: drop expired heartbeats, forget the
        collectors left with none, and remove their entries. */
    method Sweep(expiry: int, now: int)
      modifies `registeredCollectors, `expectedCollectors
      ensures View() == Handle(old(View()), SweepHeartbeats(expiry), now)
    {
      RetainFreshHeartbeats(expiry, now);
      ForgetSilent();
      registeredCollectors := DropSilent(registeredCollectors);
    }

    method RetainFreshHeartbeats(expiry: int, now: int)
      modifies `registeredCollectors
      ensures registeredCollectors == RetainFresh(old(registeredCollectors), now, expiry)
    {
      hide Fresh;
      var start := registeredCollectors;
      var todo := start.Keys;
      while todo != {}
        invariant todo <= start.Keys && registeredCollectors.Keys == start.Keys
        invariant forall u :: u in start ==>
          registeredCollectors[u] == if u in todo then start[u] else Fresh(start[u], now, expiry)
        decreases todo
      {
        var u :| u in todo;
        registeredCollectors := registeredCollectors[u := Fresh(registeredCollectors[u], now, expiry)];
        todo := todo - {u};
      }
    }

    method ForgetSilent()
      modifies `expectedCollectors
      ensures expectedCollectors == old(expectedCollectors) - Silent(registeredCollectors)
    {
      var todo := registeredCollectors.Keys;
      while todo != {}
        invariant todo <= registeredCollectors.Keys
        invariant forall u :: u in expectedCollectors <==>
                    && u in old(expectedCollectors)
                    && !(u in registeredCollectors && u !in todo && registeredCollectors[u] == [])
        decreases todo
      {
        var u :| u in todo;
        if registeredCollectors[u] == [] {
          expectedCollectors := expectedCollectors - {u};
        }
        todo := todo - {u};
      }
    }
  }

  // ----- Runs

  datatype Event = Event(msg: Msg, now: int)

  function After(config: Config, events: seq<Event>): State {
    if events == [] then Init(config)
    else Handle(After(config, events[..|events| - 1]), events[|events| - 1].msg, events[|events| - 1].now)
  }

  /** The clock never goes back. */
  ghost predicate Monotone(events: seq<Event>) {
    forall i, j :: 0 <= i < j < |events| ==> events[i].now <= events[j].now
  }

  // ----- Heartbeats refine a map from collector to latest heartbeat

  datatype Latest = Latest(heartbeats: map<string, Heartbeat>, swept: set<string>)

  /** The plain reading: remember each collector's latest heartbeat, and on a sweep
      forget those that have expired. */
  function Track(a: Latest, m: Msg, now: int): Latest {
    match m
    case AddCollector(info) => a.(heartbeats := a.heartbeats[info.uuid := Heartbeat(info, now)])
    case SweepHeartbeats(expiry) =>
      var expired := set u | u in a.heartbeats && now - a.heartbeats[u].timestamp >= expiry;
      Latest(a.heartbeats - expired, a.swept + expired)
    case _ => a
  }

  function Tracked(events: seq<Event>): Latest {
    if events == [] then Latest(map[], {})
    else Track(Tracked(events[..|events| - 1]), events[|events| - 1].msg, events[|events| - 1].now)
  }

  /** Stored heartbeats: never an empty list, in order of time, none from the future,
      each under its own collector. */
  ghost predicate WellKept(registered: map<string, seq<Heartbeat>>, now: int) {
    forall u :: u in registered ==> registered[u] != [] && KeptList(registered[u], u, now)
  }

  ghost predicate KeptList(list: seq<Heartbeat>, u: string, now: int) {
    Ordered(list) && forall i :: 0 <= i < |list| ==> list[i].timestamp <= now && list[i].info.uuid == u
  }

  ghost predicate Ordered(list: seq<Heartbeat>) {
    forall i, j :: 0 <= i < j < |list| ==> list[i].timestamp <= list[j].timestamp
  }

  function LastOf(list: seq<Heartbeat>): Heartbeat
    requires list != []
  {
    list[|list| - 1]
  }

  /** The lists stand for the map of latest heartbeats. */
  ghost predicate Refines(s: State, a: Latest) {
    && s.registered.Keys == a.heartbeats.Keys
    && (forall u :: u in s.registered ==> s.registered[u] != [] && LastOf(s.registered[u]) == a.heartbeats[u])
    && s.expected == s.config.collectorMapping.Keys - a.swept
  }

  /** Of a list in order of time, the fresh part is empty exactly when the last entry
      has expired, and otherwise is a suffix of the list. */
  lemma {:induction false} FreshOfOrdered(list: seq<Heartbeat>, now: int, expiry: int) returns (k: nat)
    requires Ordered(list)
    ensures k <= |list| && Fresh(list, now, expiry) == list[k..]
    ensures list != [] ==> (Fresh(list, now, expiry) == [] <==> now - LastOf(list).timestamp >= expiry)
    ensures list != [] && Fresh(list, now, expiry) != [] ==> LastOf(Fresh(list, now, expiry)) == LastOf(list)
  {
    if list == [] {
      k := 0;
    } else {
      var n := |list| - 1;
      k := FreshOfOrdered(list[..n], now, expiry);
      if now - list[n].timestamp < expiry {
        assert list[..n][k..] + [list[n]] == list[k..];
      } else {
        assert n > 0 ==> list[n - 1].timestamp <= list[n].timestamp;
        k := |list|;
      }
    }
  }

  lemma FreshKept(list: seq<Heartbeat>, u: string, before: int, now: int, expiry: int)
    requires KeptList(list, u, before) && before <= now
    ensures KeptList(Fresh(list, now, expiry), u, now)
  {
    var k := FreshOfOrdered(list, now, expiry);
    hide Fresh;
    var kept := list[k..];
    assert forall i :: 0 <= i < |kept| ==> kept[i] == list[k + i];
  }

  lemma StepKeepsWellKept(s: State, m: Msg, before: int, now: int)
    requires WellKept(s.registered, before) && before <= now
    ensures WellKept(Handle(s, m, now).registered, now)
  {
    match m
    case SweepHeartbeats(expiry) =>
      forall u | u in s.registered ensures KeptList(Fresh(s.registered[u], now, expiry), u, now) {
        FreshKept(s.registered[u], u, before, now, expiry);
      }
    case AddCollector(info) =>
      WellKeptLater(s.registered, before, now);
      if info.uuid in s.registered {
        KeptAppend(s.registered[info.uuid], info, now);
      }
    case _ =>
      WellKeptLater(s.registered, before, now);
  }

  lemma KeptAppend(list: seq<Heartbeat>, info: CollectorInfo, now: int)
    requires KeptList(list, info.uuid, now)
    ensures KeptList(list + [Heartbeat(info, now)], info.uuid, now)
  {
  }

  lemma StepRefines(s: State, a: Latest, m: Msg, before: int, now: int)
    requires WellKept(s.registered, before) && before <= now && Refines(s, a)
    ensures Refines(Handle(s, m, now), Track(a, m, now))
  {
    match m
    case SweepHeartbeats(expiry) =>
      forall u | u in s.registered
        ensures Fresh(s.registered[u], now, expiry) == [] <==> now - a.heartbeats[u].timestamp >= expiry
        ensures Fresh(s.registered[u], now, expiry) != [] ==>
                LastOf(Fresh(s.registered[u], now, expiry)) == a.heartbeats[u]
      {
        var k := FreshOfOrdered(s.registered[u], now, expiry);
      }
      hide Fresh;
      SweepRefines(s, a, now, expiry);
    case _ =>
  }

  lemma SweepRefines(s: State, a: Latest, now: int, expiry: int)
    requires Refines(s, a)
    requires forall u :: u in s.registered ==>
             (Fresh(s.registered[u], now, expiry) == [] <==> now - a.heartbeats[u].timestamp >= expiry)
    requires forall u :: u in s.registered && Fresh(s.registered[u], now, expiry) != [] ==>
             LastOf(Fresh(s.registered[u], now, expiry)) == a.heartbeats[u]
    ensures Refines(Handle(s, SweepHeartbeats(expiry), now), Track(a, SweepHeartbeats(expiry), now))
  {
    hide Fresh, LastOf;
    var t, b := Handle(s, SweepHeartbeats(expiry), now), Track(a, SweepHeartbeats(expiry), now);
    var expired := set u | u in a.heartbeats && now - a.heartbeats[u].timestamp >= expiry;
    assert expired == Silent(RetainFresh(s.registered, now, expiry));
    assert t.registered.Keys == b.heartbeats.Keys;
  }

  /** Over every run with a clock that never goes back: a collector is registered iff
      its latest heartbeat survived every later sweep, lookups return that heartbeat, no
      stored list is empty, and the expected collectors are the assigned ones that were
      never swept. */
  lemma {:induction false} HeartbeatsRefineLatest(config: Config, events: seq<Event>, now: int)
    requires Monotone(events) && (events != [] ==> events[|events| - 1].now <= now)
    ensures WellKept(After(config, events).registered, now)
    ensures Refines(After(config, events), Tracked(events)) && After(config, events).config == config
  {
    if events != [] {
      var n := |events| - 1;
      var t := events[n].now;
      assert n > 0 ==> events[..n][n - 1].now <= t;
      HeartbeatsRefineLatest(config, events[..n], t);
      hide Refines, WellKept, Track;
      StepKeepsWellKept(After(config, events[..n]), events[n].msg, t, t);
      StepRefines(After(config, events[..n]), Tracked(events[..n]), events[n].msg, t, t);
      WellKeptLater(After(config, events).registered, t, now);
    }
  }

  lemma WellKeptLater(registered: map<string, seq<Heartbeat>>, before: int, now: int)
    requires WellKept(registered, before) && before <= now
    ensures WellKept(registered, now)
  {
  }

  // ----- Heartbeats in terms of the messages alone

  /** Message `i` is the last heartbeat of `u` among the first `n`. */
  ghost predicate LastHeartbeatAt(events: seq<Event>, u: string, i: int, n: int) {
    && 0 <= i < n <= |events|
    && events[i].msg.AddCollector? && events[i].msg.info.uuid == u
    && forall j :: i < j < n ==> !(events[j].msg.AddCollector? && events[j].msg.info.uuid == u)
  }

  /** Message `j` is a sweep that finds a heartbeat sent with message `i` expired. */
  ghost predicate Expires(events: seq<Event>, i: int, j: int) {
    && 0 <= i < j < |events|
    && events[j].msg.SweepHeartbeats? && events[j].now - events[i].now >= events[j].msg.expiry
  }

  /** A collector is remembered with the heartbeat of message `i` iff that is its last one
      and no later sweep found it expired; it has been swept iff some sweep found the
      heartbeat that was its last one then expired. */
  lemma {:induction false} TrackedIff(events: seq<Event>, u: string, i: nat)
    requires i < |events| && LastHeartbeatAt(events, u, i, |events|)
    ensures u in Tracked(events).heartbeats <==> forall j :: i < j < |events| ==> !Expires(events, i, j)
    ensures u in Tracked(events).heartbeats ==>
              Tracked(events).heartbeats[u] == Heartbeat(events[i].msg.info, events[i].now)
  {
    var n := |events| - 1;
    var before := events[..n];
    if i < n {
      assert LastHeartbeatAt(before, u, i, n);
      TrackedIff(before, u, i);
      assert forall j :: i < j < n ==> (Expires(before, i, j) <==> Expires(events, i, j));
      assert (forall j :: i < j < |events| ==> !Expires(events, i, j)) <==>
             (forall j :: i < j < n ==> !Expires(before, i, j)) && !Expires(events, i, n);
    }
  }

  lemma {:induction false} NeverHeard(events: seq<Event>, u: string)
    requires forall i :: !LastHeartbeatAt(events, u, i, |events|)
    ensures u !in Tracked(events).heartbeats && u !in Tracked(events).swept
  {
    if events != [] {
      var n := |events| - 1;
      assert !LastHeartbeatAt(events, u, n, |events|);
      forall i ensures !LastHeartbeatAt(events[..n], u, i, n) {
        assert !LastHeartbeatAt(events, u, i, |events|);
      }
      NeverHeard(events[..n], u);
    }
  }

  /** Some sweep found the collector's last heartbeat at that time expired. */
  ghost predicate Swept(events: seq<Event>, u: string) {
    exists i, j :: LastHeartbeatAt(events, u, i, j) && Expires(events, i, j)
  }

  lemma {:induction false} SweptIff(events: seq<Event>, u: string)
    ensures u in Tracked(events).swept <==> Swept(events, u)
  {
    if events != [] {
      var n := |events| - 1;
      var before := events[..n];
      SweptIff(before, u);
      if i, j :| LastHeartbeatAt(before, u, i, j) && Expires(before, i, j) {
        assert LastHeartbeatAt(events, u, i, j) && Expires(events, i, j);
      }
      if i, j :| LastHeartbeatAt(events, u, i, j) && Expires(events, i, j) {
        if j < n {
          assert LastHeartbeatAt(before, u, i, j) && Expires(before, i, j);
        } else {
          LastSweep(events, u, i);
        }
      }
      if u in Tracked(events).swept && u !in Tracked(before).swept {
        var i := HeardBefore(before, u);
        TrackedIff(before, u, i);
        assert LastHeartbeatAt(events, u, i, n) && Expires(events, i, n);
      }
    }
  }

  lemma HeardBefore(events: seq<Event>, u: string) returns (i: nat)
    requires u in Tracked(events).heartbeats
    ensures i < |events| && LastHeartbeatAt(events, u, i, |events|)
  {
    if forall k :: !LastHeartbeatAt(events, u, k, |events|) {
      NeverHeard(events, u);
    }
    i :| LastHeartbeatAt(events, u, i, |events|);
  }

  /** A last message that is a sweep and finds the last heartbeat expired leaves the
      collector swept, now or before. */
  lemma LastSweep(events: seq<Event>, u: string, i: nat)
    requires events != [] && LastHeartbeatAt(events, u, i, |events| - 1) && Expires(events, i, |events| - 1)
    ensures u in Tracked(events).swept
    decreases |events|, 0
  {
    var n := |events| - 1;
    var before := events[..n];
    assert LastHeartbeatAt(before, u, i, n);
    TrackedIff(before, u, i);
    if u !in Tracked(before).heartbeats {
      var j :| i < j < n && Expires(before, i, j);
      SweptBefore(before, u, i, j);
    }
  }

  lemma {:induction false} SweptBefore(events: seq<Event>, u: string, i: nat, j: nat)
    requires LastHeartbeatAt(events, u, i, |events|) && i < j < |events| && Expires(events, i, j)
    ensures u in Tracked(events).swept
    decreases |events|, 1
  {
    var n := |events| - 1;
    if j < n {
      assert LastHeartbeatAt(events[..n], u, i, n) && Expires(events[..n], i, j);
      SweptBefore(events[..n], u, i, j);
    } else {
      LastSweep(events, u, i);
    }
  }

  /** The last heartbeat of `u` is that of message `i`, and no later sweep found it expired. */
  ghost predicate AliveSince(events: seq<Event>, u: string, i: int) {
    LastHeartbeatAt(events, u, i, |events|) && forall j :: i < j < |events| ==> !Expires(events, i, j)
  }

  /** With a clock that never goes back: a collector is registered, and answered as active,
      iff its last heartbeat was not found expired by a later sweep, and a lookup returns
      that heartbeat; it is expected iff it is assigned and was never swept. */
  lemma RegisteredIff(config: Config, events: seq<Event>, u: string, info: CollectorInfo)
    requires Monotone(events)
    ensures u in After(config, events).registered <==>
            exists i :: AliveSince(events, u, i)
    ensures forall i :: AliveSince(events, u, i) ==>
              ReplyTo(After(config, events), GetCollectorByUuid(u))
              == Found(Some(Heartbeat(events[i].msg.info, events[i].now)))
    ensures u in After(config, events).expected <==> u in config.collectorMapping && !Swept(events, u)
    ensures info.uuid == u ==>
              ReplyTo(After(config, events), AddCollector(info))
              == Status(if u in After(config, events).registered then Active else New)
  {
    HeartbeatsRefineLatest(config, events, if events == [] then 0 else events[|events| - 1].now);
    SweptIff(events, u);
    hide After, Tracked;
    if u in Tracked(events).heartbeats {
      var i := HeardBefore(events, u);
      TrackedIff(events, u, i);
      assert AliveSince(events, u, i);
    }
    forall i | AliveSince(events, u, i)
      ensures u in Tracked(events).heartbeats
      ensures Tracked(events).heartbeats[u] == Heartbeat(events[i].msg.info, events[i].now)
    {
      TrackedIff(events, u, i);
    }
  }

  /** Lookups answer from the plain map. */
  lemma LookupIsLatest(config: Config, events: seq<Event>, u: string)
    requires Monotone(events)
    ensures ReplyTo(After(config, events), GetCollectorByUuid(u))
            == Found(if u in Tracked(events).heartbeats then Some(Tracked(events).heartbeats[u]) else None)
  {
    HeartbeatsRefineLatest(config, events, if events == [] then 0 else events[|events| - 1].now);
  }

  // ----- Who is reported offline

  ghost predicate Registered(events: seq<Event>, u: string) {
    exists i :: 0 <= i < |events| && events[i].msg.AddCollector? && events[i].msg.info.uuid == u
  }

  /** The collectors that ever registered are those registered now or swept once. */
  lemma {:induction false} EverRegistered(events: seq<Event>, u: string)
    ensures Registered(events, u) <==> u in Tracked(events).heartbeats || u in Tracked(events).swept
  {
    if events != [] {
      var n := |events| - 1;
      EverRegistered(events[..n], u);
      assert events == events[..n] + [events[n]];
      if Registered(events[..n], u) {
        var i :| 0 <= i < n && events[..n][i].msg.AddCollector? && events[..n][i].msg.info.uuid == u;
        assert events[i].msg.info.uuid == u;
      }
      if Registered(events, u) {
        var i :| 0 <= i < |events| && events[i].msg.AddCollector? && events[i].msg.info.uuid == u;
        if i < n {
          assert events[..n][i].msg.info.uuid == u;
        }
      }
    }
  }

  /** The offline list of a status report: expected collectors not online.  The report
      asks for the online ones first (after `n` messages) and for the expected ones later
      (after all of them). */
  function Offline(config: Config, events: seq<Event>, n: nat): set<string>
    requires n <= |events|
  {
    After(config, events).expected - After(config, events[..n]).registered.Keys
  }

  /** A report lists only assigned collectors that had never registered when it began,
      and every assigned collector that has still not registered when it ends.  A
      collector that registered and then went silent is never reported. */
  lemma OfflineMeansNeverRegistered(config: Config, events: seq<Event>, n: nat, u: string)
    requires Monotone(events) && n <= |events|
    ensures u in Offline(config, events, n) ==> u in config.collectorMapping && !Registered(events[..n], u)
    ensures u in config.collectorMapping && !Registered(events, u) ==> u in Offline(config, events, n)
  {
    HeartbeatsRefineLatest(config, events, if events == [] then 0 else events[|events| - 1].now);
    HeartbeatsRefineLatest(config, events[..n], if n == 0 then 0 else events[n - 1].now);
    EverRegistered(events, u);
    EverRegistered(events[..n], u);
    SweptStaysSwept(events, n, u);
    assert Registered(events[..n], u) ==> Registered(events, u) by {
      if Registered(events[..n], u) {
        var i :| 0 <= i < n && events[..n][i].msg.AddCollector? && events[..n][i].msg.info.uuid == u;
        assert events[i].msg.info.uuid == u;
      }
    }
  }

  lemma {:induction false} SweptStaysSwept(events: seq<Event>, n: nat, u: string)
    requires n <= |events|
    ensures u in Tracked(events[..n]).swept ==> u in Tracked(events).swept
    decreases |events| - n
  {
    if n == |events| {
      assert events[..n] == events;
    } else {
      assert events[..n + 1][..n] == events[..n];
      SweptStaysSwept(events, n + 1, u);
    }
  }

  // ----- Uploads are conserved across dumps

  function PushedNodes(events: seq<Event>, u: string): seq<GossipNodeInfo> {
    if events == [] then []
    else
      var m := events[|events| - 1].msg;
      PushedNodes(events[..|events| - 1], u) + NodesIn(m, u)
  }

  function PushedChannels(events: seq<Event>, u: string): seq<ChannelInfo> {
    if events == [] then []
    else
      var m := events[|events| - 1].msg;
      PushedChannels(events[..|events| - 1], u) + ChannelsIn(m, u)
  }

  /** What the replies of a run carry for one collector, one after the other. */
  function RepliesFor(config: Config, events: seq<Event>, u: string): CollectorGraph {
    if events == [] then CollectorGraph([], [])
    else
      var before := events[..|events| - 1];
      var d := RepliesFor(config, before, u);
      var reply := ReplyTo(After(config, before), events[|events| - 1].msg);
      if reply.Dumped? && u in reply.graphs
      then CollectorGraph(d.nodes + reply.graphs[u].nodes, d.channels + reply.graphs[u].channels)
      else d
  }

  /** What one message pushes for a collector. */
  function NodesIn(m: Msg, u: string): seq<GossipNodeInfo> {
    if m.PushGossipNodes? && m.from == u then m.nodes else []
  }

  function ChannelsIn(m: Msg, u: string): seq<ChannelInfo> {
    if m.PushGossipChannels? && m.from == u then m.channels else []
  }

  lemma MessageAppends(s: State, m: Msg, now: int, u: string)
    ensures m.DumpCollectorGraphs? ==> GraphOf(Handle(s, m, now), u) == CollectorGraph([], [])
    ensures !m.DumpCollectorGraphs? ==>
              && GraphOf(Handle(s, m, now), u).nodes == GraphOf(s, u).nodes + NodesIn(m, u)
              && GraphOf(Handle(s, m, now), u).channels == GraphOf(s, u).channels + ChannelsIn(m, u)
  {
  }

  /** What a message adds to the replies for a collector was stored before it and is not
      stored after it. */
  lemma ReplyTakes(s: State, m: Msg, now: int, u: string)
    ensures m.DumpCollectorGraphs? <==> ReplyTo(s, m).Dumped?
    ensures ReplyTo(s, m).Dumped? && u in ReplyTo(s, m).graphs ==> ReplyTo(s, m).graphs[u] == GraphOf(s, u)
    ensures ReplyTo(s, m).Dumped? && u !in ReplyTo(s, m).graphs ==> GraphOf(s, u) == CollectorGraph([], [])
    ensures ReplyTo(s, m).Dumped? ==> GraphOf(Handle(s, m, now), u) == CollectorGraph([], [])
  {
  }

  /** For any interleaving of uploads from many collectors with dumps: what the callers of
      the dumps received for a collector, followed by what is stored for it now, is
      everything it pushed, in order. */
  lemma {:induction false} UploadsConserved(config: Config, events: seq<Event>, u: string)
    ensures RepliesFor(config, events, u).nodes + GraphOf(After(config, events), u).nodes == PushedNodes(events, u)
    ensures RepliesFor(config, events, u).channels + GraphOf(After(config, events), u).channels
            == PushedChannels(events, u)
  {
    if events != [] {
      var n := |events| - 1;
      UploadsConserved(config, events[..n], u);
      MessageAppends(After(config, events[..n]), events[n].msg, events[n].now, u);
      ReplyTakes(After(config, events[..n]), events[n].msg, events[n].now, u);
      assert events[n].msg.DumpCollectorGraphs? ==>
          NodesIn(events[n].msg, u) == [] && ChannelsIn(events[n].msg, u) == [];
      hide Handle, ReplyTo, GraphOf, NodesIn, ChannelsIn;
    }
  }

  ghost predicate NoDump(events: seq<Event>) {
    forall i :: 0 <= i < |events| ==> !events[i].msg.DumpCollectorGraphs?
  }

  /** While nothing is dumped, a collector's stored lists grow by exactly what it pushes,
      whatever other collectors do. */
  lemma {:induction false} UploadIsContiguous(config: Config, before: seq<Event>, during: seq<Event>, u: string)
    requires NoDump(during)
    ensures GraphOf(After(config, before + during), u).nodes
            == GraphOf(After(config, before), u).nodes + PushedNodes(during, u)
    ensures GraphOf(After(config, before + during), u).channels
            == GraphOf(After(config, before), u).channels + PushedChannels(during, u)
  {
    if during == [] {
      assert before + during == before;
    } else {
      var n := |during| - 1;
      var s, e := After(config, before + during[..n]), during[n];
      UploadIsContiguous(config, before, during[..n], u);
      UploadStep(config, before, during, u);
      var base, later := GraphOf(After(config, before), u), GraphOf(After(config, before + during), u);
      hide *;
      Appended(later.nodes, GraphOf(s, u).nodes, base.nodes,
               PushedNodes(during[..n], u), PushedNodes(during, u), NodesIn(e.msg, u));
      Appended(later.channels, GraphOf(s, u).channels, base.channels,
               PushedChannels(during[..n], u), PushedChannels(during, u), ChannelsIn(e.msg, u));
    }
  }

  lemma UploadStep(config: Config, before: seq<Event>, during: seq<Event>, u: string)
    requires during != [] && NoDump(during)
    ensures var n := |during| - 1;
            var s, t, m := GraphOf(After(config, before + during[..n]), u),
                GraphOf(After(config, before + during), u), during[n].msg;
            && t.nodes == s.nodes + NodesIn(m, u) && t.channels == s.channels + ChannelsIn(m, u)
            && PushedNodes(during, u) == PushedNodes(during[..n], u) + NodesIn(m, u)
            && PushedChannels(during, u) == PushedChannels(during[..n], u) + ChannelsIn(m, u)
  {
    var n := |during| - 1;
    assert before + during == (before + during[..n]) + [during[n]];
    AfterSnoc(config, before + during[..n], during[n]);
    hide After, Handle, GraphOf;
    MessageAppends(After(config, before + during[..n]), during[n].msg, during[n].now, u);
  }

  lemma Appended<T>(t: seq<T>, s: seq<T>, base: seq<T>, p: seq<T>, q: seq<T>, more: seq<T>)
    requires t == s + more && s == base + p && q == p + more
    ensures t == base + q
  {
  }

  lemma AfterSnoc(config: Config, events: seq<Event>, e: Event)
    ensures After(config, events + [e]) == Handle(After(config, events), e.msg, e.now)
  {
    assert (events + [e])[..|events|] == events;
  }

  /** The upload requests of one collector within an interleaving. */
  function RequestsOf(events: seq<Event>, u: string): seq<Msg> {
    if events == [] then []
    else
      var m := events[|events| - 1].msg;
      var mine := (m.PushGossipNodes? || m.PushGossipChannels?) && m.from == u;
      RequestsOf(events[..|events| - 1], u) + (if mine then [m] else [])
  }

  /** What a sequence of requests carries for a collector, per kind. */
  function NodesSent(requests: seq<Msg>, u: string): seq<GossipNodeInfo> {
    if requests == [] then [] else NodesSent(requests[..|requests| - 1], u) + NodesIn(requests[|requests| - 1], u)
  }

  function ChannelsSent(requests: seq<Msg>, u: string): seq<ChannelInfo> {
    if requests == [] then []
    else ChannelsSent(requests[..|requests| - 1], u) + ChannelsIn(requests[|requests| - 1], u)
  }

  lemma SentSnoc(requests: seq<Msg>, m: Msg, u: string)
    ensures NodesSent(requests + [m], u) == NodesSent(requests, u) + NodesIn(m, u)
    ensures ChannelsSent(requests + [m], u) == ChannelsSent(requests, u) + ChannelsIn(m, u)
  {
    assert (requests + [m])[..|requests|] == requests;
  }

  lemma {:induction false} OthersPushNothing(events: seq<Event>, u: string)
    ensures PushedNodes(events, u) == NodesSent(RequestsOf(events, u), u)
    ensures PushedChannels(events, u) == ChannelsSent(RequestsOf(events, u), u)
  {
    if events != [] {
      var n := |events| - 1;
      OthersPushNothing(events[..n], u);
      SentSnoc(RequestsOf(events[..n], u), events[n].msg, u);
      assert RequestsOf(events[..n], u) + [] == RequestsOf(events[..n], u);
    }
  }

  const GRAPH_CHUNK := 1024

  ghost predicate IsNodeChunk(m: Msg, u: string) {
    m.PushGossipNodes? && m.from == u && 0 < |m.nodes| <= 1024
  }

  ghost predicate IsChannelChunk(m: Msg, u: string) {
    m.PushGossipChannels? && m.from == u && 0 < |m.channels| <= 1024
  }

  /** The requests carry exactly the graph: first its nodes, then its channels, in chunks of
      which all but the last of a kind are full. */
  ghost predicate IsUpload(requests: seq<Msg>, u: string, nodes: seq<GossipNodeInfo>, channels: seq<ChannelInfo>) {
    && NodesSent(requests, u) == nodes && ChannelsSent(requests, u) == channels
    && (forall i :: 0 <= i < |requests| ==> IsNodeChunk(requests[i], u) || IsChannelChunk(requests[i], u))
    && (forall i, j :: 0 <= i < j < |requests| && requests[i].PushGossipChannels? ==> requests[j].PushGossipChannels?)
    && (forall i, j :: 0 <= i < j < |requests| ==> FullIfSameKind(requests[i], requests[j]))
  }

  ghost predicate FullIfSameKind(m: Msg, later: Msg) {
    && (m.PushGossipNodes? && later.PushGossipNodes? ==> |m.nodes| == 1024)
    && (m.PushGossipChannels? && later.PushGossipChannels? ==> |m.channels| == 1024)
  }

  /** What the uploader sends, interleaved with the messages of everybody else but a dump,
      appears whole and contiguous, per kind, at the end of that collector's lists. */
  lemma UploadArrivesWhole(config: Config, before: seq<Event>, during: seq<Event>, u: string,
                           nodes: seq<GossipNodeInfo>, channels: seq<ChannelInfo>)
    requires NoDump(during) && IsUpload(RequestsOf(during, u), u, nodes, channels)
    ensures var g := GraphOf(After(config, before), u);
            GraphOf(After(config, before + during), u) == CollectorGraph(g.nodes + nodes, g.channels + channels)
  {
    OthersPushNothing(during, u);
    UploadIsContiguous(config, before, during, u);
  }

  /** Requests that carry the nodes of an upload: chunks, all but the last one full. */
  ghost predicate NodeChunks(requests: seq<Msg>, u: string, nodes: seq<GossipNodeInfo>) {
    && NodesSent(requests, u) == nodes && ChannelsSent(requests, u) == []
    && (forall i :: 0 <= i < |requests| ==> IsNodeChunk(requests[i], u))
    && (forall i :: 0 <= i < |requests| - 1 ==> |requests[i].nodes| == 1024)
  }

  ghost predicate ChannelChunks(requests: seq<Msg>, u: string, channels: seq<ChannelInfo>) {
    && NodesSent(requests, u) == [] && ChannelsSent(requests, u) == channels
    && (forall i :: 0 <= i < |requests| ==> IsChannelChunk(requests[i], u))
    && (forall i :: 0 <= i < |requests| - 1 ==> |requests[i].channels| == 1024)
  }

  lemma NodeChunkSent(requests: seq<Msg>, u: string, nodes: seq<GossipNodeInfo>, i: nat, end: nat)
    requires i < end <= |nodes| && end - i <= 1024 && NodeChunks(requests, u, nodes[..i])
    requires requests != [] ==> |requests[|requests| - 1].nodes| == 1024
    ensures NodeChunks(requests + [PushGossipNodes(u, nodes[i..end])], u, nodes[..end])
  {
    SentSnoc(requests, PushGossipNodes(u, nodes[i..end]), u);
    hide NodesSent, ChannelsSent;
    assert nodes[..end] == nodes[..i] + nodes[i..end];
  }

  lemma ChannelChunkSent(requests: seq<Msg>, u: string, channels: seq<ChannelInfo>, i: nat, end: nat)
    requires i < end <= |channels| && end - i <= 1024 && ChannelChunks(requests, u, channels[..i])
    requires requests != [] ==> |requests[|requests| - 1].channels| == 1024
    ensures ChannelChunks(requests + [PushGossipChannels(u, channels[i..end])], u, channels[..end])
  {
    SentSnoc(requests, PushGossipChannels(u, channels[i..end]), u);
    hide NodesSent, ChannelsSent;
    assert channels[..end] == channels[..i] + channels[i..end];
  }

  /** The uploader's loop over the nodes. */
  method SendNodes(u: string, nodes: seq<GossipNodeInfo>) returns (requests: seq<Msg>)
    ensures NodeChunks(requests, u, nodes)
  {
    requests := [];
    var i := 0;
    while i < |nodes|
      invariant 0 <= i <= |nodes| && NodeChunks(requests, u, nodes[..i])
      invariant i < |nodes| && requests != [] ==> |requests[|requests| - 1].nodes| == 1024
    {
      hide NodesSent, ChannelsSent;
      var end := if i + GRAPH_CHUNK <= |nodes| then i + GRAPH_CHUNK else |nodes|;
      NodeChunkSent(requests, u, nodes, i, end);
      requests := requests + [PushGossipNodes(u, nodes[i..end])];
      i := end;
    }
    assert nodes[..|nodes|] == nodes;
  }

  /** The uploader's loop over the channels. */
  method SendChannels(u: string, channels: seq<ChannelInfo>) returns (requests: seq<Msg>)
    ensures ChannelChunks(requests, u, channels)
  {
    requests := [];
    var i := 0;
    while i < |channels|
      invariant 0 <= i <= |channels| && ChannelChunks(requests, u, channels[..i])
      invariant i < |channels| && requests != [] ==> |requests[|requests| - 1].channels| == 1024
    {
      hide NodesSent, ChannelsSent;
      var end := if i + GRAPH_CHUNK <= |channels| then i + GRAPH_CHUNK else |channels|;
      ChannelChunkSent(requests, u, channels, i, end);
      requests := requests + [PushGossipChannels(u, channels[i..end])];
      i := end;
    }
    assert channels[..|channels|] == channels;
  }

  lemma {:induction false} SentConcat(a: seq<Msg>, b: seq<Msg>, u: string)
    ensures NodesSent(a + b, u) == NodesSent(a, u) + NodesSent(b, u)
    ensures ChannelsSent(a + b, u) == ChannelsSent(a, u) + ChannelsSent(b, u)
  {
    if b == [] {
      assert a + b == a;
    } else {
      var n := |b| - 1;
      assert a + b == (a + b[..n]) + [b[n]] && b == b[..n] + [b[n]];
      SentConcat(a, b[..n], u);
      SentSnoc(a + b[..n], b[n], u);
    }
  }

  /** The uploader: node chunks, then channel chunks, each in its own request. */
  method SendGossipGraph(u: string, nodes: seq<GossipNodeInfo>, channels: seq<ChannelInfo>)
    returns (requests: seq<Msg>)
    ensures IsUpload(requests, u, nodes, channels)
  {
    var first := SendNodes(u, nodes);
    var second := SendChannels(u, channels);
    SentConcat(first, second, u);
    requests := first + second;
    hide NodesSent, ChannelsSent;
  }
}
