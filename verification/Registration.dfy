/**
 The registration protocol: the collector's ping loop (gossip_collector/src/main.rs),
 the controller's answer to a register or heartbeat call
 (observer_controller/src/collector_manager.rs), and the peer list it sends back
 (observer_controller/src/grpc_server.rs).
 */
module Registration {
  import opened Prelude
  import opened Text
  import opened CollectorManager
  import PC = PeerConn

  // ----- Controller: what a collector is answered

  datatype Assignment = Assignment(stats: CommunityStats, members: seq<MemberRecord>)

  function AssignmentOf(config: Config, u: string): Option<Assignment> {
    if u !in config.collectorMapping then None
    else
      var c := config.collectorMapping[u];
      if c !in config.communityStats then None
      else if c !in config.communityMembers then None
      else Some(Assignment(config.communityStats[c], config.communityMembers[c]))
  }

  /** The answer to a collector that is given its assignment, the members shuffled. */
  function Shuffled(a: Option<Assignment>, shuffle: seq<MemberRecord> -> seq<MemberRecord>): Option<Assignment> {
    if a.None? then None else Some(a.value.(members := shuffle(a.value.members)))
  }

  /** A collector has an assignment iff it is mapped to a community whose statistics and
      members are configured, and gets those of that community. */
  lemma AssignmentIff(config: Config, u: string, a: Assignment)
    ensures AssignmentOf(config, u) == Some(a) <==>
            && u in config.collectorMapping
            && config.collectorMapping[u] in config.communityStats
            && config.collectorMapping[u] in config.communityMembers
            && a.stats == config.communityStats[config.collectorMapping[u]]
            && a.members == config.communityMembers[config.collectorMapping[u]]
  {
  }

  /** Records the heartbeat, then answers with the shuffled assignment unless this is a
      heartbeat of an already active collector. */
  method HandleCollectorInfo(mgr: Manager, info: CollectorInfo, provideInfo: bool, now: int,
                             shuffle: seq<MemberRecord> -> seq<MemberRecord>) returns (answer: Option<Assignment>)
    modifies mgr
    ensures mgr.View() == Handle(old(mgr.View()), AddCollector(info), now)
    ensures answer == if old(info.uuid in mgr.registeredCollectors) && !provideInfo then None
                      else Shuffled(AssignmentOf(mgr.config, info.uuid), shuffle)
  {
    var reply := mgr.HandleMsg(AddCollector(info), now);
    if reply == Status(Active) && !provideInfo {
      return None;
    }
    if info.uuid !in mgr.config.collectorMapping {
      return None;
    }
    var community := mgr.config.collectorMapping[info.uuid];
    if community !in mgr.config.communityStats {
      return None;
    }
    if community !in mgr.config.communityMembers {
      return None;
    }
    answer := Some(Assignment(mgr.config.communityStats[community], shuffle(mgr.config.communityMembers[community])));
  }

  // ----- Controller: from member records to the peer list

  /** Parsers of key and address text. */
  datatype Parsers = Parsers(key: string -> Option<string>, addr: string -> Option<string>)

  predicate HasSockets(r: MemberRecord) {
    r.sockets.Some? && r.sockets.value != ""
  }

  function TrimLeft(s: string, c: char): string {
    if s != "" && s[0] == c then TrimLeft(s[1..], c) else s
  }

  function TrimRight(s: string, c: char): string {
    if s != "" && s[|s| - 1] == c then TrimRight(s[..|s| - 1], c) else s
  }

  function AddressTexts(sockets: string): seq<string> {
    Split(TrimRight(TrimLeft(sockets, '"'), '"'), ',')
  }

  /** All conversions succeed, or none counts. */
  function ParseAll(parse: string -> Option<string>, texts: seq<string>): Option<seq<string>> {
    if texts == [] then Some([])
    else
      var before := ParseAll(parse, texts[..|texts| - 1]);
      var last := parse(texts[|texts| - 1]);
      if before.None? || last.None? then None else Some(before.value + [last.value])
  }

  function ToPeer(parsers: Parsers, r: MemberRecord): Option<PC.Peer>
    requires HasSockets(r)
  {
    var key, addrs := parsers.key(r.pubkey), ParseAll(parsers.addr, AddressTexts(r.sockets.value));
    if key.None? || addrs.None? then None else Some(PC.Peer(key.value, addrs.value))
  }

  /** Records without sockets are filtered out and peers that do not convert skipped. */
  function PeerList(parsers: Parsers, members: seq<MemberRecord>): seq<PC.Peer> {
    if members == [] then []
    else
      var before, r := PeerList(parsers, members[..|members| - 1]), members[|members| - 1];
      if HasSockets(r) && ToPeer(parsers, r).Some? then before + [ToPeer(parsers, r).value] else before
  }

  lemma {:induction false} ParseAllIff(parse: string -> Option<string>, texts: seq<string>)
    ensures ParseAll(parse, texts).Some? <==> forall i :: 0 <= i < |texts| ==> parse(texts[i]).Some?
    ensures ParseAll(parse, texts).Some? ==>
              && |ParseAll(parse, texts).value| == |texts|
              && forall i :: 0 <= i < |texts| ==> parse(texts[i]) == Some(ParseAll(parse, texts).value[i])
  {
    if texts != [] {
      ParseAllIff(parse, texts[..|texts| - 1]);
    }
  }

  /** The member has sockets, and its key and every one of its addresses parse. */
  ghost predicate Usable(parsers: Parsers, r: MemberRecord, key: string) {
    && HasSockets(r) && parsers.key(r.pubkey) == Some(key)
    && forall i :: 0 <= i < |AddressTexts(r.sockets.value)| ==> parsers.addr(AddressTexts(r.sockets.value)[i]).Some?
  }

  lemma UsableIffConverts(parsers: Parsers, r: MemberRecord, key: string)
    ensures Usable(parsers, r, key) <==>
            HasSockets(r) && ToPeer(parsers, r).Some? && ToPeer(parsers, r).value.pubkey == key
  {
    if HasSockets(r) {
      ParseAllIff(parsers.addr, AddressTexts(r.sockets.value));
    }
  }

  // ----- What is delivered

  function Quotes(n: nat): string {
    if n == 0 then "" else Quotes(n - 1) + ['"']
  }

  /** The address texts of a member are what its sockets text joins with commas, however many
      quotes are left around it. */
  lemma AddressTextsOf(texts: seq<string>, n: nat, m: nat)
    requires texts != [] && forall t :: t in texts ==> ',' !in t && '"' !in t
    ensures AddressTexts(Quotes(n) + Join(texts, ',') + Quotes(m)) == texts
  {
    JoinContains(texts, ',', '"');
    SplitJoin(texts, ',');
    TrimQuoted(Join(texts, ','), n, m);
  }

  lemma TrimQuoted(s: string, n: nat, m: nat)
    requires '"' !in s
    ensures TrimRight(TrimLeft(Quotes(n) + s + Quotes(m), '"'), '"') == s
  {
    TrimUnquoted(s);
    TrimLeftQuotes(n, s + Quotes(m));
    assert Quotes(n) + (s + Quotes(m)) == Quotes(n) + s + Quotes(m);
    TrimRightQuotes(s, m);
    if s == "" {
      assert s + Quotes(m) == Quotes(m) + "";
      TrimLeftQuotes(m, "");
    } else {
      assert (s + Quotes(m))[0] == s[0] && s[0] in s;
    }
  }

  lemma {:induction false} TrimLeftQuotes(n: nat, rest: string)
    ensures TrimLeft(Quotes(n) + rest, '"') == TrimLeft(rest, '"')
  {
    if n == 0 {
      assert Quotes(n) + rest == rest;
    } else {
      assert Quotes(n) + rest == Quotes(n - 1) + (['"'] + rest);
      TrimLeftQuotes(n - 1, ['"'] + rest);
      assert (['"'] + rest)[1..] == rest;
    }
  }

  lemma {:induction false} TrimRightQuotes(s: string, m: nat)
    ensures TrimRight(s + Quotes(m), '"') == TrimRight(s, '"')
  {
    if m == 0 {
      assert s + Quotes(m) == s;
    } else {
      var q := s + Quotes(m);
      assert q[..|q| - 1] == s + Quotes(m - 1);
      TrimRightQuotes(s, m - 1);
    }
  }

  lemma TrimUnquoted(s: string)
    requires '"' !in s
    ensures TrimLeft(s, '"') == s && TrimRight(s, '"') == s
  {
    if s != "" {
      assert s[0] in s && s[|s| - 1] in s;
    }
  }

  /** `p` is the peer of a member: the key its text parses to, and for every one of its
      address texts, in order, the address that parses to. */
  ghost predicate PeerOf(parsers: Parsers, r: MemberRecord, p: PC.Peer) {
    && r.sockets.Some? && r.sockets.value != ""
    && parsers.key(r.pubkey) == Some(p.pubkey)
    && |p.addrs| == |AddressTexts(r.sockets.value)|
    && forall i :: 0 <= i < |p.addrs| ==> parsers.addr(AddressTexts(r.sockets.value)[i]) == Some(p.addrs[i])
  }

  lemma ConvertsToPeerOf(parsers: Parsers, r: MemberRecord, p: PC.Peer)
    ensures PeerOf(parsers, r, p) <==> HasSockets(r) && ToPeer(parsers, r) == Some(p)
  {
    if HasSockets(r) {
      var texts := AddressTexts(r.sockets.value);
      ParseAllIff(parsers.addr, texts);
      if PeerOf(parsers, r, p) {
        assert forall i :: 0 <= i < |texts| ==> parsers.addr(texts[i]).Some?;
        assert ParseAll(parsers.addr, texts).value == p.addrs;
      }
    }
  }

  /** The peer list selects exactly the members that have a peer, in order, and holds their
      peers. */
  lemma {:induction false} PeerListSelects(parsers: Parsers, members: seq<MemberRecord>) returns (positions: seq<nat>)
    ensures |positions| == |PeerList(parsers, members)| && Increasing(positions, |members|)
    ensures forall i :: 0 <= i < |positions| ==> PeerOf(parsers, members[positions[i]], PeerList(parsers, members)[i])
    ensures forall j :: 0 <= j < |members| ==> (j in positions <==> exists p :: PeerOf(parsers, members[j], p))
  {
    positions := [];
    if members != [] {
      var n := |members| - 1;
      var r := members[n];
      positions := PeerListSelects(parsers, members[..n]);
      IncreasingSnoc(positions, n);
      assert forall j :: 0 <= j < n ==> members[..n][j] == members[j];
      forall p ensures PeerOf(parsers, r, p) <==> HasSockets(r) && ToPeer(parsers, r) == Some(p) {
        ConvertsToPeerOf(parsers, r, p);
      }
      hide ToPeer, HasSockets, PeerOf;
      if HasSockets(r) && ToPeer(parsers, r).Some? {
        assert PeerOf(parsers, r, ToPeer(parsers, r).value);
        positions := positions + [n];
      }
    }
  }

  /** Every listed peer is some member's. */
  lemma ListedPeer(parsers: Parsers, members: seq<MemberRecord>, p: PC.Peer)
    requires p in PeerList(parsers, members)
    ensures exists r :: r in members && PeerOf(parsers, r, p)
  {
    var positions := PeerListSelects(parsers, members);
    var i :| 0 <= i < |PeerList(parsers, members)| && PeerList(parsers, members)[i] == p;
    hide PeerOf, PeerList;
    assert members[positions[i]] in members;
  }

  /** A key reaches the peer list iff some member with it is usable: one address that
      does not parse drops the whole member. */
  lemma {:induction false} PeerListed(parsers: Parsers, members: seq<MemberRecord>, key: string)
    ensures key in PC.PubkeysOf(PeerList(parsers, members)) <==> exists r :: r in members && Usable(parsers, r, key)
  {
    if members != [] {
      var n := |members| - 1;
      var r := members[n];
      PeerListed(parsers, members[..n], key);
      UsableIffConverts(parsers, r, key);
      assert members == members[..n] + [r];
      hide ToPeer, Usable, HasSockets;
      var before := PeerList(parsers, members[..n]);
      if HasSockets(r) && ToPeer(parsers, r).Some? {
        var p := ToPeer(parsers, r).value;
        assert PC.PubkeysOf(before + [p]) == PC.PubkeysOf(before) + {p.pubkey} by {
          forall q | q in before ensures q in before + [p] {
          }
          assert p in before + [p];
        }
      }
    }
  }

  // ----- Registering, end to end

  datatype Collector = Collector(peers: PC.State, targetPeerCount: nat)

  /** The collector after the controller's reply. */
  function Delivered(parsers: Parsers, c: Collector, answer: Option<Assignment>): Collector {
    if answer.None? then c
    else Collector(PC.AddAll(c.peers, PeerList(parsers, answer.value.members)), answer.value.stats.connectionCount)
  }

  /** The controller's reply: the peer list in chunks, then the target count. */
  method RegistrationReply(parsers: Parsers, a: Assignment, c: Collector) returns (d: Collector)
    ensures d == Delivered(parsers, c, Some(a))
    ensures d.peers.eligible == c.peers.eligible + PC.NewPeers(c.peers.pubkeys, PeerList(parsers, a.members))
    ensures d.peers.pubkeys == c.peers.pubkeys + PC.PubkeysOf(PeerList(parsers, a.members))
    ensures d.peers.pending == c.peers.pending && d.peers.filter == c.peers.filter
  {
    var peers := PC.DeliverPeers(c.peers, PeerList(parsers, a.members));
    d := Collector(peers, a.stats.connectionCount);
  }

  /** A register call: whether new or already active, a collector with a configured
      mapping, stats and members has afterwards the community's target and, besides the
      peers it had, exactly the community's usable members. */
  method Register(mgr: Manager, info: CollectorInfo, now: int, parsers: Parsers,
                  shuffle: seq<MemberRecord> -> seq<MemberRecord>, c: Collector) returns (ok: bool, d: Collector)
    requires forall s :: multiset(shuffle(s)) == multiset(s)
    modifies mgr
    ensures mgr.View() == Handle(old(mgr.View()), AddCollector(info), now)
    ensures ok <==> AssignmentOf(mgr.config, info.uuid).Some?
    ensures d == Delivered(parsers, c, Shuffled(AssignmentOf(mgr.config, info.uuid), shuffle))
    ensures ok ==> var a := AssignmentOf(mgr.config, info.uuid).value;
                   && d.targetPeerCount == a.stats.connectionCount
                   && c.peers.eligible <= d.peers.eligible
                   && d.peers.pubkeys == c.peers.pubkeys + PC.PubkeysOf(PeerList(parsers, a.members))
                   && forall p :: p in d.peers.eligible && p !in c.peers.eligible ==>
                        exists r :: r in a.members && PeerOf(parsers, r, p)
  {
    var answer := HandleCollectorInfo(mgr, info, true, now, shuffle);
    ok, d := answer.Some?, c;
    if ok {
      d := RegistrationReply(parsers, answer.value, c);
      var a := AssignmentOf(mgr.config, info.uuid).value;
      SamePubkeys(parsers, answer.value.members, a.members);
      DeliveredPeers(parsers, c, answer.value, a.members);
    }
  }

  /** What a delivery adds to the queue are peers of members. */
  lemma DeliveredPeers(parsers: Parsers, c: Collector, a: Assignment, members: seq<MemberRecord>)
    requires multiset(a.members) == multiset(members)
    ensures forall p :: p in Delivered(parsers, c, Some(a)).peers.eligible && p !in c.peers.eligible ==>
              exists r :: r in members && PeerOf(parsers, r, p)
  {
    var list := PeerList(parsers, a.members);
    PC.AddAllAppendsNew(c.peers, list);
    hide PeerOf, PeerList;
    forall p | p in Delivered(parsers, c, Some(a)).peers.eligible && p !in c.peers.eligible
      ensures exists r :: r in members && PeerOf(parsers, r, p)
    {
      PC.NewPeersListed(c.peers.pubkeys, list, p);
      ListedPeer(parsers, a.members, p);
      var r :| r in a.members && PeerOf(parsers, r, p);
      assert r in multiset(members);
    }
  }

  /** The set of listed keys does not depend on the shuffle. */
  lemma SamePubkeys(parsers: Parsers, a: seq<MemberRecord>, b: seq<MemberRecord>)
    requires multiset(a) == multiset(b)
    ensures PC.PubkeysOf(PeerList(parsers, a)) == PC.PubkeysOf(PeerList(parsers, b))
  {
    forall r ensures r in a <==> r in b {
      assert r in multiset(a) <==> r in multiset(b);
    }
    forall k ensures k in PC.PubkeysOf(PeerList(parsers, a)) <==> k in PC.PubkeysOf(PeerList(parsers, b)) {
      PeerListed(parsers, a, k);
      PeerListed(parsers, b, k);
    }
  }

  // ----- Collector: the ping loop

  datatype Phase = Running | ReceivedPeers | Connecting | ActivePhase

  /** What one iteration observes: whether the controller can be reached, and counts. */
  datatype Observation = Observation(reachable: bool, peerCount: nat, targetCount: nat, eligiblePeers: nat)

  datatype Call = NoCall | RegisterCall | HeartbeatCall

  class PingLoop {
    var phase: Phase

    constructor ()
      ensures phase == Running
    {
      phase := Running;
    }

    /** One iteration after its sleep. */
    method Iterate(o: Observation) returns (call: Call)
      modifies this
      ensures phase == NextPhase(old(phase), o) && call == CallMade(old(phase), o)
    {
      call := NoCall;
      if !o.reachable {
        return;
      }
      match phase {
        case Running =>
          if o.eligiblePeers > 0 {
            phase := ReceivedPeers;
          } else {
            return RegisterCall;
          }
        case ReceivedPeers =>
          if o.peerCount > 0 {
            phase := Connecting;
          }
        case Connecting =>
          if o.peerCount >= o.targetCount {
            phase := ActivePhase;
          }
        case ActivePhase =>
          if o.peerCount < o.targetCount {
            phase := Connecting;
          }
      }
      if o.eligiblePeers == 0 {
        phase := Running;
        return;
      }
      call := HeartbeatCall;
    }
  }

  /** The phase after an iteration: no peer list means starting over; otherwise the loop
      advances by at most one phase, and falls back from Active when peers are lost. */
  function NextPhase(p: Phase, o: Observation): Phase {
    if !o.reachable then p
    else if o.eligiblePeers == 0 then Running
    else match p
      case Running => ReceivedPeers
      case ReceivedPeers => if o.peerCount > 0 then Connecting else ReceivedPeers
      case Connecting => if o.peerCount >= o.targetCount then ActivePhase else Connecting
      case ActivePhase => if o.peerCount < o.targetCount then Connecting else ActivePhase
  }

  function CallMade(p: Phase, o: Observation): Call {
    if !o.reachable then NoCall
    else if o.eligiblePeers > 0 then HeartbeatCall
    else if p == Running then RegisterCall
    else NoCall
  }

  function PhaseAfter(obs: seq<Observation>): Phase {
    if obs == [] then Running else NextPhase(PhaseAfter(obs[..|obs| - 1]), obs[|obs| - 1])
  }

  /** In every run, after an iteration that reaches the controller: the loop is in its
      first phase iff there are no eligible peers, a heartbeat was sent iff there are
      some, and the active phase means the target is met. */
  lemma PhaseInvariant(obs: seq<Observation>, o: Observation)
    requires o.reachable
    ensures PhaseAfter(obs + [o]) == Running <==> o.eligiblePeers == 0
    ensures CallMade(PhaseAfter(obs), o) == HeartbeatCall <==> o.eligiblePeers > 0
    ensures PhaseAfter(obs + [o]) == ActivePhase ==> o.peerCount >= o.targetCount
  {
    assert (obs + [o])[..|obs|] == obs;
  }

  ghost predicate Unreachable(obs: seq<Observation>) {
    forall i :: 0 <= i < |obs| ==> !obs[i].reachable
  }

  lemma {:induction false} UnreachableKeepsPhase(obs: seq<Observation>, gap: seq<Observation>)
    requires Unreachable(gap)
    ensures PhaseAfter(obs + gap) == PhaseAfter(obs)
  {
    if gap == [] {
      assert obs + gap == obs;
    } else {
      var n := |gap| - 1;
      assert (obs + gap)[..|obs + gap| - 1] == obs + gap[..n];
      UnreachableKeepsPhase(obs, gap[..n]);
    }
  }

  /** Of two consecutive reachable iterations without eligible peers, whatever failed
      connections lie between them, the second registers. */
  lemma EmptyListRegisters(obs: seq<Observation>, a: Observation, gap: seq<Observation>, b: Observation)
    requires a.reachable && b.reachable && a.eligiblePeers == b.eligiblePeers == 0 && Unreachable(gap)
    ensures CallMade(PhaseAfter(obs + [a] + gap), b) == RegisterCall
  {
    PhaseInvariant(obs, a);
    UnreachableKeepsPhase(obs + [a], gap);
  }

  /** Iteration `i` was the last one to reach the controller. */
  ghost predicate LastReached(obs: seq<Observation>, i: int) {
    0 <= i < |obs| && obs[i].reachable && forall j :: i < j < |obs| ==> !obs[j].reachable
  }

  /** The phase is the first one iff the controller was never reached or there were no peers
      when it was reached last. */
  lemma {:induction false} RunningIff(obs: seq<Observation>)
    ensures PhaseAfter(obs) == Running <==> forall i :: LastReached(obs, i) ==> obs[i].eligiblePeers == 0
  {
    if obs != [] {
      var n := |obs| - 1;
      var before, o := obs[..n], obs[n];
      assert obs == before + [o];
      if o.reachable {
        PhaseInvariant(before, o);
        assert LastReached(obs, n);
      } else {
        RunningIff(before);
        assert forall i :: LastReached(obs, i) <==> LastReached(before, i);
        assert forall i :: 0 <= i < n ==> before[i] == obs[i];
      }
    }
  }

  /** An iteration registers iff it reaches the controller without peers and there were none
      either when the controller was reached last, if ever. */
  lemma RegistersIff(obs: seq<Observation>, o: Observation)
    ensures CallMade(PhaseAfter(obs), o) == RegisterCall <==>
            && o.reachable && o.eligiblePeers == 0
            && forall i :: LastReached(obs, i) ==> obs[i].eligiblePeers == 0
    ensures CallMade(PhaseAfter(obs), o) == HeartbeatCall <==> o.reachable && o.eligiblePeers > 0
  {
    RunningIff(obs);
  }

  /** With peers eligible, the loop stays where it is exactly while it waits for its first
      connection, for enough connections, or has enough; otherwise it moves. */
  lemma StaysIff(p: Phase, o: Observation)
    requires o.reachable && o.eligiblePeers > 0
    ensures NextPhase(p, o) == p <==>
            || (p == ReceivedPeers && o.peerCount == 0)
            || (p == Connecting && o.peerCount < o.targetCount)
            || (p == ActivePhase && o.peerCount >= o.targetCount)
    ensures p == ActivePhase && NextPhase(p, o) != p ==> NextPhase(p, o) == Connecting
  {
  }

  function Rank(p: Phase): nat {
    match p
    case Running => 0
    case ReceivedPeers => 1
    case Connecting => 2
    case ActivePhase => 3
  }

  /** The counts the loop waits for. */
  ghost predicate Sufficient(o: Observation) {
    o.reachable ==> o.eligiblePeers > 0 && o.peerCount > 0 && o.peerCount >= o.targetCount
  }

  function ReachedIn(obs: seq<Observation>): nat {
    if obs == [] then 0 else ReachedIn(obs[..|obs| - 1]) + (if obs[|obs| - 1].reachable then 1 else 0)
  }

  /** While the counts allow it, the loop advances one phase with every iteration that
      reaches the controller, up to the active one and no further. */
  lemma {:induction false} AdvancesToActive(obs: seq<Observation>, more: seq<Observation>)
    requires forall i :: 0 <= i < |more| ==> Sufficient(more[i])
    ensures var rank := Rank(PhaseAfter(obs)) + ReachedIn(more);
            Rank(PhaseAfter(obs + more)) == if rank < 3 then rank else 3
  {
    if more == [] {
      assert obs + more == obs;
    } else {
      var n := |more| - 1;
      assert (obs + more)[..|obs + more| - 1] == obs + more[..n];
      AdvancesToActive(obs, more[..n]);
      assert Sufficient(more[n]);
    }
  }

  // ----- Collector and controller together

  /** What an iteration of the ping loop reads before it connects. */
  datatype Counts = Counts(peerCount: nat, targetCount: nat, eligiblePeers: nat)

  datatype System = System(phase: Phase, collector: Collector, counts: Option<Counts>)

  datatype Step =
    /** The loop reads its counts. */
    | Look(peerCount: nat)
    /** The loop tries to connect and acts on what it read; `known` says whether the
        controller has the collector registered, `members` is its shuffled list. */
    | Act(reachable: bool, known: bool, members: seq<MemberRecord>)
    /** The peer-connection manager handles a message of another task. */
    | Mailbox(msg: PC.Msg, now: int)

  function ObservationOf(reachable: bool, n: Counts): Observation {
    Observation(reachable, n.peerCount, n.targetCount, n.eligiblePeers)
  }

  function Read(c: Collector, peerCount: nat): Counts {
    Counts(peerCount % PC.U32_RANGE, c.targetPeerCount % PC.U32_RANGE, PC.ReplyTo(c.peers, PC.GetEligibleCount).n)
  }

  /** A register call is answered with the assignment, a heartbeat only if the controller
      does not know the collector. */
  predicate Served(call: Call, known: bool) {
    call == RegisterCall || (call == HeartbeatCall && !known)
  }

  predicate Enabled(w: System, a: Step) {
    match a
    case Look(_) => w.counts.None?
    case Act(_, _, _) => w.counts.Some?
    case Mailbox(_, _) => true
  }

  function Apply(parsers: Parsers, a: Option<Assignment>, w: System, step: Step): System
    requires Enabled(w, step)
  {
    match step
    case Look(n) => w.(counts := Some(Read(w.collector, n)))
    case Act(reachable, known, members) =>
      var o := ObservationOf(reachable, w.counts.value);
      var answer := if a.None? then None else Some(a.value.(members := members));
      System(NextPhase(w.phase, o),
             if Served(CallMade(w.phase, o), known) then Delivered(parsers, w.collector, answer) else w.collector,
             None)
    case Mailbox(m, now) => w.(collector := w.collector.(peers := PC.Handle(w.collector.peers, m, now)))
  }

  /** The collector is given its assignment exactly when it registers, or sends a heartbeat
      to a controller that does not know it; nothing else changes it. */
  lemma GivenIff(parsers: Parsers, a: Assignment, w: System, reachable: bool, known: bool, members: seq<MemberRecord>)
    requires w.counts.Some?
    ensures var given := reachable && (if w.counts.value.eligiblePeers == 0 then w.phase == Running else !known);
            Apply(parsers, Some(a), w, Act(reachable, known, members)).collector
            == if given then Delivered(parsers, w.collector, Some(a.(members := members))) else w.collector
    ensures Apply(parsers, None, w, Act(reachable, known, members)).collector == w.collector
  {
    assert Delivered(parsers, w.collector, None) == w.collector;
    hide Delivered, NextPhase;
  }

  /** The loop reads the queue it has: it sees no peers iff the queue's length is a multiple
      of 2^32, and the target last set, as 32-bit numbers. */
  lemma LookReads(parsers: Parsers, a: Option<Assignment>, w: System, n: nat)
    requires w.counts.None?
    ensures var c := Apply(parsers, a, w, Look(n)).counts;
            && c.Some?
            && (c.value.eligiblePeers == 0 <==> |w.collector.peers.eligible| % 0x1_0000_0000 == 0)
            && (|w.collector.peers.eligible| < 0x1_0000_0000 ==>
                  c.value.eligiblePeers == |w.collector.peers.eligible|)
            && (w.collector.targetPeerCount < 0x1_0000_0000 ==> c.value.targetCount == w.collector.targetPeerCount)
            && (n < 0x1_0000_0000 ==> c.value.peerCount == n)
  {
  }

  /** Other tasks act on the same queue, and do nothing to the loop. */
  lemma MailboxHandled(parsers: Parsers, a: Option<Assignment>, w: System, m: PC.Msg, now: int)
    ensures var v := Apply(parsers, a, w, Mailbox(m, now));
            && v.collector.peers == PC.Handle(w.collector.peers, m, now)
            && v.collector.targetPeerCount == w.collector.targetPeerCount
            && v.phase == w.phase && v.counts == w.counts
  {
  }

  /** The second half of an iteration on the real loop and controller. */
  method ConnectAndAct(loop: PingLoop, mgr: Manager, info: CollectorInfo, now: int, parsers: Parsers, reachable: bool,
                       shuffle: seq<MemberRecord> -> seq<MemberRecord>, counts: Counts, c: Collector)
    returns (d: Collector)
    requires forall s :: multiset(shuffle(s)) == multiset(s)
    modifies loop, mgr
    ensures var a := AssignmentOf(mgr.config, info.uuid);
            var step := Act(reachable, old(info.uuid in mgr.registeredCollectors),
                            if a.Some? then shuffle(a.value.members) else []);
            System(loop.phase, d, None) == Apply(parsers, a, System(old(loop.phase), c, Some(counts)), step)
  {
    d := c;
    var call := loop.Iterate(ObservationOf(reachable, counts));
    if call == RegisterCall {
      var ok;
      ok, d := Register(mgr, info, now, parsers, shuffle, c);
    } else if call == HeartbeatCall {
      var answer := HandleCollectorInfo(mgr, info, false, now, shuffle);
      if answer.Some? {
        d := RegistrationReply(parsers, answer.value, c);
      }
    }
  }

  /** The step keeps the members the controller has configured, and no other task adds to
      the peer list or empties it. */
  ghost predicate Quiet(a: Assignment, step: Step) {
    match step
    case Look(_) => true
    case Act(_, _, members) => multiset(members) == multiset(a.members)
    case Mailbox(m, _) => !m.AddEligible? && !m.EmptyEligible?
  }

  ghost predicate IsRun(parsers: Parsers, a: Assignment, run: seq<System>, steps: seq<Step>) {
    && |run| == |steps| + 1
    && forall i :: 0 <= i < |steps| ==>
         && Enabled(run[i], steps[i]) && Quiet(a, steps[i])
         && run[i + 1] == Apply(parsers, Some(a), run[i], steps[i])
  }

  /** How many of the steps reach the controller. */
  function Reaching(steps: seq<Step>): nat {
    if steps == [] then 0
    else
      var last := steps[|steps| - 1];
      Reaching(steps[..|steps| - 1]) + (if last.Act? && last.reachable then 1 else 0)
  }

  /** The peer list was emptied and the loop has not read anything else since. */
  ghost predicate Emptied(w: System) {
    && w.collector.peers.eligible == [] && w.collector.peers.pubkeys == {}
    && (w.counts.Some? ==> w.counts.value.eligiblePeers == 0)
  }

  /** The collector has exactly the usable members of the assignment and its target. */
  ghost predicate Assigned(parsers: Parsers, a: Assignment, c: Collector) {
    && c.targetPeerCount == a.stats.connectionCount
    && c.peers.pubkeys == PC.PubkeysOf(PeerList(parsers, a.members))
    && PeersOfMembers(parsers, a, c.peers.eligible)
  }

  ghost predicate PeersOfMembers(parsers: Parsers, a: Assignment, queue: seq<PC.Peer>) {
    forall p :: p in queue ==> exists r :: r in a.members && PeerOf(parsers, r, p)
  }

  lemma DeliveryAssigns(parsers: Parsers, a: Assignment, c: Collector, members: seq<MemberRecord>)
    requires multiset(members) == multiset(a.members) && PC.Inv(c.peers)
    requires (c.peers.pubkeys == {} && c.peers.eligible == []) || Assigned(parsers, a, c)
    ensures var d := Delivered(parsers, c, Some(a.(members := members)));
            Assigned(parsers, a, d) && PC.Inv(d.peers)
  {
    PC.AddAllAppendsNew(c.peers, PeerList(parsers, members));
    PC.AddAllKeepsInv(c.peers, PeerList(parsers, members));
    SamePubkeys(parsers, members, a.members);
    DeliveredPeers(parsers, c, a.(members := members), a.members);
    hide PeerOf, PeerList, PC.Inv;
  }

  /** Where a collector stands after its list was emptied: still empty, and back in the
      first phase once it has reached the controller; or assigned again. */
  ghost predicate Recovering(parsers: Parsers, a: Assignment, w: System, reached: nat) {
    && PC.Inv(w.collector.peers)
    && (|| Assigned(parsers, a, w.collector)
        || (Emptied(w) && reached == 0)
        || (Emptied(w) && reached == 1 && w.phase == Running))
  }

  lemma StepRecovers(parsers: Parsers, a: Assignment, w: System, step: Step, reached: nat)
    requires Enabled(w, step) && Quiet(a, step) && Recovering(parsers, a, w, reached)
    ensures Recovering(parsers, a, Apply(parsers, Some(a), w, step),
                       reached + (if step.Act? && step.reachable then 1 else 0))
  {
    match step
    case Look(_) =>
    case Act(reachable, known, members) =>
      DeliveryAssigns(parsers, a, w.collector, members);
      hide Delivered, Assigned, PC.Inv;
    case Mailbox(m, now) =>
      PC.HandleKeepsInv(w.collector.peers, m, now);
      hide PeerOf, PeerList, PC.Inv;
      forall p | p in PC.Handle(w.collector.peers, m, now).eligible ensures p in w.collector.peers.eligible {
      }
  }

  lemma {:induction false} RunRecovers(parsers: Parsers, a: Assignment, run: seq<System>, steps: seq<Step>, i: nat)
    requires IsRun(parsers, a, run, steps) && i < |run|
    requires Emptied(run[0]) && PC.Inv(run[0].collector.peers)
    ensures Recovering(parsers, a, run[i], Reaching(steps[..i]))
  {
    if i > 0 {
      RunRecovers(parsers, a, run, steps, i - 1);
      hide Recovering, Apply;
      StepRecovers(parsers, a, run[i - 1], steps[i - 1], Reaching(steps[..i - 1]));
      assert steps[..i][..i - 1] == steps[..i - 1];
    }
  }

  /** An emptied collector recovers: whatever phase it was in and however its loop
      interleaves with other tasks and failed connections, once it has reached the
      controller twice it has the target of its assignment, and its queue holds every
      usable member exactly once, with all its addresses, and nobody else. */
  lemma EmptiedCollectorRecovers(parsers: Parsers, a: Assignment, run: seq<System>, steps: seq<Step>, i: nat)
    requires IsRun(parsers, a, run, steps) && i < |run| && Reaching(steps[..i]) >= 2
    requires Emptied(run[0]) && PC.Inv(run[0].collector.peers)
    ensures run[i].collector.targetPeerCount == a.stats.connectionCount
    ensures PC.Inv(run[i].collector.peers)
    ensures forall p :: p in run[i].collector.peers.eligible ==> exists r :: r in a.members && PeerOf(parsers, r, p)
    ensures forall key :: key in run[i].collector.peers.pubkeys <==>
            exists r :: r in a.members && Usable(parsers, r, key)
  {
    RunRecovers(parsers, a, run, steps, i);
    hide PC.Inv, Usable, PeerOf;
    forall key
      ensures key in PC.PubkeysOf(PeerList(parsers, a.members))
              <==> exists r :: r in a.members && Usable(parsers, r, key)
    {
      PeerListed(parsers, a.members, key);
    }
  }
}
